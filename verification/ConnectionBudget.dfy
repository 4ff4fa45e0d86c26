/** The process-wide connection budget under every interleaving of its atomic
    steps: load, limit read, weak compare-and-swap (which may fail spuriously),
    ticket move, ticket drop and a reloaded limit. */
module ConnectionBudget {
  type Thread = nat
  type Ticket = nat

  /** Where a thread is in `try_acquire`; `peak` is the largest usage at any
      instant since its call began. */
  datatype Pc = Idle | Loaded(current: nat, peak: nat) | Checked(current: nat, peak: nat)

  /** `live` are the ticket objects that own a slot, `highest` the largest limit
      there has been. */
  datatype Budget = Budget(
    inUse: int, limit: nat, live: set<Ticket>, threads: map<Thread, Pc>, highest: nat)

  datatype Step =
    | Load(t: Thread)
    | ReadLimit(t: Thread)
    | Swap(t: Thread, spurious: bool, ticket: Ticket)
    | Move(from: Ticket, to: Ticket)
    | Drop(ticket: Ticket)
    | SetLimit(n: nat)

  function Start(limit: nat): (b: Budget) {
    Budget(0, limit, {}, map[], limit)
  }

  function PcOf(b: Budget, t: Thread): (pc: Pc) {
    if t in b.threads then b.threads[t] else Idle
  }

  function At(b: Budget, t: Thread, pc: Pc): (r: Budget) {
    b.(threads := b.threads[t := pc])
  }

  /** `reset`: a ticket that owns a slot gives it back. */
  function Release(b: Budget, ticket: Ticket): (r: Budget) {
    if ticket in b.live then b.(inUse := b.inUse - 1, live := b.live - {ticket}) else b
  }

  function Seen(pc: Pc, inUse: int): (r: Pc) {
    match pc
    case Idle => Idle
    case Loaded(c, peak) => Loaded(c, if inUse > peak then inUse else peak)
    case Checked(c, peak) => Checked(c, if inUse > peak then inUse else peak)
  }

  /** The usage after a step is an instant of every call in progress. */
  function Observe(b: Budget): (r: Budget) {
    b.(threads := map t | t in b.threads :: Seen(b.threads[t], b.inUse))
  }

  /** The limit read does not allow another connection. */
  predicate Refuses(b: Budget, t: Thread) {
    PcOf(b, t).Loaded? && PcOf(b, t).current >= b.limit
  }

  /** The swap succeeds: the usage is still what the thread believes. */
  predicate Grants(b: Budget, t: Thread, spurious: bool) {
    PcOf(b, t).Checked? && !spurious && b.inUse == PcOf(b, t).current
  }

  function Do(b: Budget, s: Step): (r: Budget) {
    match s
    case Load(t) =>
      if PcOf(b, t).Idle? && b.inUse >= 0 then At(b, t, Loaded(b.inUse, b.inUse)) else b
    case ReadLimit(t) =>
      if Refuses(b, t) then At(b, t, Idle)
      else if PcOf(b, t).Loaded? then At(b, t, Checked(PcOf(b, t).current, PcOf(b, t).peak))
      else b
    case Swap(t, spurious, ticket) =>
      if Grants(b, t, spurious) && ticket !in b.live then
        At(b.(inUse := b.inUse + 1, live := b.live + {ticket}), t, Idle)
      else if PcOf(b, t).Checked? && b.inUse >= 0 then At(b, t, Loaded(b.inUse, PcOf(b, t).peak))
      else b
    case Move(from, to) =>
      if from == to then b
      else
        var c := Release(b, to);
        if from in c.live then c.(live := c.live - {from} + {to}) else c
    case Drop(ticket) => Release(b, ticket)
    case SetLimit(n) => b.(limit := n, highest := if n > b.highest then n else b.highest)
  }

  function Next(b: Budget, s: Step): (r: Budget) {
    Observe(Do(b, s))
  }

  function Run(b: Budget, steps: seq<Step>): (r: Budget)
    decreases |steps|
  {
    if steps == [] then b else Run(Next(b, steps[0]), steps[1..])
  }

  /** What a thread knows is not news: it has seen that usage during its call, and
      a limit read let it go on. */
  predicate PcOk(b: Budget, pc: Pc) {
    match pc
    case Idle => true
    case Loaded(c, peak) => c <= peak && b.inUse <= peak
    case Checked(c, peak) => c <= peak && b.inUse <= peak && c < b.highest
  }

  predicate Knows(b: Budget, pc: Pc) {
    match pc
    case Idle => true
    case Loaded(c, peak) => c <= peak
    case Checked(c, peak) => c <= peak && c < b.highest
  }

  ghost predicate Inv(b: Budget) {
    && b.inUse == |b.live| && b.inUse <= b.highest && b.limit <= b.highest
    && forall t :: t in b.threads ==> PcOk(b, b.threads[t])
  }

  /** The invariant before the new instant is on record. */
  ghost predicate Mid(b: Budget) {
    && b.inUse == |b.live| && b.inUse <= b.highest && b.limit <= b.highest
    && forall t :: t in b.threads ==> Knows(b, b.threads[t])
  }

  lemma {:induction false} SwapKeeps(b: Budget, t: Thread, spurious: bool, ticket: Ticket)
    requires Inv(b)
    ensures Mid(Do(b, Swap(t, spurious, ticket)))
  {
    assert t in b.threads ==> PcOk(b, b.threads[t]);
  }

  lemma {:induction false} MoveKeeps(b: Budget, from: Ticket, to: Ticket)
    requires Inv(b)
    ensures Mid(Do(b, Move(from, to)))
  {
    if from != to && from in Release(b, to).live {
      MoveCounts(Release(b, to).live, from, to);
    }
  }

  lemma {:induction false} DoKeeps(b: Budget, s: Step)
    requires Inv(b)
    ensures Mid(Do(b, s))
  {
    hide Inv, Mid, Do;
    match s {
      case Load(t) => LoadKeeps(b, t);
      case ReadLimit(t) => ReadKeeps(b, t);
      case Swap(t, spurious, ticket) => SwapKeeps(b, t, spurious, ticket);
      case Move(from, to) => MoveKeeps(b, from, to);
      case Drop(ticket) => DropKeeps(b, ticket);
      case SetLimit(n) => LimitKeeps(b, n);
    }
  }

  lemma {:induction false} LoadKeeps(b: Budget, t: Thread)
    requires Inv(b)
    ensures Mid(Do(b, Load(t)))
  {
  }

  lemma {:induction false} ReadKeeps(b: Budget, t: Thread)
    requires Inv(b)
    ensures Mid(Do(b, ReadLimit(t)))
  {
    assert t in b.threads ==> PcOk(b, b.threads[t]);
  }

  lemma {:induction false} DropKeeps(b: Budget, ticket: Ticket)
    requires Inv(b)
    ensures Mid(Do(b, Drop(ticket)))
  {
  }

  lemma {:induction false} LimitKeeps(b: Budget, n: nat)
    requires Inv(b)
    ensures Mid(Do(b, SetLimit(n)))
  {
  }

  lemma {:induction false} MoveCounts(live: set<Ticket>, from: Ticket, to: Ticket)
    requires from in live && to !in live
    ensures |live - {from} + {to}| == |live|
  {
  }

  lemma {:induction false} NextKeeps(b: Budget, s: Step)
    requires Inv(b)
    ensures Inv(Next(b, s))
  {
    hide Do;
    DoKeeps(b, s);
  }

  lemma {:induction false} RunKeeps(b: Budget, steps: seq<Step>)
    requires Inv(b)
    ensures Inv(Run(b, steps))
    decreases |steps|
  {
    hide Inv, Next;
    if steps != [] {
      NextKeeps(b, steps[0]);
      RunKeeps(Next(b, steps[0]), steps[1..]);
    }
  }

  /** After every interleaving the usage is the number of live tickets, and never
      above the largest limit there has been. */
  lemma {:induction false} UsageIsLiveTickets(limit: nat, steps: seq<Step>)
    ensures var b := Run(Start(limit), steps);
            b.inUse == |b.live| && 0 <= b.inUse <= b.highest
  {
    RunKeeps(Start(limit), steps);
  }

  lemma {:induction false} RunSnoc(b: Budget, steps: seq<Step>)
    requires steps != []
    ensures Run(b, steps) == Next(Run(b, steps[..|steps| - 1]), steps[|steps| - 1])
    decreases |steps|
  {
    hide Next;
    if |steps| > 1 {
      RunSnoc(Next(b, steps[0]), steps[1..]);
      assert steps[1..][..|steps| - 2] == steps[..|steps| - 1][1..];
    }
  }

  /** The usage a call has seen last is either that of now, or was seen before. */
  lemma {:induction false} PeakMoves(b: Budget, s: Step, t: Thread)
    requires b.inUse >= 0 && !PcOf(Next(b, s), t).Idle?
    ensures var peak := PcOf(Next(b, s), t).peak;
            peak == Next(b, s).inUse || (!PcOf(b, t).Idle? && peak == PcOf(b, t).peak)
  {
  }

  ghost predicate InCall(limit: nat, steps: seq<Step>, t: Thread, from: nat) {
    from <= |steps| && forall j :: from <= j <= |steps| ==> !PcOf(Run(Start(limit), steps[..j]), t).Idle?
  }

  lemma {:induction false} EmptyRun(limit: nat, t: Thread)
    ensures PcOf(Run(Start(limit), []), t).Idle?
  {
  }

  /** The peak of a call was the usage at an instant of that call. */
  lemma {:induction false} PeakInstant(limit: nat, steps: seq<Step>, t: Thread) returns (k: nat)
    requires !PcOf(Run(Start(limit), steps), t).Idle?
    ensures InCall(limit, steps, t, k)
    ensures Run(Start(limit), steps[..k]).inUse == PcOf(Run(Start(limit), steps), t).peak
    decreases |steps|
  {
    hide Next, Run;
    var n := |steps|;
    assert steps[..n] == steps;
    EmptyRun(limit, t);
    RunSnoc(Start(limit), steps);
    var before, last := steps[..n - 1], steps[n - 1];
    var b := Run(Start(limit), before);
    RunKeeps(Start(limit), before);
    PeakMoves(b, last, t);
    if PcOf(Next(b, last), t).peak == Next(b, last).inUse {
      k := n;
    } else {
      k := PeakInstant(limit, before, t);
      assert steps[..k] == before[..k];
      forall j | k <= j <= n
        ensures !PcOf(Run(Start(limit), steps[..j]), t).Idle?
      {
        if j < n {
          assert steps[..j] == before[..j];
        }
      }
    }
  }

  /** A refusal is never spurious: at some instant of the call the usage was at
      least the limit it is refused under. */
  lemma {:induction false} RefusalMeansFull(limit: nat, steps: seq<Step>, t: Thread) returns (k: nat)
    requires Refuses(Run(Start(limit), steps), t)
    ensures InCall(limit, steps, t, k)
    ensures Run(Start(limit), steps[..k]).inUse >= Run(Start(limit), steps).limit
  {
    var b := Run(Start(limit), steps);
    RunKeeps(Start(limit), steps);
    assert PcOk(b, b.threads[t]);
    k := PeakInstant(limit, steps, t);
  }

  /** A reloaded limit is in force at once and evicts nobody: while usage is not below
      it, whoever asks is refused. */
  lemma {:induction false} ReloadEvictsNobody(limit: nat, steps: seq<Step>, n: nat, t: Thread)
    ensures var b := Run(Start(limit), steps);
            var c := Next(b, SetLimit(n));
            && c.live == b.live && c.inUse == b.inUse
            && (PcOf(b, t).Idle? ==> (Refuses(Next(c, Load(t)), t) <==> b.inUse >= n))
  {
    hide Run;
    var b := Run(Start(limit), steps);
    RunKeeps(Start(limit), steps);
    var c := Next(b, SetLimit(n));
    if PcOf(b, t).Idle? {
      assert PcOf(Next(c, Load(t)), t) == Loaded(b.inUse, b.inUse);
    }
  }

  /** A dropped ticket gives its slot back, and no other does. */
  lemma {:induction false} DropFreesOneSlot(limit: nat, steps: seq<Step>, ticket: Ticket)
    ensures var b := Run(Start(limit), steps);
            var c := Next(b, Drop(ticket));
            c.live == b.live - {ticket} && c.inUse == b.inUse - (if ticket in b.live then 1 else 0)
  {
    RunKeeps(Start(limit), steps);
  }

  /** A moved ticket hands its slot over; the one it replaces gives its own back. */
  lemma {:induction false} MoveHandsOver(limit: nat, steps: seq<Step>, from: Ticket, to: Ticket)
    requires from != to
    ensures var b := Run(Start(limit), steps);
            var c := Next(b, Move(from, to));
            && c.live == b.live - {from, to} + (if from in b.live then {to} else {})
            && c.inUse == b.inUse - (if to in b.live then 1 else 0)
  {
    RunKeeps(Start(limit), steps);
  }

  /** Where there is room, a thread that is not disturbed gets a slot. */
  lemma {:induction false} RoomIsGranted(limit: nat, steps: seq<Step>, t: Thread, ticket: Ticket)
    requires var b := Run(Start(limit), steps); PcOf(b, t).Idle? && b.inUse < b.limit && ticket !in b.live
    ensures var b := Run(Start(limit), steps);
            Next(Next(Next(b, Load(t)), ReadLimit(t)), Swap(t, false, ticket)).live == b.live + {ticket}
  {
    hide Run;
    var b := Run(Start(limit), steps);
    RunKeeps(Start(limit), steps);
    var l := Next(b, Load(t));
    assert PcOf(l, t) == Loaded(b.inUse, b.inUse) && l.inUse == b.inUse && l.limit == b.limit && l.live == b.live;
    var r := Next(l, ReadLimit(t));
    assert PcOf(r, t) == Checked(b.inUse, b.inUse) && r.inUse == b.inUse && r.live == b.live;
  }

  /** A grant stays within a limit that was in force during the run, and the slot
      is one that no other ticket owns. */
  lemma {:induction false} GrantTakesOneSlot(limit: nat, steps: seq<Step>, t: Thread, ticket: Ticket)
    requires Grants(Run(Start(limit), steps), t, false) && ticket !in Run(Start(limit), steps).live
    ensures var b := Run(Start(limit), steps);
            var c := Next(b, Swap(t, false, ticket));
            c.live == b.live + {ticket} && c.inUse == b.inUse + 1 <= b.highest
  {
    var b := Run(Start(limit), steps);
    RunKeeps(Start(limit), steps);
    assert PcOk(b, b.threads[t]);
  }
}
