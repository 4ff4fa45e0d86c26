/** The gateway's event loop around backend exchanges: a client owns one or more
    child exchanges, `owner` maps every armed backend descriptor back to its
    child. The exchanges are the real ones: they drop, open and adopt sockets while
    they are driven, and the kernel reuses descriptor numbers. After every event,
    in every run, the registry is exact, each exchange started has been answered
    once, aborted once, or is still in flight, and no request was put on more
    connections than its method allows. */
module EventLoop {
  import opened Bytes
  import opened Clock
  import opened Registry
  import U = UpstreamExchange
  import P = ConnectionPool
  import CB = CircuitBreaker
  import H = ProxyHop
  import FR = Framing

  type Histories = map<string, seq<CB.Event>>

  /** Transient failures of idempotent requests are retried, twice at most. */
  predicate ShouldRetry(verb: string, error: U.BackendError, attempts: nat) {
    attempts < 2 && Idempotent(verb) && !error.InvalidResponse?
  }

  /** The route, too, allows another try. */
  predicate Retries(ch: Child, r: U.Result) {
    r.Error? && ch.job.Some? && ch.attempts < ch.maxRetries && ShouldRetry(ch.job.value.params.verb, r.error, ch.attempts)
  }

  /** The dependency is on record as `done`: in the exchange while it lasts, in the
      answer once it is complete. */
  predicate ResolvedAs(clients: Clients, log: seq<Completion>, slot: Slot, done: Child) {
    var children := ChildrenOf(clients, log, slot.0);
    slot.1 < |children| && children[slot.1] == done
  }

  /** The call came to the response `answer`. */
  predicate CameTo(ch: Child, answer: string, maxResponse: nat) {
    && ch.result.Some? && U.Reports(answer, maxResponse, ch.result.value)
    && (ch.finished ==> ch.item == ItemFor(ch.result.value))
  }

  /** The call of `slot` came to the response `answer`; if it was a single one, the
      client is answered with its status. */
  predicate Delivered(before: Clients, log: seq<Completion>, after: Clients, log': seq<Completion>, slot: Slot, answer: string, maxResponse: nat)
    requires SlotIn(before, slot)
  {
    var children := ChildrenOf(after, log', slot.0);
    && slot.1 < |children| && CameTo(children[slot.1], answer, maxResponse)
    && (before[slot.0].composite ==> children[slot.1].finished)
    && (!before[slot.0].composite ==>
          && after == before - {slot.0} && U.StatusOf(answer).Some?
          && log' == log + [Answered(before[slot.0].id, false, U.StatusOf(answer).value, children)])
  }

  lemma {:induction false} IsDelivered(before: Clients, log: seq<Completion>, ch: Child, after: Clients,
        log': seq<Completion>, slot: Slot, answer: string, maxResponse: nat)
    requires SlotIn(before, slot) && ch.ex.Some? && !ch.finished && U.Reports(answer, maxResponse, ch.ex.value.s.result)
    requires before[slot.0].composite ==> ResolvedAs(after, log', slot, Concluded(ch))
    requires !before[slot.0].composite ==>
               && |before[slot.0].children| == 1 && after == WithChild(before, slot, ch) - {slot.0}
               && log' == log + [Answered(before[slot.0].id, false, ch.ex.value.s.result.status, [Ended(ch)])]
    ensures Delivered(before, log, after, log', slot, answer, maxResponse)
  {
    hide U.StatusOf, U.HeadersOf, FR.FrameFor;
    if !before[slot.0].composite {
      assert WithChild(before, slot, ch) - {slot.0} == before - {slot.0};
      assert ChildrenOf(after, log', slot.0) == [Ended(ch)];
    }
  }

  lemma {:induction false} WaitingIsDriven(before: Clients, after: Clients, slot: Slot, now: int, skip: set<Slot>)
    requires SlotIn(before, slot) && SlotIn(after, slot) && after == WithChild(before, slot, ChildAt(after, slot))
    requires Live(ChildAt(after, slot)) && ChildAt(after, slot).ex.value.s.deadline > now
    requires SameCall(ChildAt(after, slot), ChildAt(before, slot))
    requires ChildAt(after, slot).outcomes == ChildAt(before, slot).outcomes && |ChildAt(after, slot).puts| == |ChildAt(before, slot).puts|
    ensures Driven(before, after, slot, now, skip)
  {
    hide Live;
    LiveFacts(ChildAt(after, slot));
    assert !after[slot.0].children[slot.1].finished;
  }

  /** An answer from children of which one has moved on is one from them as they were. */
  lemma {:induction false} EndedBefore(log: seq<Completion>, before: Clients, slot: Slot, ch: Child)
    requires SlotIn(before, slot) && !ChildAt(before, slot).finished
    requires SameCall(ch, ChildAt(before, slot))
    requires |ch.puts| >= |ChildAt(before, slot).puts|
    requires var mid := WithChild(before, slot, ch)[slot.0]; EndedWith(log, mid.id, mid.children)
    ensures EndedWith(log, before[slot.0].id, before[slot.0].children)
  {
  }

  lemma {:induction false} NotRetried(ch: Child, answer: string)
    requires ch.ex.Some? && U.Reports(answer, ch.ex.value.cfg.maxResponse, ch.ex.value.s.result)
    ensures !Retries(ch, ch.ex.value.s.result)
  {
    hide U.StatusOf, U.HeadersOf, FR.FrameFor;
  }

  /** The same call, as important and with as many retries. */
  predicate SameCall(a: Child, b: Child) {
    a.required == b.required && a.job == b.job && a.maxRetries == b.maxRetries
  }

  /** Children keep their place, job and importance, and finished ones do not change. */
  predicate ChildrenKept(before: seq<Child>, after: seq<Child>) {
    |after| == |before| &&
    forall i :: 0 <= i < |before| ==>
      && SameCall(after[i], before[i]) && |after[i].puts| >= |before[i].puts|
      && (before[i].finished ==> after[i] == before[i])
  }

  /** The last answer is that of exchange `id`, from these children. */
  predicate EndedWith(log: seq<Completion>, id: nat, children: seq<Child>) {
    log != [] && log[|log| - 1].Answered? && log[|log| - 1].id == id && ChildrenKept(children, log[|log| - 1].children)
  }

  /** The children of an exchange: as it stands, or as it was answered last. */
  function ChildrenOf(clients: Clients, log: seq<Completion>, c: Client): (children: seq<Child>) {
    if c in clients then clients[c].children
    else if log != [] && log[|log| - 1].Answered? then log[|log| - 1].children
    else []
  }

  /** Only client `c` differs. */
  ghost predicate OthersSame(before: Clients, after: Clients, c: Client) {
    forall d :: d != c ==> ((d in before <==> d in after) && (d in before ==> after[d] == before[d]))
  }

  /** The children of `skip` are waiting for their first drive. */
  ghost predicate Undriven(clients: Clients, skip: set<Slot>, c: Client) {
    forall t :: t in skip ==>
      && t.0 == c && SlotIn(clients, t)
      && Live(ChildAt(clients, t)) && ChildAt(clients, t).fd.None? && ChildAt(clients, t).ex.value.sock.None?
  }

  /** A child that may be driven: armed, or not driven before. */
  ghost predicate Ready(clients: Clients, owner: map<Fd, Slot>, f: Fds, skip: set<Slot>, slot: Slot) {
    && SlotIn(clients, slot) && slot !in skip && Live(ChildAt(clients, slot))
    && Undriven(clients, skip, slot.0)
    && (ChildAt(clients, slot).fd.None? ==> ChildAt(clients, slot).ex.value.sock.None?)
    && RegOk(clients, owner, f, if ChildAt(clients, slot).fd.Some? then skip else skip + {slot}, {})
    && (!clients[slot.0].composite ==> |clients[slot.0].children| == 1 && skip == {})
  }

  /** Some call of the exchange is still out. */
  predicate Unfinished(p: InFlight) {
    exists i :: 0 <= i < |p.children| && !p.children[i].finished
  }

  /** What driving the child of `slot` did to the clients: nothing but replace that
      child by one that is finished or waits with a deadline ahead, or end the
      whole exchange. */
  ghost predicate Driven(before: Clients, after: Clients, slot: Slot, now: int, skip: set<Slot>)
    requires SlotIn(before, slot)
  {
    if slot.0 in after then
      && SlotIn(after, slot) && after == WithChild(before, slot, ChildAt(after, slot)) && Unfinished(after[slot.0])
      && (Retired(ChildAt(after, slot)) || (Live(ChildAt(after, slot)) && ChildAt(after, slot).ex.value.s.deadline > now))
      && SameCall(ChildAt(after, slot), ChildAt(before, slot))
      && ChildAt(after, slot).outcomes >= ChildAt(before, slot).outcomes && |ChildAt(after, slot).puts| >= |ChildAt(before, slot).puts|
    else after == before - {slot.0} && skip == {}
  }

  lemma {:induction false} WithChildTwice(clients: Clients, slot: Slot, a: Child, b: Child)
    requires SlotIn(clients, slot)
    ensures SlotIn(WithChild(clients, slot, a), slot)
    ensures WithChild(WithChild(clients, slot, a), slot, b) == WithChild(clients, slot, b)
  {
    assert clients[slot.0].children[slot.1 := a][slot.1 := b] == clients[slot.0].children[slot.1 := b];
  }

  lemma {:induction false} DrivenAfter(before: Clients, ch: Child, after: Clients, slot: Slot, now: int, later: int, skip: set<Slot>)
    requires SlotIn(before, slot) && SlotIn(WithChild(before, slot, ch), slot)
    requires SameCall(ch, ChildAt(before, slot))
    requires ch.outcomes >= ChildAt(before, slot).outcomes && |ch.puts| >= |ChildAt(before, slot).puts|
    requires later >= now && Driven(WithChild(before, slot, ch), after, slot, later, skip)
    ensures Driven(before, after, slot, now, skip)
  {
    hide Live, Retired;
    if slot.0 in after {
      WithChildTwice(before, slot, ch, ChildAt(after, slot));
    }
  }

  lemma {:induction false} UndrivenKept(clients: Clients, skip: set<Slot>, slot: Slot, ch: Child)
    requires SlotIn(clients, slot) && slot !in skip && Undriven(clients, skip, slot.0)
    ensures Undriven(WithChild(clients, slot, ch), skip, slot.0)
  {
    hide Live;
  }

  /** Single exchanges have one child, and every exchange waits for one. */
  predicate ShapesOk(clients: Clients) {
    forall c :: c in clients ==> (clients[c].composite || |clients[c].children| == 1) && Unfinished(clients[c])
  }

  lemma {:induction false} ShapesWith(clients: Clients, c: Client)
    requires c in clients && clients[c].composite && ShapesOk(clients - {c})
    requires !(forall i :: 0 <= i < |clients[c].children| ==> clients[c].children[i].finished)
    ensures ShapesOk(clients)
  {
    assert Unfinished(clients[c]);
    hide Unfinished;
    forall d | d in clients
      ensures (clients[d].composite || |clients[d].children| == 1) && Unfinished(clients[d])
    {
      assert d != c ==> d in clients - {c};
    }
  }

  lemma {:induction false} ShapesKept(before: Clients, after: Clients, slot: Slot, now: int, skip: set<Slot>)
    requires SlotIn(before, slot) && Driven(before, after, slot, now, skip) && ShapesOk(before)
    ensures ShapesOk(after)
  {
    hide Live, Retired;
  }

  /** An armed child may be driven. */
  lemma {:induction false} ArmedIsReady(clients: Clients, owner: map<Fd, Slot>, f: Fds, slot: Slot)
    requires RegOk(clients, owner, f, {}, {}) && ShapesOk(clients)
    requires SlotIn(clients, slot) && !ChildAt(clients, slot).finished
    ensures Ready(clients, owner, f, {}, slot)
  {
    assert SlotOk(clients, owner, slot);
  }

  lemma {:induction false} ReadyFacts(clients: Clients, owner: map<Fd, Slot>, f: Fds, skip: set<Slot>, slot: Slot)
    requires Ready(clients, owner, f, skip, slot)
    ensures FdsOk(owner.Keys, f, {}) && Held(ChildAt(clients, slot).fd) <= owner.Keys
    ensures ChildAt(clients, slot).ex.value.sock == ChildAt(clients, slot).fd
  {
    if ChildAt(clients, slot).fd.Some? {
      assert SlotOk(clients, owner, slot);
      assert OwnerOk(clients, owner, ChildAt(clients, slot).fd.value);
    }
  }

  /** What the invariant of the exchange means for the books. */
  lemma {:induction false} HoldsOwns(x: Ex, streams: seq<U.Stream>)
    requires ExHolds(x, streams)
    ensures Owns(streams, x.obj, x.s.sock) && (x.sock.None? <==> x.s.sock.None?)
  {
    hide U.Inv;
    U.InvFacts(x.cfg, x.s, streams, x.obj);
  }

  /** The bounds on what an exchange sends, read off its own invariant. */
  lemma {:induction false} SentByTry(ch: Child, x: Ex, streams: seq<U.Stream>)
    requires Live(ch) && U.Inv(x.cfg, x.s, streams, x.obj) && x.cfg == ch.ex.value.cfg
    ensures Live(ch.(fd := None, ex := Some(x), puts := ch.puts[|ch.puts| - 1 := x.s.puts]))
  {
    hide U.ResultOk, U.Holds, WireOf;
  }

  /** A resolved dependency that never reached a backend. */
  function Resolved(job: Option<Job>, required: bool, item: Item): (ch: Child) {
    Child(None, None, job, required, true, false, item, 1, 0, 0, [], 0, None)
  }

  function FirstTry(x: Ex, job: Job, required: bool, maxRetries: int): (ch: Child) {
    Child(None, Some(x), Some(job), required, false, false, Unresolved, 0, 0, maxRetries, [x.s.puts], 0, None)
  }

  function ToDrive(c: Client, children: seq<Child>, from: nat): (r: set<Slot>) {
    set i | from <= i < |children| && !children[i].finished :: (c, i)
  }

  /** Where a call would go: nowhere, or to a backend. */
  datatype Target = Missing | Call(job: Job)

  datatype Dependency = Dependency(required: bool, target: Target)

  predicate TargetOk(t: Target) {
    t.Call? ==> JobOk(t.job)
  }

  /** The copy of the exchange that the loop keeps is up to date. */
  ghost predicate Mirror(x: Ex)
    reads x.obj
  {
    x.obj.st == x.s && x.obj.cfg == x.cfg && x.obj.Configured()
  }

  class Loop {
    const w: U.World
    const pool: P.Pool
    const circuits: CB.Circuits
    var clients: Clients
    var owner: map<Fd, Slot>
    var epoll: set<Fd>
    var log: seq<Completion>
    var nextId: nat
    ghost var repr: set<U.Exchange>

    /** Some drive has met a chunk size that wraps; from there on the source may do
        anything from a wrong frame to a scan that never ends. */
    var astray: bool

    /** The descriptors, registered, open and pooled. */
    ghost function F(): (f: Fds)
      reads this`epoll, w`streams
    {
      FdsOf(epoll, w.streams)
    }

    ghost predicate Mirrors()
      reads this`clients, this`repr, repr
    {
      forall s :: HasEx(clients, s) ==> ExAt(clients, s).obj in repr && Mirror(ExAt(clients, s))
    }

    /** The books are those of the real exchanges, connections and circuits. */
    ghost predicate Real()
      reads this`clients, this`repr, w`streams, pool`idle, circuits, repr
    {
      RealOk(clients, w.streams, pool.idle) && Mirrors() && circuits.Valid()
    }

    ghost predicate Valid()
      reads this, w`streams, pool`idle, circuits, repr
    {
      RegOk(clients, owner, F(), {}, {}) && LogOk(clients, log, nextId) && ShapesOk(clients) && Real()
    }

    constructor (w: U.World, pool: P.Pool, circuits: CB.Circuits)
      requires w.streams == [] && pool.idle == map[] && circuits.Valid()
      ensures Valid() && clients == map[] && log == []
      ensures this.w == w && this.pool == pool && this.circuits == circuits && repr == {}
    {
      this.w, this.pool, this.circuits := w, pool, circuits;
      clients, owner, epoll, log, nextId, repr, astray := map[], map[], {}, [], 0, {}, false;
    }

    /** The clients change, but none has an exchange that it had not. */
    method SetClients(next: Clients)
      requires Real() && RealOk(next, w.streams, pool.idle) && Fewer(clients, next)
      modifies this`clients
      ensures clients == next && Real()
    {
      hide RealOk;
      clients := next;
    }

    /** Only the child of `slot` has changed. */
    lemma {:induction false} MirrorsPut(was: Clients, slot: Slot)
      requires SlotIn(was, slot) && SlotIn(clients, slot) && clients == WithChild(was, slot, ChildAt(clients, slot))
      requires HasEx(clients, slot) ==> ExAt(clients, slot).obj in repr && Mirror(ExAt(clients, slot))
      requires forall s :: HasEx(was, s) && s != slot ==> ExAt(was, s).obj in repr && Mirror(ExAt(was, s))
      ensures Mirrors()
    {
      hide Mirror;
      forall s | HasEx(clients, s)
        ensures ExAt(clients, s).obj in repr && Mirror(ExAt(clients, s))
      {
        if s != slot {
          assert HasEx(was, s) && ExAt(clients, s) == ExAt(was, s);
        }
      }
    }

    lemma {:induction false} RealIs()
      requires Real()
      ensures RealOk(clients, w.streams, pool.idle)
    {
    }

    lemma {:induction false} PoolIsSafe()
      requires Real()
      ensures forall k :: 0 <= k < |w.streams| ==> U.Proper(w.streams[k])
      ensures forall k :: 0 <= k < |w.streams| && w.streams[k].place.Idle? ==> U.Ready(w.streams[k]) && U.LastSaidKeep(w.streams[k])
    {
      hide U.PoolOk, U.Proper, U.Ready, U.LastSaidKeep, ExHolds;
      U.PoolPromises(pool.idle, w.streams);
    }

    lemma {:induction false} WatchedAre()
      ensures F().epoll == epoll
    {
    }

    lemma {:induction false} DoneIsOk(slot: Slot)
      requires Real() && HasEx(clients, slot) && ExAt(clients, slot).s.phase == U.Done
      ensures StatusOk(ExAt(clients, slot).s.result)
    {
      hide U.PoolOk, U.Holds, U.PutsOk;
      RealFacts(clients, w.streams, pool.idle, slot);
    }

    /** Nothing stands between the call of `slot` and the response `answer`. */
    ghost predicate Expects(slot: Slot, event: bool, answer: string, rest: string)
      reads this`clients, w, pool`idle
    {
      && HasEx(clients, slot) && U.StatusOf(answer).Some?
      && U.Smooth(ExAt(clients, slot).cfg, ExAt(clients, slot).s, w, pool, event, answer, rest)
    }

    /** If the call looks for a connection at `when`, it has one, from the pool or new,
        which takes the request and brings `answer`. */
    ghost predicate Reaches(job: Job, when: int, answer: string, rest: string)
      reads w`io, w`sockets, w`streams, pool`idle
    {
      && JobOk(job) && FR.IsAnswer(answer, job.maxResponse) && U.StatusOf(answer).Some?
      && U.HasNumber(w)
      && U.Begins(ConfigOf(job), U.WayFor(ConfigOf(job), false, pool.idle, when - pool.idleTimeout, w.io, true), answer, rest)
    }

    /** There is no pooled connection for the call, but a new one can be had, takes the
        request and brings `answer`. */
    ghost predicate ReachesNew(job: Job, answer: string, rest: string)
      reads w`io, w`sockets, w`streams, pool`idle
    {
      && JobOk(job) && FR.IsAnswer(answer, job.maxResponse) && U.StatusOf(answer).Some?
      && P.Key(job.params.host, job.params.port, P.Scheme(job.policy)) !in pool.idle
      && U.HasNumber(w) && U.Opens(ConfigOf(job), w.io, answer, rest)
    }

    /** A new exchange whose deadline is still ahead expects what the call reaches. */
    lemma {:induction false} NewExpects(slot: Slot, job: Job, answer: string, rest: string)
      requires Reaches(job, w.now + w.delta(w.tick) + w.delta(w.tick + 1), answer, rest) && HasEx(clients, slot)
      requires ExAt(clients, slot).cfg == ConfigOf(job) && ExAt(clients, slot).s.phase == U.Connect && !ExAt(clients, slot).s.retried
      requires U.Prompt(w.delta, job.timeoutMs * NANOS) && w.now + w.delta(w.tick) < ExAt(clients, slot).s.deadline
      ensures Expects(slot, false, answer, rest)
    {
      hide Real, FR.IsAnswer, U.StatusOf, U.Begins, U.WayFor, U.HasNumber, ConfigOf;
      ConfigFacts(job);
    }

    lemma {:induction false} ExpectsIs(slot: Slot, event: bool, answer: string, rest: string)
      requires Expects(slot, event, answer, rest)
      ensures HasEx(clients, slot) && U.StatusOf(answer).Some?
      ensures U.Smooth(ExAt(clients, slot).cfg, ExAt(clients, slot).s, w, pool, event, answer, rest)
    {
    }

    // -------------------------------------------------------------- one drive

    /** Drive the exchange, then unregister the descriptor it was armed under. The
        kernel forgets a registered descriptor when it is closed. */
    method Advance(slot: Slot, event: bool, ghost skip: set<Slot>, ghost smooth: bool, ghost answer: string, ghost rest: string)
      returns (want: U.Want)
      requires Ready(clients, owner, F(), skip, slot) && Real() && (smooth ==> Expects(slot, event, answer, rest))
      modifies this`clients, this`owner, this`epoll, this`astray, w, pool, repr
      ensures SlotIn(old(clients), slot) && SlotIn(clients, slot) && (old(astray) ==> astray)
      ensures var ch := ChildAt(clients, slot);
              && Live(ch) && ch == ChildAt(old(clients), slot).(fd := None, ex := ch.ex, puts := ch.puts)
              && |ch.puts| == |ChildAt(old(clients), slot).puts|
              && clients == WithChild(old(clients), slot, ch)
              && RegOk(clients, owner, F(), skip + {slot}, Held(ch.ex.value.sock))
              && (want != U.Finished ==> ch.ex.value.sock.Some? && ch.ex.value.s.deadline > w.now)
              && (want == U.Finished <==> ch.ex.value.s.phase == U.Done)
              && ch.ex.value.cfg == old(ChildAt(clients, slot).ex.value.cfg)
              && (smooth ==>
                    && want == U.Finished && U.Reports(answer, ch.ex.value.cfg.maxResponse, ch.ex.value.s.result)
                    && (ch.ex.value.cfg.maxResponse + 1 < SIZE_MAX ==> astray == old(astray)))
      ensures Real() && w.now >= old(w.now)
    {
      hide RegOk, RealOk, Undriven, ExHolds, Live, Ready, FdsOf, Mirror, U.OthersKept, U.PoolOk, U.Reports;
      hide U.Smooth, U.StatusOf, Expects, EpollAfter;
      ReadyIsIn(clients, owner, F(), skip, slot);
      var ch := ChildAt(clients, slot);
      var x := ch.ex.value;
      RealFacts(clients, w.streams, pool.idle, slot);
      ghost var before, idle := w.streams, pool.idle;
      if smooth {
        ExpectsIs(slot, event, answer, rest);
      }
      var y;
      var off;
      y, want, off := DriveExchange(w, pool, x, event, answer, rest);
      AdvanceBooks(clients, owner, epoll, skip, slot, before, idle, w.streams, pool.idle, y);
      epoll := EpollAfter(epoll, ch, y);
      owner := owner - Held(ch.fd);
      clients := WithChild(clients, slot, AfterDrive(ch, y));
      MirrorsPut(old(clients), slot);
      astray := astray || off;
    }

    /** The exchange of an unregistered child is destroyed; a finished one may give
        its connection back first. */
    method Destroy(slot: Slot, reuse: bool, ghost skip: set<Slot>)
      requires HasEx(clients, slot) && slot !in skip && Real()
      requires RegOk(clients, owner, F(), skip + {slot}, Held(ExAt(clients, slot).sock)) && LogOk(clients, log, nextId)
      requires reuse ==> ExAt(clients, slot).s.phase == U.Done
      modifies this`clients, w, pool, repr
      ensures SlotIn(old(clients), slot)
      ensures clients == WithChild(old(clients), slot, Undone(ChildAt(old(clients), slot)))
      ensures RegOk(clients, owner, F(), skip + {slot}, {}) && LogOk(clients, log, nextId) && Real() && w.now >= old(w.now)
      ensures LeavesBehind(old(ExAt(clients, slot)), reuse, old(pool.idle), old(U.OpenFds(w.streams)), old(U.IdleFds(w.streams)),
                           U.OpenFds(w.streams), U.IdleFds(w.streams))
    {
      hide RegOk, LogOk, RealOk, ExHolds, Mirror, U.PoolOk, U.HeldKept, U.OpenFds, U.IdleFds;
      var ch := ChildAt(clients, slot);
      RealFacts(clients, w.streams, pool.idle, slot);
      ghost var before, idle := w.streams, pool.idle;
      DestroyExchange(w, pool, ch.ex.value, reuse);
      DropKeeps(clients, owner, FdsOf(epoll, before), skip + {slot}, Held(ch.ex.value.sock));
      ReplaceKeeps(clients, owner, F(), skip, slot, Undone(ch));
      LogKept(clients, log, nextId, slot, Undone(ch));
      RealReplace(clients, slot, Undone(ch), before, idle, w.streams, pool.idle, ch.ex.value.obj);
      clients := WithChild(clients, slot, Undone(ch));
      MirrorsPut(old(clients), slot);
    }

    /** `drive_child`. */
    method DriveChild(slot: Slot, event: bool, ghost skip: set<Slot>, ghost answer: string, ghost rest: string)
      requires Ready(clients, owner, F(), skip, slot) && LogOk(clients, log, nextId) && Real()
      modifies this, w, pool, circuits, repr
      ensures Driven(old(clients), clients, slot, old(w.now), skip)
      ensures RegOk(clients, owner, F(), skip, {}) && LogOk(clients, log, nextId) && Real()
      ensures w.now >= old(w.now) && nextId == old(nextId) && old(repr) <= repr && fresh(repr - old(repr))
      ensures slot.0 !in clients ==> EndedWith(log, old(clients)[slot.0].id, old(clients)[slot.0].children)
      ensures HistoryGrows(old(circuits.history), circuits.history) && (old(astray) ==> astray)
      ensures if slot.0 in clients && ChildAt(clients, slot).outcomes == ChildAt(old(clients), slot).outcomes then
                circuits.history == old(circuits.history)
              else ChildAt(old(clients), slot).job.Some? &&
                   Heard(old(circuits.history), circuits.history, ChildAt(old(clients), slot).job.value)
      ensures old(Expects(slot, event, answer, rest)) ==>
                var max := old(ExAt(clients, slot)).cfg.maxResponse;
                && Delivered(old(clients), old(log), clients, log, slot, answer, max)
                && (max + 1 < SIZE_MAX ==> astray == old(astray))
      decreases 2 - ChildAt(clients, slot).attempts, 2
    {
      hide RegOk, LogOk, Real, F, Undriven, Live, Retired, Ready, HistoryGrows, Heard, Expects, Delivered;
      hide U.Reports, Retries, Driven, EndedWith, Recorded;
      GrowsSame(circuits.history);
      ReadyIsIn(clients, owner, F(), skip, slot);
      var want := Advance(slot, event, skip, Expects(slot, event, answer, rest), answer, rest);
      ghost var t := w.now;
      var ch := ChildAt(clients, slot);
      LiveFacts(ch);
      LogKept(old(clients), log, nextId, slot, ch);
      if want != U.Finished {
        Arm(slot, skip);
        WithChildTwice(old(clients), slot, ch, ChildAt(clients, slot));
        WaitingIsDriven(old(clients), clients, slot, old(w.now), skip);
      } else {
        UndrivenOf(old(clients), old(owner), old(F()), skip, slot, ch);
        FinishChild(slot, skip);
        DrivenAfter(old(clients), ch, clients, slot, old(w.now), t, skip);
        if slot.0 !in clients {
          EndedBefore(log, old(clients), slot, ch);
        }
        if old(Expects(slot, event, answer, rest)) {
          NotRetried(ch, answer);
          IsDelivered(old(clients), old(log), ch, clients, log, slot, answer, ch.ex.value.cfg.maxResponse);
        }
      }
    }

    /** The child is registered under the socket its exchange holds now. */
    method Arm(slot: Slot, ghost skip: set<Slot>)
      requires HasEx(clients, slot) && slot !in skip && Live(ChildAt(clients, slot)) && Real()
      requires ExAt(clients, slot).sock.Some? && LogOk(clients, log, nextId)
      requires RegOk(clients, owner, F(), skip + {slot}, Held(ExAt(clients, slot).sock))
      modifies this`clients, this`owner, this`epoll
      ensures SlotIn(old(clients), slot)
      ensures var ch := ChildAt(old(clients), slot);
              clients == WithChild(old(clients), slot, ch.(fd := ch.ex.value.sock)) && Live(ch.(fd := ch.ex.value.sock))
      ensures RegOk(clients, owner, F(), skip, {}) && LogOk(clients, log, nextId) && Real()
    {
      hide RegOk, LogOk, RealOk, Real, Fewer, U.OpenFds, U.IdleFds, ConfigOf;
      var ch := ChildAt(clients, slot);
      var fd := ch.ex.value.sock.value;
      var armed := ch.(fd := Some(fd));
      ArmKeeps(clients, owner, F(), skip, slot, fd, armed);
      LogKept(clients, log, nextId, slot, armed);
      RealIs();
      RealSame(clients, slot, armed, w.streams, pool.idle);
      epoll := epoll + {fd};
      owner := owner[fd := slot];
      SetClients(WithChild(clients, slot, armed));
    }

    /** The answer of a single exchange; its state goes with it. */
    method AnswerSingle(slot: Slot, status: int)
      requires SlotIn(clients, slot) && !clients[slot.0].composite && |clients[slot.0].children| == 1
      requires SentOk(ChildAt(clients, slot)) && Settled(ChildAt(clients, slot)) && ChildAt(clients, slot).ex.None?
      requires Reports(ChildAt(clients, slot), status) && TriedAll(ChildAt(clients, slot))
      requires RegOk(clients, owner, F(), {slot}, {}) && LogOk(clients, log, nextId) && Real()
      modifies this`clients, this`log
      ensures clients == old(clients) - {slot.0}
      ensures RegOk(clients, owner, F(), {}, {}) && LogOk(clients, log, nextId) && Real()
      ensures log == old(log) + [Answered(old(clients)[slot.0].id, false, status, old(clients)[slot.0].children)]
    {
      hide LogOk, RealOk, Real, Fewer, SentOk, Settled, Reports, TriedAll;
      var c := slot.0;
      var a := Answered(clients[c].id, false, status, clients[c].children);
      LogEnds(clients, log, nextId, c, a);
      OwnedByOthers(clients, owner, F(), c, {slot});
      EraseKeeps(clients, owner, F(), {slot}, c);
      RealIs();
      RealErase(clients, w.streams, pool.idle, c);
      log := log + [a];
      SetClients(clients - {c});
    }

    /** One dependency of a composite is resolved; the last one completes it. */
    method Resolve(slot: Slot, ghost skip: set<Slot>, done: Child)
      requires SlotIn(clients, slot) && slot !in skip && clients[slot.0].composite && Retired(done)
      requires ChildAt(clients, slot).ex.None? && Undriven(clients, skip, slot.0)
      requires SameCall(done, ChildAt(clients, slot))
      requires done.outcomes >= ChildAt(clients, slot).outcomes && |done.puts| >= |ChildAt(clients, slot).puts|
      requires !ChildAt(clients, slot).finished
      requires RegOk(clients, owner, F(), skip + {slot}, {}) && LogOk(clients, log, nextId) && Real()
      modifies this`clients, this`log
      ensures Driven(old(clients), clients, slot, w.now, skip) && ResolvedAs(clients, log, slot, done)
      ensures slot.0 in clients ==> ChildAt(clients, slot) == done
      ensures RegOk(clients, owner, F(), skip, {}) && LogOk(clients, log, nextId) && Real()
      ensures slot.0 !in clients ==> EndedWith(log, old(clients)[slot.0].id, old(clients)[slot.0].children)
    {
      hide RegOk, LogOk, RealOk, Real, Fewer, Undriven, SentOk;
      var c := slot.0;
      ReplaceKeeps(clients, owner, F(), skip, slot, done);
      LogKept(clients, log, nextId, slot, done);
      RealIs();
      RealSame(clients, slot, done, w.streams, pool.idle);
      UndrivenKept(clients, skip, slot, done);
      SetClients(WithChild(clients, slot, done));
      if forall i :: 0 <= i < |clients[c].children| ==> clients[c].children[i].finished {
        NoneUndriven(clients, skip, c);
        FinalizeComposite(c);
      }
    }

    /** `finalize_composite`: the aggregate fails when a required child did. */
    method FinalizeComposite(c: Client)
      requires c in clients && clients[c].composite
      requires forall i :: 0 <= i < |clients[c].children| ==> clients[c].children[i].finished
      requires RegOk(clients, owner, F(), {}, {}) && LogOk(clients, log, nextId) && Real()
      modifies this`clients, this`log
      ensures clients == old(clients) - {c}
      ensures RegOk(clients, owner, F(), {}, {}) && LogOk(clients, log, nextId) && Real()
      ensures |log| == |old(log)| + 1 && log[..|old(log)|] == old(log) && log[|old(log)|].Answered?
      ensures log[|old(log)|].children == old(clients)[c].children && log[|old(log)|].id == old(clients)[c].id
    {
      hide LogOk, RealOk, Real, Fewer, SentOk, Bad;
      var children := clients[c].children;
      AllRetired(clients, owner, F(), c);
      forall i | 0 <= i < |children|
        ensures Bad(children[i]) <==> children[i].required && (children[i].item.Failed? || children[i].item.Unavailable?)
      {
        BadIff(children[i]);
      }
      var requiredFailed := false;
      for i := 0 to |children|
        invariant requiredFailed <==> exists k :: 0 <= k < i && Bad(children[k])
      {
        if children[i].required && (children[i].item.Failed? || children[i].item.Unavailable?) {
          assert Bad(children[i]);
          requiredFailed := true;
        }
      }
      var a := Answered(clients[c].id, true, if requiredFailed then 503 else 200, children);
      LogEnds(clients, log, nextId, c, a);
      EraseKeeps(clients, owner, F(), {}, c);
      RealIs();
      RealErase(clients, w.streams, pool.idle, c);
      log := log + [a];
      SetClients(clients - {c});
    }

    /** Every finished backend call, whatever became of it, is told to the breaker. */
    method RecordOutcome(job: Job, r: U.Result)
      requires Real()
      modifies circuits, w`tick, w`now
      ensures Real() && w.now >= old(w.now)
      ensures Recorded(old(circuits.history), circuits.history, job, r)
      ensures HistoryGrows(old(circuits.history), circuits.history)
    {
      hide RealOk, Mirrors, Recorded, HistoryGrows, CB.Replay;
      if r.Response? {
        circuits.RecordSuccess(job.circuit);
        RecordedIs(old(circuits.history), job, CB.Success, r);
      } else {
        var now := w.Now();
        circuits.RecordFailure(job.circuit, now, job.threshold);
        RecordedIs(old(circuits.history), job, CB.Failure(now, job.threshold), r);
      }
    }

    /** A new exchange for the same call. */
    method TryAgain(slot: Slot, ghost skip: set<Slot>)
      requires SlotIn(clients, slot) && slot !in skip && MayRetry(ChildAt(clients, slot)) && Undriven(clients, skip, slot.0)
      requires RegOk(clients, owner, F(), skip + {slot}, {}) && LogOk(clients, log, nextId) && Real()
      requires !clients[slot.0].composite ==> |clients[slot.0].children| == 1 && skip == {}
      modifies this`clients, this`repr, w`tick, w`now
      ensures SlotIn(old(clients), slot) && SlotIn(clients, slot)
      ensures var ch, was := ChildAt(clients, slot), ChildAt(old(clients), slot);
              && clients == WithChild(old(clients), slot, ch) && ch.attempts == was.attempts + 1
              && SameCall(ch, was) && ch.outcomes == was.outcomes + 1 && |ch.puts| > |was.puts|
      ensures Ready(clients, owner, F(), skip, slot) && LogOk(clients, log, nextId) && Real()
      ensures w.now >= old(w.now) && old(repr) <= repr && fresh(repr - old(repr))
    {
      hide RegOk, LogOk, RealOk, Undriven, ExHolds, Mirror, U.Inv, FdsOf, WireOf, U.PoolOk;
      var ch := ChildAt(clients, slot);
      var x := MakeExchange(w, ch.job.value);
      var again := ch.(ex := Some(x), attempts := ch.attempts + 1, outcomes := ch.outcomes + 1, puts := ch.puts + [x.s.puts]);
      AgainIsLive(ch, x);
      ReplaceKeeps(clients, owner, F(), skip, slot, again);
      LogKept(clients, log, nextId, slot, again);
      UndrivenKept(clients, skip, slot, again);
      RealNew(clients, slot, again, w.streams, pool.idle);
      clients := WithChild(clients, slot, again);
      repr := repr + {x.obj};
      MirrorsPut(old(clients), slot);
    }

    /** The client gets its answer; the call is on record as ended. */
    method AnswerEnded(slot: Slot, ghost ch: Child, r: U.Result)
      requires SlotIn(clients, slot) && !clients[slot.0].composite && |clients[slot.0].children| == 1
      requires Live(ch) && ch.fd.None? && ChildAt(clients, slot) == Undone(ch) && r == ch.ex.value.s.result && StatusOk(r) && !Retries(ch, r)
      requires RegOk(clients, owner, F(), {slot}, {}) && LogOk(clients, log, nextId) && Real()
      modifies this`clients, this`log
      ensures clients == old(clients) - {slot.0}
      ensures RegOk(clients, owner, F(), {}, {}) && LogOk(clients, log, nextId) && Real()
      ensures ch.ex.Some? && log == old(log) + [Answered(old(clients)[slot.0].id, false, r.status, [Ended(ch)])]
    {
      hide RegOk, LogOk, RealOk, Real, Fewer, FdsOf;
      var was := ChildAt(clients, slot);
      var ended := was.(outcomes := was.outcomes + 1, result := Some(r));
      assert {} + {slot} == {slot};
      ReplaceKeeps(clients, owner, F(), {}, slot, ended);
      LogKept(clients, log, nextId, slot, ended);
      RealIs();
      RealSame(clients, slot, ended, w.streams, pool.idle);
      EndedIsSent(ch);
      SetClients(WithChild(clients, slot, ended));
      assert clients[slot.0].children == [ended] && ended == Ended(ch);
      AnswerSingle(slot, r.status);
      assert clients == old(clients) - {slot.0};
    }

    /** `finish_child`: a finished drive resolves the child, answers the client, or
        tries again. */
    method FinishChild(slot: Slot, ghost skip: set<Slot>)
      requires HasEx(clients, slot) && slot !in skip && Live(ChildAt(clients, slot)) && ChildAt(clients, slot).fd.None?
      requires ExAt(clients, slot).s.phase == U.Done && Undriven(clients, skip, slot.0)
      requires RegOk(clients, owner, F(), skip + {slot}, Held(ExAt(clients, slot).sock)) && LogOk(clients, log, nextId) && Real()
      requires !clients[slot.0].composite ==> |clients[slot.0].children| == 1 && skip == {}
      modifies this, w, pool, circuits, repr
      ensures Driven(old(clients), clients, slot, old(w.now), skip)
      ensures RegOk(clients, owner, F(), skip, {}) && LogOk(clients, log, nextId) && Real()
      ensures w.now >= old(w.now) && nextId == old(nextId) && old(repr) <= repr && fresh(repr - old(repr))
      ensures slot.0 !in clients ==> EndedWith(log, old(clients)[slot.0].id, old(clients)[slot.0].children)
      ensures HistoryGrows(old(circuits.history), circuits.history) && (old(astray) ==> astray)
      ensures slot.0 in clients ==> ChildAt(clients, slot).outcomes > ChildAt(old(clients), slot).outcomes
      ensures ChildAt(old(clients), slot).job.Some? && Heard(old(circuits.history), circuits.history, ChildAt(old(clients), slot).job.value)
      ensures var p, ch := old(clients)[slot.0], ChildAt(old(clients), slot);
              var r := ch.ex.value.s.result;
              && (p.composite || !Retries(ch, r) ==> astray == old(astray))
              && (r.Response? || r.error.InvalidResponse? ==> !Retries(ch, r))
              && (p.composite ==> ResolvedAs(clients, log, slot, Concluded(ch)))
              && (!p.composite && !Retries(ch, r) ==>
                    log == old(log) + [Answered(p.id, false, r.status, [Ended(ch)])] && clients == old(clients) - {slot.0})
              && (p.composite || !Retries(ch, r) ==> Recorded(old(circuits.history), circuits.history, ch.job.value, r))
      decreases 2 - ChildAt(clients, slot).attempts, 1
    {
      hide RegOk, LogOk, Real, F, Undriven, SentOk, Ready, Live, Retired, Recorded;
      var ch := ChildAt(clients, slot);
      LiveFacts(ch);
      var r := ch.ex.value.s.result;
      RecordOutcome(ch.job.value, r);
      ghost var mid := circuits.history;
      if clients[slot.0].composite {
        FinishComposite(slot, skip);
      } else if Retries(ch, r) {
        FinishRetry(slot, skip);
      } else {
        FinishAnswer(slot, skip);
      }
      HeardAfter(old(circuits.history), mid, circuits.history, ch.job.value, r);
    }

    /** A dependency is resolved by what its exchange came to. */
    method FinishComposite(slot: Slot, ghost skip: set<Slot>)
      requires HasEx(clients, slot) && slot !in skip && Live(ChildAt(clients, slot)) && ChildAt(clients, slot).fd.None?
      requires Undriven(clients, skip, slot.0) && clients[slot.0].composite && ExAt(clients, slot).s.phase == U.Done
      requires RegOk(clients, owner, F(), skip + {slot}, Held(ExAt(clients, slot).sock)) && LogOk(clients, log, nextId) && Real()
      modifies this`clients, this`log, w, pool, repr
      ensures Driven(old(clients), clients, slot, old(w.now), skip)
      ensures RegOk(clients, owner, F(), skip, {}) && LogOk(clients, log, nextId) && Real() && w.now >= old(w.now)
      ensures slot.0 !in clients ==> EndedWith(log, old(clients)[slot.0].id, old(clients)[slot.0].children)
      ensures slot.0 in clients ==> ChildAt(clients, slot).outcomes > ChildAt(old(clients), slot).outcomes
      ensures ResolvedAs(clients, log, slot, Concluded(ChildAt(old(clients), slot)))
      ensures LeavesBehind(old(ExAt(clients, slot)), false, old(pool.idle), old(U.OpenFds(w.streams)), old(U.IdleFds(w.streams)),
                           U.OpenFds(w.streams), U.IdleFds(w.streams))
    {
      hide RegOk, LogOk, Real, F, Undriven, SentOk, Retired, Live, LeavesBehind, U.OpenFds, U.IdleFds;
      LiveFacts(ChildAt(clients, slot));
      var ch := ChildAt(clients, slot);
      var r := ch.ex.value.s.result;
      UndrivenKept(clients, skip, slot, Undone(ch));
      DoneIsOk(slot);
      Destroy(slot, false, skip);
      var item := if r.Response? && 200 <= r.status < 300 then Ok else Failed;
      EndedIsRetired(ch);
      Resolve(slot, skip, Ended(ch).(item := item, finished := true, resolved := ch.resolved + 1));
      DrivenAfter(old(clients), Undone(ch), clients, slot, old(w.now), w.now, skip);
    }

    /** Another exchange for the same call. */
    method FinishRetry(slot: Slot, ghost skip: set<Slot>)
      requires HasEx(clients, slot) && slot !in skip && Live(ChildAt(clients, slot)) && ChildAt(clients, slot).fd.None?
      requires Undriven(clients, skip, slot.0) && Retries(ChildAt(clients, slot), ExAt(clients, slot).s.result)
      requires RegOk(clients, owner, F(), skip + {slot}, Held(ExAt(clients, slot).sock)) && LogOk(clients, log, nextId) && Real()
      requires !clients[slot.0].composite && |clients[slot.0].children| == 1 && skip == {}
      modifies this, w, pool, circuits, repr
      ensures Driven(old(clients), clients, slot, old(w.now), skip)
      ensures RegOk(clients, owner, F(), skip, {}) && LogOk(clients, log, nextId) && Real()
      ensures w.now >= old(w.now) && nextId == old(nextId) && old(repr) <= repr && fresh(repr - old(repr))
      ensures slot.0 !in clients ==> EndedWith(log, old(clients)[slot.0].id, old(clients)[slot.0].children)
      ensures HistoryGrows(old(circuits.history), circuits.history) && (old(astray) ==> astray)
      ensures slot.0 in clients ==> ChildAt(clients, slot).outcomes > ChildAt(old(clients), slot).outcomes
      decreases 2 - ChildAt(clients, slot).attempts, 0
    {
      hide RegOk, LogOk, Real, F, Undriven, SentOk, Live, Retired, Ready;
      var ch := ChildAt(clients, slot);
      RetryMay(ch, ch.ex.value.s.result);
      UndrivenKept(clients, skip, slot, Undone(ch));
      Destroy(slot, false, skip);
      TryAgain(slot, skip);
      var again := ChildAt(clients, slot);
      WithChildTwice(old(clients), slot, Undone(ch), again);
      ghost var mid := w.now;
      DriveChild(slot, false, skip, "", "");
      DrivenAfter(old(clients), again, clients, slot, old(w.now), mid, skip);
    }

    /** The client is answered. */
    method FinishAnswer(slot: Slot, ghost skip: set<Slot>)
      requires HasEx(clients, slot) && slot !in skip && Live(ChildAt(clients, slot)) && ChildAt(clients, slot).fd.None?
      requires ExAt(clients, slot).s.phase == U.Done
      requires RegOk(clients, owner, F(), skip + {slot}, Held(ExAt(clients, slot).sock)) && LogOk(clients, log, nextId) && Real()
      requires !clients[slot.0].composite && |clients[slot.0].children| == 1 && skip == {}
      requires !Retries(ChildAt(clients, slot), ExAt(clients, slot).s.result)
      modifies this`clients, this`log, w, pool, repr
      ensures clients == old(clients) - {slot.0}
      ensures RegOk(clients, owner, F(), {}, {}) && LogOk(clients, log, nextId) && Real() && w.now >= old(w.now)
      ensures var ch := ChildAt(old(clients), slot);
              log == old(log) + [Answered(old(clients)[slot.0].id, false, ch.ex.value.s.result.status, [Ended(ch)])]
      ensures var x := old(ExAt(clients, slot));
              LeavesBehind(x, x.s.result.Response?, old(pool.idle), old(U.OpenFds(w.streams)), old(U.IdleFds(w.streams)),
                           U.OpenFds(w.streams), U.IdleFds(w.streams))
    {
      hide RegOk, LogOk, Real, F, SentOk, Live, LeavesBehind, Retries, U.OpenFds, U.IdleFds;
      var ch := ChildAt(clients, slot);
      var r := ch.ex.value.s.result;
      DoneIsOk(slot);
      Destroy(slot, r.Response?, skip);
      assert skip + {slot} == {slot};
      AnswerEnded(slot, ch, r);
      assert clients == old(clients) - {slot.0};
    }

    // ------------------------------------------------------------- beginnings

    /** The breaker is asked for leave; it answers by the history of the key. */
    method Ask(job: Job) returns (granted: bool)
      requires Real()
      modifies circuits, w`tick, w`now
      ensures Real() && w.now == old(w.Reading(1)) && w.tick == old(w.tick) + 1
      ensures var h := old(circuits.HistoryOf(job.circuit));
              && circuits.history == old(circuits.history)[job.circuit := h + [CB.Allow(w.now, job.recovery)]]
              && (granted <==> CB.Allowed(CB.Replay(h), w.now, job.recovery))
              && (CB.FixedThreshold(h, job.threshold) ==>
                    (granted <==> !CB.Tripped(h, job.threshold) ||
                                  (CB.CooledDown(h, w.now, job.recovery) && !CB.ProbeOut(h, job.threshold))))
    {
      hide RealOk, Mirrors;
      var now := w.Now();
      granted := circuits.AllowRequest(job.circuit, now, job.recovery, job.threshold);
    }

    method AnswerInline(status: int)
      requires Valid() && (status == 502 || status == 503)
      modifies this`log, this`nextId
      ensures Valid() && nextId == old(nextId) + 1
      ensures log == old(log) + [Answered(old(nextId), false, status, [])]
    {
      hide ShapesOk, Unfinished;
      hide RegOk, LogOk, Real, F;
      var a := Answered(nextId, false, status, []);
      LogInline(clients, log, nextId, a);
      log := log + [a];
      nextId := nextId + 1;
    }

    /** A new exchange with finished children and such as wait for their first
        drive. */
    method AddClient(c: Client, st: InFlight, ghost skip: set<Slot>)
      requires RegOk(clients, owner, F(), {}, {}) && LogOk(clients, log, nextId) && Real()
      requires c !in clients && st.id == nextId
      requires forall i :: 0 <= i < |st.children| ==> Retired(st.children[i]) || (c, i) in skip
      requires forall t :: t in skip ==> t.0 == c
      requires NewExchanges(st.children, w.streams)
      requires forall i :: 0 <= i < |st.children| && st.children[i].ex.Some? ==>
                 Mirror(st.children[i].ex.value) && st.children[i].ex.value.obj !in repr
      modifies this`clients, this`nextId, this`repr
      ensures clients == old(clients)[c := st] && nextId == old(nextId) + 1
      ensures repr == old(repr) + ObjectsOf(st.children)
      ensures RegOk(clients, owner, F(), skip, {}) && LogOk(clients, log, nextId) && Real()
    {
      hide RegOk, LogOk, RealOk, Retired, ExHolds, U.PoolOk, FdsOf;
      AddKeeps(clients, owner, F(), c, st, skip);
      LogStarts(clients, log, nextId, c, st);
      RealAdd(clients, w.streams, pool.idle, c, st);
      clients := clients[c := st];
      nextId := nextId + 1;
      repr := repr + ObjectsOf(st.children);
      forall s | HasEx(clients, s)
        ensures ExAt(clients, s).obj in repr && Mirror(ExAt(clients, s))
      {
        if s.0 != c {
          assert HasEx(old(clients), s) && ExAt(clients, s) == ExAt(old(clients), s);
        }
      }
    }

    /** `start_upstream_exchange`; without a usable backend the answer is immediate. */
    method StartSingle(c: Client, target: Target, maxRetries: int, ghost when: int, ghost answer: string, ghost rest: string)
      requires Valid() && c !in clients && TargetOk(target)
      modifies this, w, pool, circuits, repr
      ensures Valid() && OthersSame(old(clients), clients, c) && nextId == old(nextId) + 1
      ensures w.now >= old(w.now) && old(repr) <= repr && fresh(repr - old(repr))
      ensures target.Missing? ==> clients == old(clients) && log == old(log) + [Answered(old(nextId), false, 502, [])]
      ensures c in clients ==>
                && target.Call? && clients[c].id == old(nextId) && !clients[c].composite && |clients[c].children| == 1
                && clients[c].children[0].job == Some(target.job) && clients[c].children[0].maxRetries == maxRetries
      ensures c !in clients ==> log != [] && log[|log| - 1].Answered? && log[|log| - 1].id == old(nextId)
      ensures HistoryGrows(old(circuits.history), circuits.history) && (old(astray) ==> astray)
      ensures target.Call? ==> Asked(old(circuits.history), circuits.history, target.job)
      ensures target.Call? && !Granted(old(circuits.history), circuits.history, target.job) ==>
                clients == old(clients) && log == old(log) + [Answered(old(nextId), false, 503, [])]
      ensures target.Call? && Granted(old(circuits.history), circuits.history, target.job) ==>
                if c in clients && clients[c].children[0].outcomes == 0 then
                  HistoryFor(circuits.history, target.job) == HistoryFor(old(circuits.history), target.job) +
                                                             [AskOf(old(circuits.history), circuits.history, target.job)]
                else Heard(old(circuits.history), circuits.history, target.job)
      ensures c in clients ==> Granted(old(circuits.history), circuits.history, target.job)
      ensures target.Call? && Granted(old(circuits.history), circuits.history, target.job) && c !in clients ==>
                var children := log[|log| - 1].children;
                |children| == 1 && children[0].job == Some(target.job) && children[0].maxRetries == maxRetries
      ensures target.Call? && Granted(old(circuits.history), circuits.history, target.job) && target.job.timeoutMs > 0 &&
              U.Prompt(w.delta, target.job.timeoutMs * NANOS) && when == old(w.Reading(4)) && old(Reaches(target.job, when, answer, rest)) ==>
                && clients == old(clients) && AnsweredWith(old(log), log, old(nextId), answer, target.job.maxResponse)
                && (target.job.maxResponse + 1 < SIZE_MAX ==> astray == old(astray))
    {
      hide ShapesOk, Unfinished;
      hide RegOk, LogOk, Real, F, AnsweredWith, Reaches, U.Prompt, HistoryGrows, Asked, Heard, CB.Allowed;
      hide U.Passed;
      hide CB.Replay, CB.FixedThreshold, CB.Tripped, CB.CooledDown, CB.ProbeOut;
      U.PassedIs(w.delta, w.tick);
      GrowsSame(circuits.history);
      if target.Missing? {
        AnswerInline(502);
        return;
      }
      var job := target.job;
      var granted := Ask(job);
      AskGrows(old(circuits.history), job, CB.Allow(w.now, job.recovery));
      if !granted {
        AskedNow(old(circuits.history), circuits.history, job, CB.Allow(w.now, job.recovery));
        AnswerInline(503);
        return;
      }
      ghost var mid, ask := circuits.history, CB.Allow(w.now, job.recovery);
      Launch(c, job, maxRetries, when, answer, rest);
      GrowsFurther(old(circuits.history), mid, circuits.history);
      AskedAfter(old(circuits.history), mid, circuits.history, job, ask);
      HeardEarlier(old(circuits.history), mid, circuits.history, job);
    }

    /** A granted call is entered and driven for the first time. */
    method Launch(c: Client, job: Job, maxRetries: int, ghost when: int, ghost answer: string, ghost rest: string)
      requires Valid() && c !in clients && JobOk(job)
      modifies this, w, pool, circuits, repr
      ensures Valid() && OthersSame(old(clients), clients, c) && nextId == old(nextId) + 1
      ensures w.now >= old(w.now) && old(repr) <= repr && fresh(repr - old(repr))
      ensures c in clients ==>
                && clients[c].id == old(nextId) && !clients[c].composite && |clients[c].children| == 1
                && clients[c].children[0].job == Some(job) && clients[c].children[0].maxRetries == maxRetries
      ensures c !in clients ==>
                && log != [] && log[|log| - 1].Answered? && log[|log| - 1].id == old(nextId)
                && |log[|log| - 1].children| == 1
                && log[|log| - 1].children[0].job == Some(job) && log[|log| - 1].children[0].maxRetries == maxRetries
      ensures HistoryGrows(old(circuits.history), circuits.history) && (old(astray) ==> astray)
      ensures if c in clients && clients[c].children[0].outcomes == 0 then circuits.history == old(circuits.history)
              else Heard(old(circuits.history), circuits.history, job)
      ensures job.timeoutMs > 0 && U.Prompt(w.delta, job.timeoutMs * NANOS) && when == old(w.Reading(3)) && old(Reaches(job, when, answer, rest)) ==>
                && clients == old(clients) && AnsweredWith(old(log), log, old(nextId), answer, job.maxResponse)
                && (job.maxResponse + 1 < SIZE_MAX ==> astray == old(astray))
    {
      hide U.Passed, ShapesOk, Unfinished;
      hide RegOk, LogOk, Real, F, Live, Retired, Ready, HistoryGrows, Heard, Reaches, Expects, Delivered, AnsweredWith, U.Prompt, ConfigOf;
      U.PassedIs(w.delta, w.tick);
      Begin(c, job, maxRetries);
      ghost var before, t := clients, w.now;
      if job.timeoutMs > 0 && U.Prompt(w.delta, job.timeoutMs * NANOS) && when == old(w.Reading(3)) && Reaches(job, when, answer, rest) {
        PromptNow(w.delta, job.timeoutMs * NANOS, w.tick);
        NewExpects((c, 0), job, answer, rest);
      }
      DriveChild((c, 0), false, {}, answer, rest);
      ShapesKept(before, clients, (c, 0), t, {});
      assert before - {c} == old(clients);
      if job.timeoutMs > 0 && U.Prompt(w.delta, job.timeoutMs * NANOS) && when == old(w.Reading(3)) && old(Reaches(job, when, answer, rest)) {
        SingleAnswered(before, old(log), clients, log, c, answer, job.maxResponse);
      }
    }

    /** The exchange of a single call is made and entered. */
    method Begin(c: Client, job: Job, maxRetries: int)
      requires Valid() && c !in clients && JobOk(job)
      modifies this`clients, this`nextId, this`repr, w`tick, w`now
      ensures c in clients && clients == old(clients)[c := clients[c]] && nextId == old(nextId) + 1
      ensures clients[c].id == old(nextId) && !clients[c].composite && |clients[c].children| == 1
      ensures clients[c].children[0].job == Some(job) && clients[c].children[0].maxRetries == maxRetries
      ensures clients[c].children[0].outcomes == 0 && ShapesOk(clients)
      ensures clients[c].children[0].fd.None?
      ensures Ready(clients, owner, F(), {}, (c, 0)) && LogOk(clients, log, nextId) && Real()
      ensures w.now == old(w.Reading(1)) && w.tick == old(w.tick) + 1 && old(repr) <= repr && fresh(repr - old(repr))
      ensures HasEx(clients, (c, 0)) && ExAt(clients, (c, 0)).cfg.maxResponse == job.maxResponse
      ensures ExAt(clients, (c, 0)).cfg == ConfigOf(job) && Timely(ChildAt(clients, (c, 0)), w.now)
    {
      hide RegOk, LogOk, Real, F, ConfigOf, ExHolds, Mirror;
      var x := MakeExchange(w, job);
      var ch := FirstTry(x, job, true, maxRetries);
      FirstIsLive(x, job, true, maxRetries);
      var st := InFlight(nextId, false, [ch], None);
      AddClient(c, st, {(c, 0)});
      assert {} + {(c, 0)} == {(c, 0)};
    }

    /** `start_composite_exchange`: dependencies without a usable backend are
        resolved at once, the others are driven one after the other. */
    method StartComposite(c: Client, dependencies: seq<Dependency>, totalMs: int,
                          ghost k: nat, ghost slow: nat, ghost answer: string, ghost rest: string)
      requires Valid() && c !in clients
      requires forall i :: 0 <= i < |dependencies| ==> TargetOk(dependencies[i].target)
      modifies this, w, pool, circuits, repr
      ensures Valid() && OthersSame(old(clients), clients, c) && nextId == old(nextId) + 1
      ensures w.now >= old(w.now) && old(repr) <= repr && fresh(repr - old(repr))
      ensures var children := ChildrenOf(clients, log, c);
              && (if c in clients then
                    && clients[c].id == old(nextId) && clients[c].composite
                    && clients[c].total == (if totalMs > 0 then Some(old(w.now + w.delta(w.tick)) + totalMs * NANOS) else None)
                  else log != [] && log[|log| - 1].Answered? && log[|log| - 1].id == old(nextId))
              && |children| == |dependencies|
              && forall i :: 0 <= i < |children| ==> ForDependency(children[i], dependencies[i], totalMs)
      ensures HistoryGrows(old(circuits.history), circuits.history) && (old(astray) ==> astray)
      ensures k < |dependencies| && dependencies[k].target.Call? && FirstCalled(ChildrenOf(clients, log, c), k) &&
              InTime(w.delta, slow, |dependencies|, dependencies[k].target.job, totalMs) &&
              old(ReachesNew(dependencies[k].target.job, answer, rest)) ==>
                ConcludedWith(ChildrenOf(clients, log, c), k, answer, dependencies[k].target.job.maxResponse)
    {
      hide ShapesOk, Unfinished;
      hide RegOk, LogOk, Real, F, Undriven, ForDependency, HistoryGrows, ReachesNew, Expects, CameTo, InTime, NeverCalled, Waits;
      EnterComposite(c, dependencies, totalMs, k, slow, answer, rest);
      ghost var mid, children := circuits.history, clients[c].children;
      DriveAll(c, k, answer, rest);
      ForKept(children, ChildrenOf(clients, log, c), dependencies, totalMs);
      if k < |dependencies| && FirstCalled(ChildrenOf(clients, log, c), k) {
        CalledFirst(children, ChildrenOf(clients, log, c), dependencies, totalMs, k);
      }
      GrowsFurther(old(circuits.history), mid, circuits.history);
    }

    /** The children are made and entered. */
    method EnterComposite(c: Client, dependencies: seq<Dependency>, totalMs: int,
                          ghost k: nat, ghost slow: nat, ghost answer: string, ghost rest: string)
      requires Valid() && c !in clients
      requires forall i :: 0 <= i < |dependencies| ==> TargetOk(dependencies[i].target)
      modifies this`clients, this`nextId, this`repr, circuits, w`tick, w`now
      ensures c in clients && clients == old(clients)[c := clients[c]] && nextId == old(nextId) + 1 && ShapesOk(clients - {c})
      ensures w.now >= old(w.now) && old(repr) <= repr && fresh(repr - old(repr))
      ensures clients[c].id == old(nextId) && clients[c].composite && |clients[c].children| == |dependencies|
      ensures clients[c].total == (if totalMs > 0 then Some(old(w.now + w.delta(w.tick)) + totalMs * NANOS) else None)
      ensures var children := clients[c].children;
              forall i :: 0 <= i < |children| ==> ForDependency(children[i], dependencies[i], totalMs) && (NeverCalled(children[i]) || Waits(children[i]))
      ensures RegOk(clients, owner, F(), ToDrive(c, clients[c].children, 0), {}) && LogOk(clients, log, nextId) && Real()
      ensures Undriven(clients, ToDrive(c, clients[c].children, 0), c)
      ensures HistoryGrows(old(circuits.history), circuits.history)
      ensures k < |dependencies| && dependencies[k].target.Call? && HasEx(clients, (c, k)) &&
              InTime(w.delta, slow, |dependencies|, dependencies[k].target.job, totalMs) &&
              old(ReachesNew(dependencies[k].target.job, answer, rest)) ==>
                && Expects((c, k), false, answer, rest)
                && ExAt(clients, (c, k)).cfg.maxResponse == dependencies[k].target.job.maxResponse
    {
      hide RegOk, LogOk, Real, F, Live, Retired, Undriven, ForDependency, NewExchanges, HistoryGrows;
      hide ReachesNew, Expects, InTime, NeverCalled, Waits, Mirror, Timely, Steady;
      var started := w.Now();
      ghost var from := w.now;
      var children := BuildChildren(dependencies, totalMs, slow);
      var st := InFlight(nextId, true, children, if totalMs > 0 then Some(started + totalMs * NANOS) else None);
      WaitsIsToDrive(c, children);
      AddClient(c, st, ToDrive(c, children, 0));
      UndrivenNew(clients, c, children);
      if && k < |dependencies| && dependencies[k].target.Call? && HasEx(clients, (c, k))
         && InTime(w.delta, slow, |dependencies|, dependencies[k].target.job, totalMs)
         && ReachesNew(dependencies[k].target.job, answer, rest) {
        WaitingIsLive(children[k]);
        InTimeSteady(w.delta, slow, |dependencies|, dependencies[k].target.job, totalMs);
        DueExpects(c, k, dependencies[k], totalMs, |dependencies|, slow, from, answer, rest);
      }
    }

    /** The budget changes nothing about what a call reaches. */
    lemma {:induction false} BudgetReaches(job: Job, totalMs: int, when: int, answer: string, rest: string)
      requires ReachesNew(job, answer, rest)
      ensures Reaches(WithBudget(job, totalMs), when, answer, rest)
    {
      hide FR.IsAnswer, U.StatusOf, U.AfterSend, U.Brings, U.OpenFds, P.Key, WireOf;
      WireOfBudget(job, totalMs);
    }

    lemma {:induction false} DueExpects(c: Client, k: nat, d: Dependency, totalMs: int, n: nat, slow: nat, from: int, answer: string, rest: string)
      requires HasEx(clients, (c, k)) && Live(ChildAt(clients, (c, k)))
      requires d.target.Call? && JobOk(d.target.job) && ForDependency(ChildAt(clients, (c, k)), d, totalMs)
      requires Timely(ChildAt(clients, (c, k)), from) && InTime(w.delta, slow, n, d.target.job, totalMs)
      requires ReachesNew(d.target.job, answer, rest) && w.now <= from + slow * (2 * n)
      ensures Expects((c, k), false, answer, rest) && ExAt(clients, (c, k)).cfg.maxResponse == d.target.job.maxResponse
    {
      hide Reaches, ReachesNew, Expects, SentOk, WireOf, P.Key;
      BudgetReaches(d.target.job, totalMs, w.now + w.delta(w.tick) + w.delta(w.tick + 1), answer, rest);
      assert slow * n >= 0;
      NewExpects((c, k), WithBudget(d.target.job, totalMs), answer, rest);
    }

    /** One child per dependency, with an exchange where the breaker lets it. */
    method BuildChildren(dependencies: seq<Dependency>, totalMs: int, ghost slow: nat) returns (children: seq<Child>)
      requires Real()
      requires forall i :: 0 <= i < |dependencies| ==> TargetOk(dependencies[i].target)
      modifies circuits, w`tick, w`now
      ensures Real() && w.now >= old(w.now) && |children| == |dependencies|
      ensures forall i :: 0 <= i < |children| ==> ForDependency(children[i], dependencies[i], totalMs)
      ensures forall i :: 0 <= i < |children| ==> NeverCalled(children[i]) || Waits(children[i])
      ensures forall i :: 0 <= i < |children| && children[i].ex.Some? ==> Timely(children[i], old(w.now))
      ensures Steady(w.delta, slow) ==> w.now <= old(w.now) + slow * (2 * |dependencies|)
      ensures NewExchanges(children, w.streams)
      ensures forall i :: 0 <= i < |children| && children[i].ex.Some? ==>
                Mirror(children[i].ex.value) && fresh(children[i].ex.value.obj)
      ensures HistoryGrows(old(circuits.history), circuits.history)
    {
      hide Real, NeverCalled, Waits, ForDependency, ExHolds, HistoryGrows, Mirror, Asked, Granted, Steady, Timely;
      children := [];
      GrowsSame(circuits.history);
      for i := 0 to |dependencies|
        invariant HistoryGrows(old(circuits.history), circuits.history)
        invariant Real() && w.now >= old(w.now) && |children| == i && NewExchanges(children, w.streams)
        invariant forall j :: 0 <= j < i ==> ForDependency(children[j], dependencies[j], totalMs)
        invariant forall j :: 0 <= j < i ==> NeverCalled(children[j]) || Waits(children[j])
        invariant forall j :: 0 <= j < i && children[j].ex.Some? ==> Timely(children[j], old(w.now))
        invariant Steady(w.delta, slow) ==> w.now <= old(w.now) + slow * (2 * i)
        invariant forall j :: 0 <= j < i && children[j].ex.Some? ==>
                    Mirror(children[j].ex.value) && fresh(children[j].ex.value.obj)
      {
        ghost var mid, t := circuits.history, w.now;
        var ch := BuildChild(dependencies[i], totalMs, slow);
        if ch.ex.Some? {
          TimelyEarlier(ch, old(w.now), t);
        }
        assert slow * (2 * (i + 1)) == slow * (2 * i) + 2 * slow;
        GrowsFurther(old(circuits.history), mid, circuits.history);
        assert forall j :: 0 <= j < i && children[j].ex.Some? && ch.ex.Some? ==> children[j].ex.value.obj != ch.ex.value.obj;
        children := children + [ch];
      }
    }

    method BuildChild(d: Dependency, totalMs: int, ghost slow: nat) returns (ch: Child)
      requires Real() && TargetOk(d.target)
      modifies circuits, w`tick, w`now
      ensures Real() && w.now >= old(w.now) && ForDependency(ch, d, totalMs) && (NeverCalled(ch) || Waits(ch))
      ensures (ch.ex.Some? ==> Timely(ch, old(w.now))) && (Steady(w.delta, slow) ==> w.now <= old(w.now) + 2 * slow)
      ensures ch.ex.Some? ==> Mirror(ch.ex.value) && fresh(ch.ex.value.obj) && ExHolds(ch.ex.value, w.streams)
      ensures HistoryGrows(old(circuits.history), circuits.history)
      ensures d.target.Call? ==>
                && Asked(old(circuits.history), circuits.history, d.target.job)
                && (ch.puts != [] <==> Granted(old(circuits.history), circuits.history, d.target.job))
    {
      hide Real, ExHolds, WireOf, CB.Allowed, CB.Replay, CB.FixedThreshold, CB.Tripped;
      if d.target.Missing? {
        return Resolved(None, d.required, Unavailable);
      }
      var job := WithBudget(d.target.job, totalMs);
      var granted := Ask(job);
      AskedNow(old(circuits.history), circuits.history, d.target.job, CB.Allow(w.now, job.recovery));
      if !granted {
        return Resolved(Some(job), d.required, Failed);
      }
      var x := MakeExchange(w, job);
      FirstIsLive(x, job, d.required, 0);
      return FirstTry(x, job, d.required, 0);
    }

    /** Each undriven child is driven once, as long as the exchange lasts. */
    method DriveAll(c: Client, ghost k: nat, ghost answer: string, ghost rest: string)
      requires c in clients && clients[c].composite && ShapesOk(clients - {c})
      requires RegOk(clients, owner, F(), ToDrive(c, clients[c].children, 0), {}) && LogOk(clients, log, nextId) && Real()
      requires Undriven(clients, ToDrive(c, clients[c].children, 0), c)
      modifies this, w, pool, circuits, repr
      ensures Valid() && OthersSame(old(clients), clients, c) && nextId == old(nextId)
      ensures w.now >= old(w.now) && old(repr) <= repr && fresh(repr - old(repr))
      ensures if c in clients then
                clients[c] == old(clients)[c].(children := clients[c].children) &&
                ChildrenKept(old(clients)[c].children, clients[c].children)
              else EndedWith(log, old(clients)[c].id, old(clients)[c].children)
      ensures HistoryGrows(old(circuits.history), circuits.history) && (old(astray) ==> astray)
      ensures NextIs(old(clients)[c].children, k) && old(HasEx(clients, (c, k)) && Expects((c, k), false, answer, rest)) ==>
                ConcludedWith(ChildrenOf(clients, log, c), k, answer, old(ExAt(clients, (c, k))).cfg.maxResponse)
    {
      hide ShapesOk, Unfinished;
      hide RegOk, LogOk, Real, F, Undriven, InTurn, HistoryGrows, Expects, ConcludedWith, ChildrenKept;
      GrowsSame(circuits.history);
      var children := clients[c].children;
      ghost var due := NextIs(children, k) && HasEx(clients, (c, k)) && Expects((c, k), false, answer, rest);
      FirstTurn(clients, c);
      if forall i :: 0 <= i < |children| ==> children[i].finished {
        assert ToDrive(c, children, 0) == {};
        KeptSame(children);
        FinalizeComposite(c);
        return;
      }
      ShapesWith(clients, c);
      for i := 0 to |children|
        invariant c in clients && InTurn(clients, c, children, i) && ShapesOk(clients)
        invariant clients[c] == old(clients)[c].(children := clients[c].children)
        invariant RegOk(clients, owner, F(), ToDrive(c, children, i), {}) && LogOk(clients, log, nextId) && Real()
        invariant OthersSame(old(clients), clients, c) && nextId == old(nextId)
        invariant w.now >= old(w.now) && old(repr) <= repr && fresh(repr - old(repr))
        invariant HistoryGrows(old(circuits.history), circuits.history) && (old(astray) ==> astray)
        invariant due && i <= k ==> clients == old(clients) && Expects((c, k), false, answer, rest)
        invariant due && i > k ==> ConcludedWith(clients[c].children, k, answer, old(ExAt(clients, (c, k))).cfg.maxResponse)
      {
        if children[i].finished {
          PassBy(clients, c, children, i);
        } else {
          ghost var mid := circuits.history;
          ghost var was := clients;
          DriveNext(c, children, i, answer, rest);
          OthersFurther(old(clients), was, clients, c);
          if due && i > k {
            ConcludedStays(was[c].children, ChildrenOf(clients, log, c), k, answer, old(ExAt(clients, (c, k))).cfg.maxResponse);
          }
          GrowsFurther(old(circuits.history), mid, circuits.history);
          if c !in clients {
            return;
          }
        }
      }
      assert ToDrive(c, children, |children|) == {};
      TurnKept(clients, c, children, |children|);
    }

    /** The next of the `children` that were entered has its turn. */
    method DriveNext(c: Client, ghost children: seq<Child>, i: nat, ghost answer: string, ghost rest: string)
      requires InTurn(clients, c, children, i) && i < |children| && !children[i].finished && clients[c].composite && ShapesOk(clients)
      requires RegOk(clients, owner, F(), ToDrive(c, children, i), {}) && LogOk(clients, log, nextId) && Real()
      modifies this, w, pool, circuits, repr
      ensures OthersSame(old(clients), clients, c) && nextId == old(nextId) && ShapesOk(clients)
      ensures w.now >= old(w.now) && old(repr) <= repr && fresh(repr - old(repr))
      ensures RegOk(clients, owner, F(), if c in clients then ToDrive(c, children, i + 1) else {}, {})
      ensures LogOk(clients, log, nextId) && Real()
      ensures if c in clients then
                InTurn(clients, c, children, i + 1) && clients[c] == old(clients)[c].(children := clients[c].children)
              else EndedWith(log, old(clients)[c].id, children)
      ensures HistoryGrows(old(circuits.history), circuits.history) && (old(astray) ==> astray)
      ensures ChildrenKept(old(clients)[c].children, ChildrenOf(clients, log, c))
      ensures old(Expects((c, i), false, answer, rest)) ==>
                ConcludedWith(ChildrenOf(clients, log, c), i, answer, old(ExAt(clients, (c, i))).cfg.maxResponse)
    {
      hide ShapesOk, Unfinished;
      hide RegOk, LogOk, Real, F, Undriven, Live, Retired, Ready, HistoryGrows, Heard, Expects, CameTo;
      TailStep(clients[c].children, children, i);
      ToDriveNext(clients, c, children, i);
      ReadyNext(clients, owner, F(), c, children, i);
      DriveChild((c, i), false, ToDrive(c, children, i + 1), answer, rest);
      ShapesKept(old(clients), clients, (c, i), old(w.now), ToDrive(c, children, i + 1));
      if c in clients {
        UndrivenKept(old(clients), ToDrive(c, children, i + 1), (c, i), ChildAt(clients, (c, i)));
      } else {
        KeptFurther(children, old(clients)[c].children, log[|log| - 1].children);
      }
    }

    // ------------------------------------------------------------------ events

    /** `on_upstream_event`: the one child registered under `fd` is driven. */
    method OnUpstreamEvent(fd: Fd, ghost answer: string, ghost rest: string)
      requires Valid()
      modifies this, w, pool, circuits, repr
      ensures Valid() && nextId == old(nextId) && w.now >= old(w.now) && old(repr) <= repr && fresh(repr - old(repr))
      ensures fd !in old(owner) ==> unchanged(this) && unchanged(w) && unchanged(pool) && unchanged(circuits)
      ensures fd in old(owner) ==>
                SlotIn(old(clients), old(owner)[fd]) && Driven(old(clients), clients, old(owner)[fd], old(w.now), {})
      ensures HistoryGrows(old(circuits.history), circuits.history) && (old(astray) ==> astray)
      ensures fd in old(owner) && old(Expects(owner[fd], true, answer, rest)) ==>
                var slot := old(owner)[fd];
                Delivered(old(clients), old(log), clients, log, slot, answer, old(ExAt(clients, slot)).cfg.maxResponse)
    {
      hide ShapesOk, Unfinished;
      hide RegOk, LogOk, Real, F, Driven, HistoryGrows, Expects, Delivered;
      GrowsSame(circuits.history);
      if fd in owner {
        OwnerIsArmed(clients, owner, F(), fd);
        DriveArmed(owner[fd], true, answer, rest);
      }
    }

    /** Drive a registered child. */
    method DriveArmed(slot: Slot, event: bool, ghost answer: string, ghost rest: string)
      requires Valid() && SlotIn(clients, slot) && !ChildAt(clients, slot).finished
      modifies this, w, pool, circuits, repr
      ensures Valid() && Driven(old(clients), clients, slot, old(w.now), {})
      ensures w.now >= old(w.now) && nextId == old(nextId) && old(repr) <= repr && fresh(repr - old(repr))
      ensures HistoryGrows(old(circuits.history), circuits.history) && (old(astray) ==> astray)
      ensures old(Expects(slot, event, answer, rest)) ==>
                Delivered(old(clients), old(log), clients, log, slot, answer, old(ExAt(clients, slot)).cfg.maxResponse)
    {
      hide ShapesOk, Unfinished;
      hide RegOk, LogOk, Real, F, Ready, Live, Retired, HistoryGrows, Heard, Expects, Delivered;
      ArmedIsReady(clients, owner, F(), slot);
      DriveChild(slot, event, {}, answer, rest);
      ShapesKept(old(clients), clients, slot, old(w.now), {});
    }

    /** The descriptor of a child leaves the registry. */
    method Unregister(slot: Slot, ghost skip: set<Slot>)
      requires SlotIn(clients, slot) && slot !in skip && ChildAt(clients, slot).fd.Some?
      requires RegOk(clients, owner, F(), skip, {}) && LogOk(clients, log, nextId) && Real()
      modifies this`clients, this`owner, this`epoll
      ensures SlotIn(old(clients), slot) && HasEx(clients, slot)
      ensures clients == WithChild(old(clients), slot, ChildAt(old(clients), slot).(fd := None))
      ensures RegOk(clients, owner, F(), skip + {slot}, Held(ExAt(clients, slot).sock)) && LogOk(clients, log, nextId) && Real()
    {
      hide RegOk, LogOk, Real, Driving, FdsOk, Fewer, RealOk, U.OpenFds, U.IdleFds;
      var ch := ChildAt(clients, slot);
      var after := ch.(fd := None);
      SlotFacts(clients, owner, F(), skip, slot);
      StartDriving(owner.Keys, F(), ch.fd);
      UnregisterKeeps(clients, owner, F(), skip, slot, Sockets(F(), ch.fd), after);
      LogKept(clients, log, nextId, slot, after);
      RealIs();
      RealSame(clients, slot, after, w.streams, pool.idle);
      epoll := epoll - Held(ch.fd);
      owner := owner - Held(ch.fd);
      SetClients(WithChild(clients, slot, after));
    }

    /** Unregister a child and destroy its exchange, whatever it was doing. */
    method Discard(slot: Slot, ghost skip: set<Slot>)
      requires SlotIn(clients, slot) && slot !in skip
      requires RegOk(clients, owner, F(), skip, {}) && LogOk(clients, log, nextId) && Real()
      modifies this`clients, this`owner, this`epoll, w, pool, repr
      ensures SlotIn(old(clients), slot)
      ensures clients == WithChild(old(clients), slot, Cut(ChildAt(old(clients), slot)))
      ensures RegOk(clients, owner, F(), skip + {slot}, {}) && LogOk(clients, log, nextId) && Real() && w.now >= old(w.now)
    {
      hide RegOk, LogOk, Real, F;
      ghost var ch := ChildAt(clients, slot);
      if ChildAt(clients, slot).fd.Some? {
        Unregister(slot, skip);
        ghost var mid := ChildAt(clients, slot);
        Destroy(slot, false, skip);
        WithChildTwice(old(clients), slot, mid, Undone(mid));
      } else {
        SkipFinished(clients, owner, F(), skip, slot);
        WithSame(clients, slot);
      }
    }

    /** `abort_upstream_for_client`: the client is gone; nothing is answered, and the
        circuit breaker is told nothing. */
    method AbortClient(c: Client)
      requires Valid()
      modifies this`clients, this`owner, this`epoll, this`log, w, pool, repr
      ensures Valid() && clients == old(clients) - {c} && w.now >= old(w.now)
      ensures if c in old(clients) then log == old(log) + [Aborted(old(clients)[c].id, CutAll(old(clients)[c].children))]
              else log == old(log)
    {
      hide RegOk, LogOk, Real, F, CutOff;
      if c !in clients {
        assert clients - {c} == clients;
        return;
      }
      CutOffAll(clients, owner, F(), c);
      CutChildren(c);
      Forget(c);
    }

    /** Every child of the client is cut off. */
    method CutChildren(c: Client)
      requires c in clients && RegOk(clients, owner, F(), {}, {}) && LogOk(clients, log, nextId) && Real()
      modifies this`clients, this`owner, this`epoll, w, pool, repr
      ensures c in clients && clients - {c} == old(clients) - {c} && w.now >= old(w.now)
      ensures clients[c] == old(clients)[c].(children := CutAll(old(clients)[c].children))
      ensures RegOk(clients, owner, F(), SlotsBelow(c, |clients[c].children|), {}) && LogOk(clients, log, nextId) && Real()
    {
      hide RegOk, LogOk, Real, F, CutAll;
      ghost var was := clients[c].children;
      var n := |clients[c].children|;
      CutEnds(was);
      assert SlotsBelow(c, 0) == {};
      for i := 0 to n
        invariant c in clients && clients - {c} == old(clients) - {c} && clients[c] == old(clients)[c].(children := clients[c].children)
        invariant clients[c].children == CutAll(was[..i]) + was[i..] && |clients[c].children| == n
        invariant RegOk(clients, owner, F(), SlotsBelow(c, i), {}) && LogOk(clients, log, nextId) && Real() && w.now >= old(w.now)
      {
        CutNext(was, i);
        Discard((c, i), SlotsBelow(c, i));
        assert SlotsBelow(c, i) + {(c, i)} == SlotsBelow(c, i + 1);
      }
    }

    /** The state of an aborted client, whose children are all cut off, goes. */
    method Forget(c: Client)
      requires c in clients && (forall i :: 0 <= i < |clients[c].children| ==> CutOff(clients[c].children[i]))
      requires RegOk(clients, owner, F(), SlotsBelow(c, |clients[c].children|), {}) && LogOk(clients, log, nextId) && Real()
      modifies this`clients, this`log
      ensures clients == old(clients) - {c} && log == old(log) + [Aborted(old(clients)[c].id, old(clients)[c].children)]
      ensures RegOk(clients, owner, F(), {}, {}) && LogOk(clients, log, nextId) && Real()
    {
      hide RegOk, LogOk, RealOk, Real, Fewer, F, SentOk;
      var a := Aborted(clients[c].id, clients[c].children);
      var skip := SlotsBelow(c, |clients[c].children|);
      OwnedByOthers(clients, owner, F(), c, skip);
      EraseKeeps(clients, owner, F(), skip, c);
      LogEnds(clients, log, nextId, c, a);
      RealIs();
      RealErase(clients, w.streams, pool.idle, c);
      log := log + [a];
      SetClients(clients - {c});
    }

    /** The overall deadline fired: every child still in flight fails, untold to the
        circuit breaker, and the aggregate is answered. */
    method ForceFinish(c: Client)
      requires Valid() && c in clients && clients[c].composite
      modifies this`clients, this`owner, this`epoll, this`log, w, pool, repr
      ensures Valid() && clients == old(clients) - {c} && w.now >= old(w.now)
      ensures EndedWith(log, old(clients)[c].id, old(clients)[c].children)
      ensures forall i :: 0 <= i < |old(clients)[c].children| && !old(clients)[c].children[i].finished ==>
                log[|log| - 1].children[i] == GivenUp(old(clients)[c].children[i])
    {
      hide RegOk, LogOk, Real, F, Retired;
      var n := |clients[c].children|;
      ghost var was := clients[c].children;
      for i := 0 to n
        invariant c in clients && clients - {c} == old(clients) - {c} && clients[c] == old(clients)[c].(children := clients[c].children)
        invariant |clients[c].children| == n
        invariant forall j :: i <= j < n ==> clients[c].children[j] == was[j]
        invariant forall j :: 0 <= j < i ==> clients[c].children[j] == if was[j].finished then was[j] else GivenUp(was[j])
        invariant RegOk(clients, owner, F(), {}, {}) && LogOk(clients, log, nextId) && Real() && w.now >= old(w.now)
      {
        if !clients[c].children[i].finished {
          GiveUp((c, i));
        }
      }
      FinalizeComposite(c);
    }

    /** `force_finish_child`. */
    method GiveUp(slot: Slot)
      requires SlotIn(clients, slot) && !ChildAt(clients, slot).finished
      requires RegOk(clients, owner, F(), {}, {}) && LogOk(clients, log, nextId) && Real()
      modifies this`clients, this`owner, this`epoll, w, pool, repr
      ensures SlotIn(old(clients), slot) && clients == WithChild(old(clients), slot, GivenUp(ChildAt(old(clients), slot)))
      ensures RegOk(clients, owner, F(), {}, {}) && LogOk(clients, log, nextId) && Real() && w.now >= old(w.now)
    {
      hide RegOk, LogOk, Real, RealOk, Fewer, F, Retired, Live;
      var ch := ChildAt(clients, slot);
      SlotLive(clients, owner, F(), slot);
      Discard(slot, {});
      var done := GivenUp(ch);
      GivenUpIsRetired(ch);
      ReplaceKeeps(clients, owner, F(), {}, slot, done);
      LogKept(clients, log, nextId, slot, done);
      RealIs();
      RealSame(clients, slot, done, w.streams, pool.idle);
      SetClients(WithChild(clients, slot, done));
      WithChildTwice(old(clients), slot, Cut(ch), done);
    }

    // -------------------------------------------------------------- deadlines

    /** `check_upstream_timeouts`: afterwards nothing in flight has a deadline at
        or before the time `t` of the call, and clients with nothing due then are as
        they were. */
    method CheckTimeouts() returns (ghost t: int)
      requires Valid()
      modifies this, w, pool, circuits, repr
      ensures Valid() && w.now >= t >= old(w.now) && nextId == old(nextId) && old(repr) <= repr && fresh(repr - old(repr))
      ensures (forall c :: c in clients ==> c in old(clients)) && (forall d :: Timer(clients, d) ==> d > t)
      ensures forall c :: c in old(clients) && (forall d :: TimerOf(old(clients)[c], d) ==> d > t) ==>
                c in clients && clients[c] == old(clients)[c]
      ensures HistoryGrows(old(circuits.history), circuits.history) && (old(astray) ==> astray)
    {
      hide ShapesOk, Unfinished;
      hide RegOk, LogOk, Expired, TimerOf, Real, F, HistoryGrows;
      GrowsSame(circuits.history);
      var now := w.Now();
      t := now;
      var due := Overdues(now);
      for k := 0 to |due|
        invariant Valid() && w.now >= t && nextId == old(nextId) && old(repr) <= repr && fresh(repr - old(repr))
        invariant forall c :: c in clients ==> c in old(clients)
        invariant forall c :: c in clients && c !in due[k..] ==> !Expired(clients[c], t)
        invariant forall c :: c in old(clients) && c !in due ==> c in clients && clients[c] == old(clients)[c]
        invariant HistoryGrows(old(circuits.history), circuits.history) && (old(astray) ==> astray)
      {
        assert due[k..] == [due[k]] + due[k + 1..];
        if due[k] in clients {
          ghost var mid := circuits.history;
          Sweep(due[k], now);
          GrowsFurther(old(circuits.history), mid, circuits.history);
        }
      }
      NoTimerLeft(clients, t);
      forall c | c in old(clients) && forall d :: TimerOf(old(clients)[c], d) ==> d > t
        ensures c in clients && clients[c] == old(clients)[c]
      {
        ExpiredIff(old(clients)[c], t);
      }
    }

    /** The clients with a deadline at or before `t`. */
    method Overdues(t: int) returns (due: seq<Client>)
      ensures forall c :: c in due <==> c in clients && Expired(clients[c], t)
    {
      hide Expired;
      var todo := clients.Keys;
      due := [];
      while todo != {}
        invariant todo <= clients.Keys
        invariant forall c :: c in due <==> c in clients && c !in todo && Expired(clients[c], t)
      {
        var c :| c in todo;
        todo := todo - {c};
        if Expired(clients[c], t) {
          due := due + [c];
        }
      }
    }

    /** One client with something overdue. */
    method Sweep(c: Client, t: int)
      requires Valid() && c in clients && t <= w.now
      modifies this, w, pool, circuits, repr
      ensures Valid() && w.now >= old(w.now) && nextId == old(nextId) && old(repr) <= repr && fresh(repr - old(repr))
      ensures OthersSame(old(clients), clients, c)
      ensures c in clients ==> !Expired(clients[c], t)
      ensures HistoryGrows(old(circuits.history), circuits.history) && (old(astray) ==> astray)
    {
      hide RegOk, LogOk, Real, F, SentOk, HistoryGrows, Expects, Delivered, Driven, OthersSame, ShapesOk;
      GrowsSame(circuits.history);
      OthersOf(clients, c);
      if clients[c].composite && clients[c].total.Some? && clients[c].total.value <= t {
        ForceFinish(c);
        return;
      }
      var n := |clients[c].children|;
      for i := 0 to n
        invariant Valid() && w.now >= old(w.now) && nextId == old(nextId) && old(repr) <= repr && fresh(repr - old(repr))
        invariant OthersSame(old(clients), clients, c) && c in clients && |clients[c].children| == n
        invariant clients[c] == old(clients)[c].(children := clients[c].children)
        invariant forall j :: 0 <= j < i ==> !Overdue(clients[c].children[j], t)
        invariant HistoryGrows(old(circuits.history), circuits.history) && (old(astray) ==> astray)
      {
        if Overdue(clients[c].children[i], t) {
          ghost var mid, was := circuits.history, clients;
          DriveArmed((c, i), false, "", "");
          GrowsFurther(old(circuits.history), mid, circuits.history);
          SweptChild(was, clients, (c, i), t);
          OthersFurther(old(clients), was, clients, c);
          if c !in clients {
            return;
          }
        }
      }
    }

    /** `poll_timeout_ms`: no wait when a deadline has passed; otherwise the longest,
        in whole milliseconds up to a second, that passes none. */
    method PollTimeout() returns (ms: int)
      modifies w`tick, w`now
      ensures 0 <= ms <= 1000 && w.now >= old(w.now)
      ensures forall d :: Timer(clients, d) && d < w.now ==> ms == 0
      ensures forall d :: Timer(clients, d) && d >= w.now ==> w.now + ms * NANOS <= d
      ensures ms < 1000 ==> exists d :: Timer(clients, d) && d < w.now + (ms + 1) * NANOS
    {
      var now := w.Now();
      ms := 1000;
      var todo := clients.Keys;
      while todo != {}
        invariant 0 <= ms <= 1000 && todo <= clients.Keys && now == w.now
        invariant forall c, d :: c in clients && c !in todo && TimerOf(clients[c], d) ==> Minds(d, now, ms)
        invariant ms < 1000 ==> exists d :: Timer(clients, d) && d < now + (ms + 1) * NANOS
      {
        var c :| c in todo;
        todo := todo - {c};
        var p := clients[c];
        ghost var before := ms;
        ms := PollOne(p, now, ms);
        MindsLess(now, before, ms);
        if ms < before {
          var d :| TimerOf(p, d) && d < now + (ms + 1) * NANOS;
          assert Timer(clients, d);
        }
      }
      assert forall d :: Timer(clients, d) ==> Minds(d, now, ms);
    }

    // ---------------------------------------------- a second request in flight

    /** `start_upstream_exchange` up to the entry in the map, for whatever client. An
        exchange in flight for it is overwritten: destroyed like in an abort, but its
        descriptors stay in the registry and nothing ends on record. The books stay
        exact if and only if there was none. */
    method Restart(c: Client, job: Job, maxRetries: int)
      requires Valid() && JobOk(job)
      modifies this`clients, this`owner, this`epoll, this`log, this`nextId, this`repr, w, pool, repr
      ensures c in clients && clients == old(clients)[c := clients[c]] && clients[c].id == old(nextId)
      ensures owner == old(owner) && log == old(log) && nextId == old(nextId) + 1
      ensures RegOk(clients, owner, F(), {(c, 0)}, {}) && LogOk(clients, log, nextId) <==> c !in old(clients)
      ensures LogOk(clients, log, nextId) <==> c !in old(clients)
      ensures c in old(clients) ==> Ends(log, old(clients)[c].id) + InFlights(clients, old(clients)[c].id) == 0
      ensures c in old(clients) ==>
                forall i :: 0 <= i < |old(clients)[c].children| && old(clients)[c].children[i].fd.Some? ==>
                  var fd := old(clients)[c].children[i].fd.value; fd in owner && owner[fd] == (c, i) && fd !in epoll
    {
      hide ShapesOk, Unfinished;
      hide RegOk, LogOk, Real, F, Ends, InFlights, Live, ConfigOf, Timely, Ready;
      if c !in clients {
        Begin(c, job, maxRetries);
        ReadyIsReg(clients, owner, F(), c);
        return;
      }
      ghost var f := F();
      var registry, record := owner, log;
      AbortClient(c);
      Begin(c, job, maxRetries);
      ReadyIsReg(clients, owner, F(), c);
      Stale(old(clients), old(owner), f, clients, owner, F(), c);
      Lost(old(clients), old(log), old(nextId), clients, c);
      WatchedAre();
      owner, log := registry, record;
    }

    /** Three requests on one connection, local, proxied, proxied: the local one arms the
        descriptor, and if the second is in flight when the connection may be written
        to, the third is started over it. Then the second is never answered. */
    method ThreeRequests(c: Client, second: Job, third: Job, maxRetries: int) returns (overwritten: bool)
      requires Valid() && c !in clients && JobOk(second) && JobOk(third)
      modifies this, w, pool, circuits, repr
      ensures overwritten ==> Ends(log, old(nextId)) + InFlights(clients, old(nextId)) == 0
      ensures overwritten <==> !LogOk(clients, log, nextId)
    {
      hide RegOk, LogOk, Real, F, Ends, InFlights;
      hide HistoryGrows, Heard, Asked, CB.Allowed, CB.Replay;
      StartSingle(c, Call(second), maxRetries, 0, "", "");
      overwritten := c in clients;
      Restart(c, third, maxRetries);
    }

    // ------------------------------------------------------------------ runs

    /** One event. A client is assumed to make no request while an exchange of its own
        is in flight; `Restart` says what happens otherwise. */
    method Handle(e: Event)
      requires Valid() && EventOk(e)
      modifies this, w, pool, circuits, repr
      ensures Valid() && old(repr) <= repr && fresh(repr - old(repr))
      ensures HistoryGrows(old(circuits.history), circuits.history) && (old(astray) ==> astray)
    {
      hide ShapesOk, Unfinished;
      hide RegOk, LogOk, Real, F, HistoryGrows, Expects, Delivered, Reaches, ReachesNew, AnsweredWith, InTime, ConcludedWith;
      GrowsSame(circuits.history);
      match e {
        case Request(c, target, maxRetries) =>
          if c !in clients {
            StartSingle(c, target, maxRetries, 0, "", "");
          }
        case CompositeRequest(c, dependencies, totalMs) =>
          if c !in clients {
            StartComposite(c, dependencies, totalMs, 0, 0, "", "");
          }
        case Upstream(fd) => OnUpstreamEvent(fd, "", "");
        case Gone(c) => AbortClient(c);
        case Timeouts => var _ := CheckTimeouts();
      }
    }

    /** Every run of events, whatever the backends and the kernel do: the registry is
        exact at its end and no socket is lost; what was started has ended exactly
        once or is in flight, and was sent no more often than its method allows. */
    method Run(events: seq<Event>)
      requires Valid() && forall i :: 0 <= i < |events| ==> EventOk(events[i])
      modifies this, w, pool, circuits, repr
      ensures Valid() && old(repr) <= repr && fresh(repr - old(repr))
      ensures forall fd, g :: fd in owner && g in owner && owner[fd] == owner[g] ==> fd == g
      ensures forall s: Slot :: SlotIn(clients, s) && !ChildAt(clients, s).finished ==> ArmedUnder(clients, owner, F(), s)
      ensures F().epoll == owner.Keys && F().pooled !! F().epoll && F().open == F().pooled + F().epoll
      ensures forall c :: c in clients ==> exists i :: 0 <= i < |clients[c].children| && ArmedAt(clients, owner, F(), c, i)
      ensures forall id: nat :: id < nextId ==> Ends(log, id) + InFlights(clients, id) == 1
      ensures forall j :: 0 <= j < |log| ==> AnswerOk(log[j])
      ensures forall s: Slot :: SlotIn(clients, s) ==> AtMostOnce(ChildAt(clients, s))
      ensures forall j, i :: 0 <= j < |log| && 0 <= i < |log[j].children| ==> AtMostOnce(log[j].children[i])
      ensures forall k :: 0 <= k < |w.streams| ==> U.Proper(w.streams[k])
      ensures forall k :: 0 <= k < |w.streams| && w.streams[k].place.Idle? ==> U.Ready(w.streams[k]) && U.LastSaidKeep(w.streams[k])
      ensures HistoryGrows(old(circuits.history), circuits.history) && (old(astray) ==> astray)
    {
      hide ShapesOk, Unfinished;
      hide LogOk, RegOk, Real, F, Ends, InFlights, AnswerOk, ArmedUnder, ArmedAt, AtMostOnce, EventOk, HistoryGrows;
      hide U.Proper, U.Ready, U.LastSaidKeep;
      GrowsSame(circuits.history);
      for i := 0 to |events|
        invariant Valid() && old(repr) <= repr && fresh(repr - old(repr))
        invariant HistoryGrows(old(circuits.history), circuits.history) && (old(astray) ==> astray)
      {
        ghost var mid := circuits.history;
        Handle(events[i]);
        GrowsFurther(old(circuits.history), mid, circuits.history);
      }
      RegistryIsExact(clients, owner, F());
      NoneIsStuck(clients, owner, F());
      PoolIsSafe();
      AnswersAreRight(clients, log, nextId);
      SentAtMostOnce(clients, owner, F(), log, nextId);
      forall id: nat | id < nextId
        ensures Ends(log, id) + InFlights(clients, id) == 1
      {
        EndsOnce(clients, log, nextId, id);
      }
    }

    /** A probe is out for the key of `job`: over any run, in which its client may go
        away or its overall deadline pass, it is lost exactly as long as no outcome for
        the key comes in; and while it is, every request is refused. */
    method RunWithProbeOut(events: seq<Event>, job: Job, ghost h: seq<CB.Event>, ghost ask: CB.Event)
      requires Valid() && forall i :: 0 <= i < |events| ==> EventOk(events[i])
      requires ProbeGranted(h, ask, job.threshold) && h + [ask] <= HistoryFor(circuits.history, job)
      modifies this, w, pool, circuits, repr
      ensures Valid() && h + [ask] <= HistoryFor(circuits.history, job)
      ensures ProbeStands(h, ask, HistoryFor(circuits.history, job))
    {
      hide RegOk, LogOk, Real, F, HistoryGrows, ProbeStands, ProbeGranted, CB.Replay, CB.Allowed;
      ghost var before := circuits.history;
      Run(events);
      KeyGrows(before, circuits.history, job);
      ProbeIsOut(h, ask, HistoryFor(circuits.history, job), job.threshold);
    }

    /** For one: a call is granted as a probe, and after any events its client goes
        away. */
    method AbandonProbe(c: Client, job: Job, maxRetries: int, events: seq<Event>)
      requires Valid() && c !in clients && JobOk(job) && forall i :: 0 <= i < |events| ==> EventOk(events[i])
      requires CB.FixedThreshold(HistoryFor(circuits.history, job), job.threshold)
      requires CB.Tripped(HistoryFor(circuits.history, job), job.threshold)
      modifies this, w, pool, circuits, repr
      ensures Valid() && c !in clients && Asked(old(circuits.history), circuits.history, job)
      ensures Granted(old(circuits.history), circuits.history, job) ==>
                var h := HistoryFor(old(circuits.history), job);
                ProbeStands(h, AskOf(old(circuits.history), circuits.history, job), HistoryFor(circuits.history, job))
    {
      hide RegOk, LogOk, Real, F, HistoryGrows, ProbeStands, Asked, EventOk, Heard;
      hide CB.Allowed, CB.Replay, CB.FixedThreshold, CB.Tripped;
      ghost var before := circuits.history;
      StartSingle(c, Call(job), maxRetries, 0, "", "");
      ghost var mid := circuits.history;
      Run(events);
      AbortClient(c);
      AskStays(before, mid, circuits.history, job);
      if Granted(before, circuits.history, job) {
        AskedIsPrefix(before, circuits.history, job);
        ProbeIsOut(HistoryFor(before, job), AskOf(before, circuits.history, job), HistoryFor(circuits.history, job), job.threshold);
      }
    }
  }

  lemma {:induction false} ReadyIsReg(clients: Clients, owner: map<Fd, Slot>, f: Fds, c: Client)
    requires Ready(clients, owner, f, {}, (c, 0)) && ChildAt(clients, (c, 0)).fd.None?
    ensures RegOk(clients, owner, f, {(c, 0)}, {})
  {
    hide RegOk, Live;
    assert {} + {(c, 0)} == {(c, 0)};
  }

  /** The descriptors of an overwritten exchange are in the old registry, but no
      longer watched. */
  lemma {:induction false} Stale(before: Clients, owner: map<Fd, Slot>, f: Fds, after: Clients, owner': map<Fd, Slot>, f': Fds, c: Client)
    requires RegOk(before, owner, f, {}, {}) && c in before && c in after && after == before[c := after[c]]
    requires RegOk(after, owner', f', {(c, 0)}, {}) && |after[c].children| == 1
    ensures forall i :: 0 <= i < |before[c].children| && before[c].children[i].fd.Some? ==>
              var fd := before[c].children[i].fd.value; fd in owner && owner[fd] == (c, i) && fd !in f'.epoll
  {
    hide SentOk, ConfigOf, ItemOk, Settled, Unsettled;
    forall i | 0 <= i < |before[c].children| && before[c].children[i].fd.Some?
      ensures var fd := before[c].children[i].fd.value; fd in owner && owner[fd] == (c, i) && fd !in f'.epoll
    {
      var fd := before[c].children[i].fd.value;
      assert SlotIn(before, (c, i)) && SlotOk(before, owner, (c, i));
    }
  }

  /** An overwritten exchange is not accounted for. */
  lemma {:induction false} Lost(before: Clients, log: seq<Completion>, nextId: nat, after: Clients, c: Client)
    requires LogOk(before, log, nextId) && c in before && c in after && after == before[c := after[c]] && after[c].id == nextId
    ensures Ends(log, before[c].id) + InFlights(after, before[c].id) == 0 && !LogOk(after, log, nextId + 1)
  {
    hide AnswerOk, Ends;
    var id := before[c].id;
    NeverEnded(log, id);
    assert (set d | d in after && after[d].id == id) == {};
    assert !Accounted(after, log, id);
  }

  /** `ask` was granted to a tripped circuit. */
  predicate ProbeGranted(h: seq<CB.Event>, ask: CB.Event, threshold: int) {
    && CB.FixedThreshold(h, threshold) && CB.Tripped(h, threshold)
    && ask.Allow? && CB.Allowed(CB.Replay(h), ask.now, ask.recovery)
  }

  /** The key's history since the probe either holds an outcome, or nothing but asks,
      and then every further ask is refused. */
  ghost predicate ProbeStands(h: seq<CB.Event>, ask: CB.Event, now: seq<CB.Event>) {
    && h + [ask] <= now
    && var since := now[|h| + 1..];
       CB.OnlyAsks(since) ==>
         forall asks, later, recovery :: CB.OnlyAsks(asks) ==> !CB.Allowed(CB.Replay(now + asks), later, recovery)
  }

  lemma {:induction false} ProbeIsOut(h: seq<CB.Event>, ask: CB.Event, now: seq<CB.Event>, threshold: int)
    requires ProbeGranted(h, ask, threshold) && h + [ask] <= now
    ensures ProbeStands(h, ask, now)
  {
    hide CB.Allowed, CB.Replay, CB.FixedThreshold, CB.Tripped;
    var since := now[|h| + 1..];
    if CB.OnlyAsks(since) {
      forall asks, later, recovery | CB.OnlyAsks(asks)
        ensures !CB.Allowed(CB.Replay(now + asks), later, recovery)
      {
        assert ask == CB.Allow(ask.now, ask.recovery) && now + asks == h + [ask] + (since + asks);
        CB.SingleProbe(h, threshold, ask.now, ask.recovery, since + asks, later, recovery);
      }
    }
  }

  lemma {:induction false} KeyGrows(before: Histories, after: Histories, job: Job)
    requires HistoryGrows(before, after)
    ensures HistoryFor(before, job) <= HistoryFor(after, job)
  {
  }

  lemma {:induction false} AskStays(before: Histories, mid: Histories, after: Histories, job: Job)
    requires Asked(before, mid, job) && HistoryGrows(mid, after)
    ensures Asked(before, after, job) && AskOf(before, after, job) == AskOf(before, mid, job)
  {
    KeyGrows(mid, after, job);
  }

  lemma {:induction false} AskedIsPrefix(before: Histories, after: Histories, job: Job)
    requires Asked(before, after, job)
    ensures HistoryFor(before, job) + [AskOf(before, after, job)] <= HistoryFor(after, job)
    ensures AskOf(before, after, job).Allow? && AskOf(before, after, job).recovery == job.recovery
  {
  }

  datatype Event =
    | Request(c: Client, target: Target, maxRetries: int)
    | CompositeRequest(c: Client, dependencies: seq<Dependency>, totalMs: int)
    | Upstream(fd: Fd)
    | Gone(c: Client)
    | Timeouts

  predicate EventOk(e: Event) {
    match e
    case Request(_, target, _) => TargetOk(target)
    case CompositeRequest(_, dependencies, _) => forall i :: 0 <= i < |dependencies| ==> TargetOk(dependencies[i].target)
    case _ => true
  }

  /** What is left of a call when its exchange is destroyed. */
  function Cut(ch: Child): (r: Child) {
    ch.(fd := None, ex := None)
  }

  function CutAll(children: seq<Child>): (r: seq<Child>) {
    seq(|children|, i requires 0 <= i < |children| => Cut(children[i]))
  }

  /** The deadline of the aggregate has passed. */
  function GivenUp(ch: Child): (r: Child) {
    Cut(ch).(item := Failed, finished := true, forced := true, resolved := ch.resolved + 1)
  }

  lemma {:induction false} GivenUpIsRetired(ch: Child)
    requires Live(ch)
    ensures Retired(GivenUp(ch))
  {
    hide WireOf;
  }

  /** As an abort leaves a call. */
  predicate CutOff(ch: Child) {
    SentOk(ch) && ch.ex.None? && EndsUnsettled(ch)
  }

  lemma {:induction false} CutOffAll(clients: Clients, owner: map<Fd, Slot>, f: Fds, c: Client)
    requires c in clients && RegOk(clients, owner, f, {}, {})
    ensures var cut := CutAll(clients[c].children);
            forall i :: 0 <= i < |cut| ==> CutOff(cut[i])
  {
    hide WireOf;
    forall i | 0 <= i < |clients[c].children|
      ensures CutOff(Cut(clients[c].children[i]))
    {
      assert SlotIn(clients, (c, i)) && SlotOk(clients, owner, (c, i));
    }
  }

  lemma {:induction false} CutNext(was: seq<Child>, i: nat)
    requires i < |was|
    ensures |CutAll(was[..i]) + was[i..]| == |was| && (CutAll(was[..i]) + was[i..])[i] == was[i]
    ensures (CutAll(was[..i]) + was[i..])[i := Cut(was[i])] == CutAll(was[..i + 1]) + was[i + 1..]
  {
  }

  lemma {:induction false} CutEnds(was: seq<Child>)
    ensures CutAll(was[..0]) + was[0..] == was && CutAll(was[..|was|]) + was[|was|..] == CutAll(was)
  {
    assert was[..|was|] == was;
  }

  lemma {:induction false} WithSame(clients: Clients, slot: Slot)
    requires SlotIn(clients, slot) && ChildAt(clients, slot).fd.None? && ChildAt(clients, slot).ex.None?
    ensures WithChild(clients, slot, Cut(ChildAt(clients, slot))) == clients
  {
    assert clients[slot.0].children[slot.1 := Cut(ChildAt(clients, slot))] == clients[slot.0].children;
  }

  function SlotsBelow(c: Client, n: nat): (r: set<Slot>) {
    set i | 0 <= i < n :: (c, i)
  }

  lemma {:induction false} OwnerIsArmed(clients: Clients, owner: map<Fd, Slot>, f: Fds, fd: Fd)
    requires RegOk(clients, owner, f, {}, {}) && fd in owner
    ensures SlotIn(clients, owner[fd]) && !ChildAt(clients, owner[fd]).finished
  {
    assert OwnerOk(clients, owner, fd);
  }

  lemma {:induction false} SlotFacts(clients: Clients, owner: map<Fd, Slot>, f: Fds, skip: set<Slot>, slot: Slot)
    requires SlotIn(clients, slot) && slot !in skip && RegOk(clients, owner, f, skip, {})
    ensures FdsOk(owner.Keys, f, {}) && Held(ChildAt(clients, slot).fd) <= owner.Keys
    ensures ChildAt(clients, slot).fd.Some? ==> ChildAt(clients, slot).ex.Some? && ChildAt(clients, slot).ex.value.sock == ChildAt(clients, slot).fd
  {
    assert SlotOk(clients, owner, slot);
    if ChildAt(clients, slot).fd.Some? {
      assert OwnerOk(clients, owner, ChildAt(clients, slot).fd.value);
    }
  }

  lemma {:induction false} SlotLive(clients: Clients, owner: map<Fd, Slot>, f: Fds, slot: Slot)
    requires SlotIn(clients, slot) && RegOk(clients, owner, f, {}, {}) && !ChildAt(clients, slot).finished
    ensures Live(ChildAt(clients, slot))
  {
    assert SlotOk(clients, owner, slot);
  }

  lemma {:induction false} SkipFinished(clients: Clients, owner: map<Fd, Slot>, f: Fds, skip: set<Slot>, slot: Slot)
    requires SlotIn(clients, slot) && slot !in skip && RegOk(clients, owner, f, skip, {})
    requires ChildAt(clients, slot).fd.None?
    ensures RegOk(clients, owner, f, skip + {slot}, {}) && ChildAt(clients, slot).ex.None?
  {
    assert SlotOk(clients, owner, slot);
    assert forall fd :: fd in owner ==> OwnerOk(clients, owner, fd);
  }

  predicate ArmedUnder(clients: Clients, owner: map<Fd, Slot>, f: Fds, s: Slot)
    requires SlotIn(clients, s)
  {
    var ch := ChildAt(clients, s);
    ch.fd.Some? && Armed(ch, ch.fd.value) && ch.fd.value in owner && owner[ch.fd.value] == s && ch.fd.value in f.epoll
  }

  /** `upstream_fd_owner_` is a bijection between the registered backend sockets
      and the children in flight, each under the socket its exchange holds now;
      no pooled socket is registered and no open one is forgotten. */
  lemma {:induction false} RegistryIsExact(clients: Clients, owner: map<Fd, Slot>, f: Fds)
    requires RegOk(clients, owner, f, {}, {})
    ensures forall fd, g :: fd in owner && g in owner && owner[fd] == owner[g] ==> fd == g
    ensures forall s: Slot :: SlotIn(clients, s) && !ChildAt(clients, s).finished ==> ArmedUnder(clients, owner, f, s)
    ensures f.epoll == owner.Keys && f.pooled !! f.epoll && f.open == f.pooled + f.epoll
  {
    hide SentOk, WireOf;
    forall fd, g | fd in owner && g in owner && owner[fd] == owner[g]
      ensures fd == g
    {
      assert OwnerOk(clients, owner, fd) && OwnerOk(clients, owner, g);
    }
    forall s: Slot | SlotIn(clients, s) && !ChildAt(clients, s).finished
      ensures ArmedUnder(clients, owner, f, s)
    {
      assert SlotOk(clients, owner, s);
      assert OwnerOk(clients, owner, ChildAt(clients, s).fd.value);
    }
  }

  predicate ArmedAt(clients: Clients, owner: map<Fd, Slot>, f: Fds, c: Client, i: nat) {
    SlotIn(clients, (c, i)) && ArmedUnder(clients, owner, f, (c, i))
  }

  /** Every exchange in flight waits on a registered socket. */
  lemma {:induction false} NoneIsStuck(clients: Clients, owner: map<Fd, Slot>, f: Fds)
    requires RegOk(clients, owner, f, {}, {}) && ShapesOk(clients)
    ensures forall c :: c in clients ==> exists i :: 0 <= i < |clients[c].children| && ArmedAt(clients, owner, f, c, i)
  {
    hide RegOk, ArmedUnder;
    RegistryIsExact(clients, owner, f);
    forall c | c in clients
      ensures exists i :: 0 <= i < |clients[c].children| && ArmedAt(clients, owner, f, c, i)
    {
      var i :| 0 <= i < |clients[c].children| && !clients[c].children[i].finished;
      assert SlotIn(clients, (c, i));
      assert ArmedAt(clients, owner, f, c, i);
    }
  }

  lemma {:induction false} AnswersAreRight(clients: Clients, log: seq<Completion>, nextId: nat)
    requires LogOk(clients, log, nextId)
    ensures forall j :: 0 <= j < |log| ==> AnswerOk(log[j])
  {
    hide AnswerOk;
  }

  /** In flight or ended, no call was sent more often than allowed. */
  lemma {:induction false} SentAtMostOnce(clients: Clients, owner: map<Fd, Slot>, f: Fds, log: seq<Completion>, nextId: nat)
    requires RegOk(clients, owner, f, {}, {}) && LogOk(clients, log, nextId)
    ensures forall s: Slot :: SlotIn(clients, s) ==> AtMostOnce(ChildAt(clients, s))
    ensures forall j, i :: 0 <= j < |log| && 0 <= i < |log[j].children| ==> AtMostOnce(log[j].children[i])
  {
    hide AtMostOnce, SentOk, LogOk;
    forall s: Slot | SlotIn(clients, s)
      ensures AtMostOnce(ChildAt(clients, s))
    {
      assert SlotOk(clients, owner, s);
      AtMostOnceSend(ChildAt(clients, s));
    }
    AnswersAreRight(clients, log, nextId);
    forall j, i | 0 <= j < |log| && 0 <= i < |log[j].children|
      ensures AtMostOnce(log[j].children[i])
    {
      assert AnswerOk(log[j]);
      AtMostOnceSend(log[j].children[i]);
    }
  }

  /** How often exchange `id` has ended. */
  function Ends(log: seq<Completion>, id: nat): (n: nat) {
    if log == [] then 0 else (if log[0].id == id then 1 else 0) + Ends(log[1..], id)
  }

  ghost function InFlights(clients: Clients, id: nat): (n: nat) {
    |set c | c in clients && clients[c].id == id|
  }

  lemma {:induction false} NeverEnded(log: seq<Completion>, id: nat)
    requires forall j :: 0 <= j < |log| ==> log[j].id != id
    ensures Ends(log, id) == 0
  {
    if log != [] {
      NeverEnded(log[1..], id);
    }
  }

  lemma {:induction false} EndedOnce(log: seq<Completion>, id: nat, k: nat)
    requires k < |log| && log[k].id == id
    requires forall j :: 0 <= j < |log| && j != k ==> log[j].id != id
    ensures Ends(log, id) == 1
  {
    if k == 0 {
      NeverEnded(log[1..], id);
    } else {
      EndedOnce(log[1..], id, k - 1);
    }
  }

  /** Exactly one of: answered once, aborted once, still in flight once. */
  lemma {:induction false} EndsOnce(clients: Clients, log: seq<Completion>, nextId: nat, id: nat)
    requires LogOk(clients, log, nextId) && id < nextId
    ensures Ends(log, id) + InFlights(clients, id) == 1
  {
    hide AnswerOk, Ends;
    var live := set c | c in clients && clients[c].id == id;
    assert Accounted(clients, log, id);
    if c :| c in clients && clients[c].id == id {
      NeverEnded(log, id);
      assert live == {c};
    } else {
      var k :| 0 <= k < |log| && log[k].id == id;
      EndedOnce(log, id, k);
      assert live == {};
    }
  }

  predicate Overdue(ch: Child, t: int) {
    ch.ex.Some? && !ch.finished && ch.ex.value.s.deadline <= t
  }

  /** A drive that is due at `t` leaves nothing due at `t`. */
  lemma {:induction false} SweptChild(before: Clients, after: Clients, slot: Slot, t: int)
    requires SlotIn(before, slot) && exists now :: t <= now && Driven(before, after, slot, now, {})
    ensures OthersSame(before, after, slot.0)
    ensures slot.0 in after ==>
              && |after[slot.0].children| == |before[slot.0].children| && !Overdue(ChildAt(after, slot), t)
              && after[slot.0] == before[slot.0].(children := after[slot.0].children)
              && forall j :: 0 <= j < |before[slot.0].children| && j != slot.1 ==> after[slot.0].children[j] == before[slot.0].children[j]
  {
    hide Live, SentOk, ItemOk;
  }

  lemma {:induction false} OthersOf(clients: Clients, c: Client)
    ensures OthersSame(clients, clients, c) && OthersSame(clients, clients - {c}, c)
  {
  }

  predicate Expired(p: InFlight, t: int) {
    (p.composite && p.total.Some? && p.total.value <= t) ||
    exists i :: 0 <= i < |p.children| && Overdue(p.children[i], t)
  }

  /** `d` is a deadline of the exchange: its own, or one of a child in flight. */
  ghost predicate TimerOf(p: InFlight, d: int) {
    (p.composite && p.total == Some(d)) ||
    exists i :: 0 <= i < |p.children| && Due(p.children[i], d)
  }

  predicate Due(ch: Child, d: int) {
    ch.ex.Some? && !ch.finished && ch.ex.value.s.deadline == d
  }

  ghost predicate Timer(clients: Clients, d: int) {
    exists c :: c in clients && TimerOf(clients[c], d)
  }

  /** Something of an exchange is overdue exactly when a timer of it has run out. */
  lemma {:induction false} ExpiredIff(p: InFlight, t: int)
    ensures Expired(p, t) <==> exists d :: TimerOf(p, d) && d <= t
  {
    if Expired(p, t) {
      if p.composite && p.total.Some? && p.total.value <= t {
        assert TimerOf(p, p.total.value);
      } else {
        var i :| 0 <= i < |p.children| && Overdue(p.children[i], t);
        assert Due(p.children[i], p.children[i].ex.value.s.deadline) && TimerOf(p, p.children[i].ex.value.s.deadline);
      }
    }
    if d :| TimerOf(p, d) && d <= t {
      if !(p.composite && p.total == Some(d)) {
        var i :| 0 <= i < |p.children| && Due(p.children[i], d);
        assert Overdue(p.children[i], t);
      }
    }
  }

  lemma {:induction false} NoTimerLeft(clients: Clients, t: int)
    requires forall c :: c in clients ==> !Expired(clients[c], t)
    ensures forall d :: Timer(clients, d) ==> d > t
  {
    hide Expired, TimerOf;
    forall d | Timer(clients, d)
      ensures d > t
    {
      var c :| c in clients && TimerOf(clients[c], d);
      ExpiredIff(clients[c], t);
    }
  }

  /** A wait of `ms` does not pass the deadline `d`, and there is none once `d` is over. */
  predicate Minds(d: int, now: int, ms: int) {
    if d < now then ms == 0 else now + ms * NANOS <= d
  }

  lemma {:induction false} MindsLess(now: int, ms: int, less: int)
    requires 0 <= less <= ms
    ensures forall d :: Minds(d, now, ms) ==> Minds(d, now, less)
  {
    assert less * NANOS <= ms * NANOS;
  }

  /** The smaller of `best` and the whole milliseconds left until `d`. */
  method Consider(d: int, now: int, best: int) returns (ms: int)
    requires 0 <= best
    ensures 0 <= ms <= best && Minds(d, now, ms)
    ensures ms < best ==> d < now + (ms + 1) * NANOS
  {
    var left := if d < now then 0 else (d - now) / NANOS;
    ms := if left < best then left else best;
  }

  method PollOne(p: InFlight, now: int, best: int) returns (ms: int)
    requires 0 <= best
    ensures 0 <= ms <= best
    ensures forall d :: TimerOf(p, d) ==> Minds(d, now, ms)
    ensures ms < best ==> exists d :: TimerOf(p, d) && d < now + (ms + 1) * NANOS
  {
    ms := best;
    if p.composite && p.total.Some? {
      ms := Consider(p.total.value, now, ms);
      assert TimerOf(p, p.total.value);
    }
    for i := 0 to |p.children|
      invariant 0 <= ms <= best
      invariant p.composite && p.total.Some? ==> Minds(p.total.value, now, ms)
      invariant forall j, d :: 0 <= j < i && Due(p.children[j], d) ==> Minds(d, now, ms)
      invariant ms < best ==> exists d :: TimerOf(p, d) && d < now + (ms + 1) * NANOS
    {
      var ch := p.children[i];
      if ch.ex.Some? && !ch.finished {
        ghost var before := ms;
        ms := Consider(ch.ex.value.s.deadline, now, ms);
        MindsLess(now, before, ms);
        assert Due(ch, ch.ex.value.s.deadline) && TimerOf(p, ch.ex.value.s.deadline);
      }
    }
  }

  lemma {:induction false} TailStep(a: seq<Child>, b: seq<Child>, i: nat)
    requires |a| == |b| && i < |b| && a[i..] == b[i..]
    ensures a[i] == b[i] && a[i + 1..] == b[i + 1..]
  {
    assert a[i] == a[i..][0] && b[i] == b[i..][0];
    assert a[i + 1..] == a[i..][1..] && b[i + 1..] == b[i..][1..];
  }

  /** Of the `children` entered for `c`, those from `i` on have not had their turn. */
  ghost predicate InTurn(clients: Clients, c: Client, children: seq<Child>, i: nat) {
    && c in clients && |clients[c].children| == |children| && i <= |children|
    && clients[c].children[i..] == children[i..] && ChildrenKept(children, clients[c].children)
    && Undriven(clients, ToDrive(c, children, i), c)
  }

  lemma {:induction false} TurnKept(clients: Clients, c: Client, children: seq<Child>, i: nat)
    requires InTurn(clients, c, children, i)
    ensures c in clients && ChildrenKept(children, clients[c].children)
  {
    hide Undriven, ToDrive;
  }

  lemma {:induction false} FirstTurn(clients: Clients, c: Client)
    requires c in clients && Undriven(clients, ToDrive(c, clients[c].children, 0), c)
    ensures InTurn(clients, c, clients[c].children, 0)
  {
    hide Undriven, ToDrive;
  }

  lemma {:induction false} PassBy(clients: Clients, c: Client, children: seq<Child>, i: nat)
    requires InTurn(clients, c, children, i) && i < |children| && children[i].finished
    ensures ToDrive(c, children, i) == ToDrive(c, children, i + 1) && InTurn(clients, c, children, i + 1)
  {
    hide Undriven;
    TailStep(clients[c].children, children, i);
  }

  lemma {:induction false} KeptSame(a: seq<Child>)
    ensures ChildrenKept(a, a)
  {
  }

  lemma {:induction false} OthersFurther(a: Clients, b: Clients, d: Clients, c: Client)
    requires OthersSame(a, b, c) && OthersSame(b, d, c)
    ensures OthersSame(a, d, c)
  {
  }

  lemma {:induction false} KeptFurther(a: seq<Child>, b: seq<Child>, c: seq<Child>)
    requires ChildrenKept(a, b) && ChildrenKept(b, c)
    ensures ChildrenKept(a, c)
  {
  }

  /** The call may not outlive the overall budget. */
  function WithBudget(job: Job, totalMs: int): (r: Job)
    ensures r == job.(timeoutMs := r.timeoutMs) && r.timeoutMs <= job.timeoutMs && (totalMs > 0 ==> r.timeoutMs <= totalMs)
    ensures r.timeoutMs == job.timeoutMs || (totalMs > 0 && r.timeoutMs == totalMs)
  {
    if totalMs > 0 && totalMs < job.timeoutMs then job.(timeoutMs := totalMs) else job
  }

  /** The child answers for its dependency: unavailable without a backend, failed
      behind an open circuit, otherwise called with what the budget leaves. */
  predicate ForDependency(ch: Child, d: Dependency, totalMs: int) {
    && ch.required == d.required
    && (d.target.Missing? ==> ch.finished && ch.item == Unavailable && ch.puts == [])
    && (d.target.Call? ==>
          && ch.job == Some(WithBudget(d.target.job, totalMs))
          && (ch.puts == [] ==> ch.finished && ch.item == Failed))
  }

  lemma {:induction false} WireOfBudget(job: Job, totalMs: int)
    requires JobOk(job)
    ensures JobOk(WithBudget(job, totalMs)) && WireOf(WithBudget(job, totalMs)) == WireOf(job)
  {
  }

  /** Resolved without a call. */
  predicate NeverCalled(ch: Child) {
    Retired(ch) && ch.puts == []
  }

  lemma {:induction false} PromptNow(delta: nat -> nat, timeout: int, tick: nat)
    requires U.Prompt(delta, timeout)
    ensures delta(tick) < timeout
  {
  }

  lemma {:induction false} ConcludedStays(children: seq<Child>, after: seq<Child>, k: nat, answer: string, maxResponse: nat)
    requires ChildrenKept(children, after) && ConcludedWith(children, k, answer, maxResponse)
    ensures ConcludedWith(after, k, answer, maxResponse)
  {
  }

  lemma {:induction false} WaitingIsLive(ch: Child)
    requires (NeverCalled(ch) || Waits(ch)) && ch.ex.Some?
    ensures Live(ch)
  {
    hide SentOk, ConfigOf;
  }

  lemma {:induction false} InTimeSteady(delta: nat -> nat, slow: nat, n: nat, job: Job, totalMs: int)
    requires InTime(delta, slow, n, job, totalMs)
    ensures Steady(delta, slow)
  {
  }

  /** Of the dependencies, `k` is the first that was called. */
  predicate FirstCalled(children: seq<Child>, k: nat) {
    k < |children| && (forall j :: 0 <= j < k ==> children[j].puts == []) && children[k].puts != []
  }

  /** Of the children, `k` is the first that is not finished. */
  predicate NextIs(children: seq<Child>, k: nat) {
    k < |children| && (forall j :: 0 <= j < k ==> children[j].finished) && !children[k].finished
  }

  predicate ConcludedWith(children: seq<Child>, k: nat, answer: string, maxResponse: nat) {
    k < |children| && children[k].finished && CameTo(children[k], answer, maxResponse)
  }

  lemma {:induction false} CalledFirst(children: seq<Child>, after: seq<Child>, dependencies: seq<Dependency>, totalMs: int, k: nat)
    requires |children| == |dependencies| && ChildrenKept(children, after) && FirstCalled(after, k)
    requires forall i :: 0 <= i < |children| ==> ForDependency(children[i], dependencies[i], totalMs)
    requires forall i :: 0 <= i < |children| ==> NeverCalled(children[i]) || Waits(children[i])
    ensures NextIs(children, k) && children[k].ex.Some?
  {
    hide SentOk, ItemOk, ConfigOf;
  }

  /** No reading of the clock takes longer than `slow`. */
  ghost predicate Steady(delta: nat -> nat, slow: nat) {
    forall t: nat :: delta(t) <= slow
  }

  /** The clock is read often enough for a call among `n` to be made in time, by its
      own deadline and the overall one. */
  ghost predicate InTime(delta: nat -> nat, slow: nat, n: nat, job: Job, totalMs: int) {
    && Steady(delta, slow) && slow * (2 * n + 2) < job.timeoutMs * NANOS
    && (totalMs > 0 ==> slow * (2 * n + 2) < totalMs * NANOS)
  }

  /** The exchange was made at `from` or later, and is to begin. */
  predicate Timely(ch: Child, from: int) {
    && ch.ex.Some? && ch.job.Some?
    && (ch.job.value.timeoutMs > 0 ==>
          ch.ex.value.s.phase == U.Connect && !ch.ex.value.s.retried && ch.ex.value.s.deadline >= from + ch.job.value.timeoutMs * NANOS)
  }

  lemma {:induction false} TimelyEarlier(ch: Child, from: int, later: int)
    requires Timely(ch, later) && from <= later
    ensures Timely(ch, from)
  {
  }

  /** The log has grown by the answer to exchange `id`: the response `answer`. */
  predicate AnsweredWith(log: seq<Completion>, log': seq<Completion>, id: nat, answer: string, maxResponse: nat) {
    && |log'| == |log| + 1 && U.StatusOf(answer).Some?
    && var last := log'[|log|];
       && log' == log + [last] && last.Answered? && last == Answered(id, false, U.StatusOf(answer).value, last.children)
       && |last.children| == 1 && CameTo(last.children[0], answer, maxResponse)
  }

  lemma {:induction false} SingleAnswered(before: Clients, log: seq<Completion>, after: Clients, log': seq<Completion>,
        c: Client, answer: string, maxResponse: nat)
    requires c in before && !before[c].composite && |before[c].children| == 1
    requires Delivered(before, log, after, log', (c, 0), answer, maxResponse)
    requires c !in after ==> EndedWith(log', before[c].id, before[c].children)
    ensures after == before - {c} && AnsweredWith(log, log', before[c].id, answer, maxResponse)
  {
    hide CameTo, U.StatusOf;
  }

  lemma {:induction false} ConfigFacts(job: Job)
    requires JobOk(job)
    ensures ConfigOf(job).maxResponse == job.maxResponse && ConfigOf(job).timeout == job.timeoutMs * NANOS
  {
  }

  /** Waiting for its first drive. */
  predicate Waits(ch: Child) {
    Live(ch) && ch.fd.None? && ch.ex.value.sock.None?
  }

  lemma {:induction false} ForKept(children: seq<Child>, after: seq<Child>, dependencies: seq<Dependency>, totalMs: int)
    requires |children| == |dependencies| && ChildrenKept(children, after)
    requires forall i :: 0 <= i < |children| ==> ForDependency(children[i], dependencies[i], totalMs)
    ensures forall i :: 0 <= i < |after| ==> ForDependency(after[i], dependencies[i], totalMs)
  {
  }

  lemma {:induction false} WaitsIsToDrive(c: Client, children: seq<Child>)
    requires forall i :: 0 <= i < |children| ==> NeverCalled(children[i]) || Waits(children[i])
    ensures forall i :: 0 <= i < |children| ==> Retired(children[i]) || (c, i) in ToDrive(c, children, 0)
  {
    hide SentOk;
  }

  lemma {:induction false} UndrivenNew(clients: Clients, c: Client, children: seq<Child>)
    requires c in clients && clients[c].children == children
    requires forall i :: 0 <= i < |children| ==> NeverCalled(children[i]) || Waits(children[i])
    ensures Undriven(clients, ToDrive(c, children, 0), c)
  {
    hide SentOk;
  }

  lemma {:induction false} ToDriveNext(clients: Clients, c: Client, children: seq<Child>, i: nat)
    requires i < |children| && !children[i].finished && Undriven(clients, ToDrive(c, children, i), c)
    ensures ToDrive(c, children, i) == ToDrive(c, children, i + 1) + {(c, i)} && (c, i) !in ToDrive(c, children, i + 1)
    ensures Undriven(clients, ToDrive(c, children, i + 1), c)
  {
    hide Live;
  }

  lemma {:induction false} ReadyNext(clients: Clients, owner: map<Fd, Slot>, f: Fds, c: Client, children: seq<Child>, i: nat)
    requires c in clients && clients[c].composite && |clients[c].children| == |children|
    requires i < |children| && !children[i].finished && Undriven(clients, ToDrive(c, children, i), c)
    requires RegOk(clients, owner, f, ToDrive(c, children, i), {})
    ensures Ready(clients, owner, f, ToDrive(c, children, i + 1), (c, i))
  {
    hide RegOk, Live;
    ToDriveNext(clients, c, children, i);
    assert (c, i) in ToDrive(c, children, i);
  }

  lemma {:induction false} FirstIsLive(x: Ex, job: Job, required: bool, maxRetries: int)
    requires JobOk(job) && x.s.puts == [] && x.cfg == ConfigOf(job)
    ensures Live(FirstTry(x, job, required, maxRetries))
  {
    hide WireOf;
  }

  function ObjectsOf(children: seq<Child>): (objs: set<U.Exchange>) {
    set i | 0 <= i < |children| && children[i].ex.Some? :: children[i].ex.value.obj
  }

  /** Exchanges that fit the connections, and all different. */
  ghost predicate NewExchanges(children: seq<Child>, streams: seq<U.Stream>) {
    && (forall i :: 0 <= i < |children| && children[i].ex.Some? ==> ExHolds(children[i].ex.value, streams))
    && (forall i, j :: 0 <= i < j < |children| && children[i].ex.Some? && children[j].ex.Some? ==>
                         children[i].ex.value.obj != children[j].ex.value.obj)
  }

  /** A call whose exchange failed and is gone, and that may have another. */
  predicate MayRetry(ch: Child) {
    && ch.ex.None? && ch.fd.None? && !ch.finished && !ch.forced && ch.resolved == 0
    && SentOk(ch) && ch.puts != [] && Unsettled(ch)
    && ch.attempts < ch.maxRetries && ch.attempts < 2 && Idempotent(ch.job.value.params.verb)
  }

  lemma {:induction false} RetryMay(ch: Child, r: U.Result)
    requires Live(ch) && ch.fd.None? && Retries(ch, r)
    ensures MayRetry(Undone(ch))
  {
    hide WireOf;
  }

  lemma {:induction false} AgainIsLive(ch: Child, x: Ex)
    requires MayRetry(ch) && x.s.puts == [] && x.cfg == ConfigOf(ch.job.value)
    ensures Live(ch.(ex := Some(x), attempts := ch.attempts + 1, outcomes := ch.outcomes + 1, puts := ch.puts + [x.s.puts]))
  {
    hide WireOf;
  }

  lemma {:induction false} EndedIsSent(ch: Child)
    requires Live(ch)
    ensures SentOk(Ended(ch)) && Settled(Ended(ch))
  {
    hide WireOf;
  }

  lemma {:induction false} EndedIsRetired(ch: Child)
    requires Live(ch) && StatusOk(ch.ex.value.s.result)
    ensures Retired(Concluded(ch))
  {
    hide WireOf;
  }

  /** A new exchange as a route asks for it. */
  method MakeExchange(w: U.World, job: Job) returns (x: Ex)
    requires JobOk(job)
    modifies w`tick, w`now
    ensures fresh(x.obj) && Mirror(x) && ExHolds(x, w.streams) && w.now >= old(w.now)
    ensures x.s.puts == [] && x.sock.None? && x.s.sock.None? && x.cfg == ConfigOf(job)
    ensures x.cfg.key == P.Key(job.params.host, job.params.port, P.Scheme(job.policy))
    ensures x.cfg.origin == U.Origin(job.params.host, job.params.port, job.policy)
    ensures x.cfg.timeout == job.timeoutMs * NANOS && x.cfg.maxResponse == job.maxResponse
    ensures x.cfg.wire == H.Image(job.params, job.order)
    ensures w.now == old(w.Reading(1)) && w.tick == old(w.tick) + 1
    ensures !x.s.retried
    ensures if job.timeoutMs > 0 then x.s.phase == U.Connect && x.s.deadline == w.now + job.timeoutMs * NANOS
            else x.s.phase == U.Done && x.s.result == U.Error(504, U.ConnectTimeout)
  {
    hide U.Inv, WireOf;
    var e := new U.Exchange(w, job.params, job.order, job.policy, Idempotent(job.params.verb), job.timeoutMs, job.maxResponse);
    WireIsImage(job);
    x := Ex(e, e.cfg, e.st, None);
  }

  lemma {:induction false} WireIsImage(job: Job)
    requires JobOk(job)
    ensures WireOf(job) == H.Image(job.params, job.order)
  {
  }

  /** The call as it stands when its last exchange is over and accounted for. */
  function Ended(ch: Child): (r: Child)
    requires ch.ex.Some?
  {
    ch.(fd := None, ex := None, outcomes := ch.outcomes + 1, result := Some(ch.ex.value.s.result))
  }

  /** A dependency whose exchange is over. */
  function Concluded(ch: Child): (r: Child)
    requires ch.ex.Some?
  {
    Ended(ch).(item := ItemFor(ch.ex.value.s.result), finished := true, resolved := ch.resolved + 1)
  }

  function Undone(ch: Child): (r: Child) {
    ch.(ex := None)
  }

  lemma {:induction false} RecordedIs(before: Histories, job: Job, e: CB.Event, r: U.Result)
    requires if r.Response? then e.Success? else e.Failure? && e.threshold == job.threshold
    ensures var after := before[job.circuit := HistoryFor(before, job) + [e]];
            Recorded(before, after, job, r) && HistoryGrows(before, after)
  {
  }

  function HistoryFor(history: Histories, job: Job): (h: seq<CB.Event>) {
    if job.circuit in history then history[job.circuit] else []
  }

  /** The breaker was asked for this call before anything else. */
  predicate Asked(before: Histories, after: Histories, job: Job) {
    var h, h' := HistoryFor(before, job), HistoryFor(after, job);
    h < h' && h'[|h|].Allow? && h'[|h|].recovery == job.recovery
  }

  function AskOf(before: Histories, after: Histories, job: Job): (e: CB.Event)
    requires Asked(before, after, job)
  {
    HistoryFor(after, job)[|HistoryFor(before, job)|]
  }

  lemma {:induction false} AskedAfter(before: Histories, mid: Histories, after: Histories, job: Job, ask: CB.Event)
    requires ask.Allow? && ask.recovery == job.recovery
    requires mid == before[job.circuit := HistoryFor(before, job) + [ask]] && HistoryGrows(mid, after)
    ensures Asked(before, after, job) && AskOf(before, after, job) == ask
  {
    var h, h' := HistoryFor(before, job), HistoryFor(after, job);
    assert (h + [ask])[|h|] == ask && h + [ask] <= h';
  }

  lemma {:induction false} AskedNow(before: Histories, after: Histories, job: Job, ask: CB.Event)
    requires ask.Allow? && ask.recovery == job.recovery && after == before[job.circuit := HistoryFor(before, job) + [ask]]
    ensures Asked(before, after, job) && AskOf(before, after, job) == ask
  {
    AskedAfter(before, after, after, job, ask);
  }

  lemma {:induction false} HeardEarlier(before: Histories, mid: Histories, after: Histories, job: Job)
    requires |HistoryFor(before, job)| <= |HistoryFor(mid, job)|
    ensures Heard(mid, after, job) ==> Heard(before, after, job)
  {
  }

  /** It let the call through. */
  predicate Granted(before: Histories, after: Histories, job: Job)
    requires Asked(before, after, job)
  {
    CB.Allowed(CB.Replay(HistoryFor(before, job)), AskOf(before, after, job).now, job.recovery)
  }

  lemma {:induction false} GrowsSame(h: Histories)
    ensures HistoryGrows(h, h)
  {
  }

  lemma {:induction false} AskGrows(before: Histories, job: Job, ask: CB.Event)
    ensures HistoryGrows(before, before[job.circuit := HistoryFor(before, job) + [ask]])
  {
  }

  lemma {:induction false} GrowsFurther(a: Histories, b: Histories, c: Histories)
    requires HistoryGrows(a, b) && HistoryGrows(b, c)
    ensures HistoryGrows(a, c)
  {
    forall k | k in a
      ensures k in c && a[k] <= c[k]
    {
      assert a[k] <= b[k] && b[k] <= c[k];
    }
  }

  /** No key's history is ever rewritten. */
  ghost predicate HistoryGrows(before: Histories, after: Histories) {
    forall k :: k in before ==> k in after && before[k] <= after[k]
  }

  /** The breaker was told how a call to the key went. */
  predicate Heard(before: Histories, after: Histories, job: Job) {
    exists i :: |HistoryFor(before, job)| <= i < |HistoryFor(after, job)| &&
                (HistoryFor(after, job)[i].Success? || HistoryFor(after, job)[i].Failure?)
  }

  lemma {:induction false} HeardAfter(before: Histories, mid: Histories, after: Histories, job: Job, r: U.Result)
    requires Recorded(before, mid, job, r) && HistoryGrows(mid, after)
    ensures Heard(before, after, job)
  {
    var i := |HistoryFor(before, job)|;
    assert HistoryFor(mid, job)[i] == HistoryFor(after, job)[i];
  }

  /** The history of the call's key has grown by exactly the outcome `r`. */
  predicate Recorded(before: Histories, after: Histories, job: Job, r: U.Result) {
    var h := if job.circuit in before then before[job.circuit] else [];
    && job.circuit in after && |after[job.circuit]| == |h| + 1
    && var e := after[job.circuit][|h|];
       && after == before[job.circuit := h + [e]]
       && if r.Response? then e.Success? else e.Failure? && e.threshold == job.threshold
  }

  lemma {:induction false} OwnedByOthers(clients: Clients, owner: map<Fd, Slot>, f: Fds, c: Client, skip: set<Slot>)
    requires c in clients && RegOk(clients, owner, f, skip, {})
    requires forall i :: 0 <= i < |clients[c].children| ==> (c, i) in skip
    ensures forall fd :: fd in owner ==> owner[fd].0 != c
  {
    hide Live, Retired, Armed;
    forall fd | fd in owner
      ensures owner[fd].0 != c
    {
      assert OwnerOk(clients, owner, fd) && owner[fd] !in skip;
    }
  }

  lemma {:induction false} AllRetired(clients: Clients, owner: map<Fd, Slot>, f: Fds, c: Client)
    requires c in clients && RegOk(clients, owner, f, {}, {})
    requires forall i :: 0 <= i < |clients[c].children| ==> clients[c].children[i].finished
    ensures forall i :: 0 <= i < |clients[c].children| ==> Retired(clients[c].children[i])
    ensures forall fd :: fd in owner ==> owner[fd].0 != c
  {
    hide SentOk;
    forall i | 0 <= i < |clients[c].children|
      ensures Retired(clients[c].children[i])
    {
      assert SlotIn(clients, (c, i)) && SlotOk(clients, owner, (c, i));
    }
    forall fd | fd in owner
      ensures owner[fd].0 != c
    {
      assert OwnerOk(clients, owner, fd);
    }
  }

  lemma {:induction false} NoneUndriven(clients: Clients, skip: set<Slot>, c: Client)
    requires c in clients && Undriven(clients, skip, c)
    requires forall i :: 0 <= i < |clients[c].children| ==> clients[c].children[i].finished
    ensures skip == {}
  {
    if t :| t in skip {
      assert false;
    }
  }

  /** `advance` on the real exchange. */
  method DriveExchange(w: U.World, pool: P.Pool, x: Ex, event: bool, ghost answer: string, ghost rest: string)
    returns (y: Ex, want: U.Want, astray: bool)
    requires ExHolds(x, w.streams) && Mirror(x) && U.PoolOk(pool.idle, w.streams)
    modifies w, pool, x.obj
    ensures ExHolds(y, w.streams) && Mirror(y) && U.PoolOk(pool.idle, w.streams)
    ensures U.OthersKept(old(w.streams), w.streams, x.obj) && y == Ex(x.obj, x.cfg, y.s, y.sock)
    ensures want != U.Finished ==> y.sock.Some? && y.s.deadline > w.now
    ensures (want == U.Finished <==> y.s.phase == U.Done) && w.now >= old(w.now)
    ensures old(U.Smooth(x.cfg, x.s, w, pool, event, answer, rest)) && U.StatusOf(answer).Some? ==>
              && want == U.Finished && U.Reports(answer, x.cfg.maxResponse, y.s.result)
              && (x.cfg.maxResponse + 1 < SIZE_MAX ==> !astray)
  {
    hide U.Inv, U.PoolOk, U.OthersKept, U.Exchange.Configured, U.Reports, U.Answered, U.OnTrack, U.StatusOf;
    var e := x.obj;
    ghost var track := U.Smooth(x.cfg, x.s, w, pool, event, answer, rest) && U.StatusOf(answer).Some?;
    want, astray := e.Advance(w, pool, event, answer, rest);
    y := Ex(e, x.cfg, e.st, FdOf(w.streams, e.st.sock));
    HoldsOwns(y, w.streams);
    if track {
      U.OnTrackPhase(y.cfg, y.s, w.io, event, U.Blocked, answer, rest);
      U.AnsweredReports(y.cfg, y.s, answer, rest);
    }
  }

  /** The connection of an exchange that goes stays open, in the pool, if it may be
      used again: the response is framed and says that the connection stays, the peer
      has not closed it, and the queue has room. Otherwise it is closed. */
  predicate LeavesBehind(x: Ex, reuse: bool, idle: Idle, open: set<Fd>, pooled: set<Fd>, open': set<Fd>, pooled': set<Fd>) {
    var s := x.s;
    if && reuse && s.result.Response? && s.frame.Complete? && s.frame.keepalive && !s.peerClosed
       && (x.cfg.key in idle ==> |idle[x.cfg.key]| < P.MAX_IDLE_PER_UPSTREAM) then
      open' == open && pooled' == pooled + Held(x.sock)
    else open' == open - Held(x.sock) && pooled' == pooled
  }

  /** `reuse_to_pool` where asked for, then the destructor. */
  method DestroyExchange(w: U.World, pool: P.Pool, x: Ex, reuse: bool)
    requires ExHolds(x, w.streams) && Mirror(x) && U.PoolOk(pool.idle, w.streams)
    requires reuse ==> x.s.phase == U.Done
    modifies w, pool, x.obj
    ensures U.PoolOk(pool.idle, w.streams) && U.HeldKept(old(w.streams), w.streams, x.obj) && w.now >= old(w.now)
    ensures LeavesBehind(x, reuse, old(pool.idle), old(U.OpenFds(w.streams)), old(U.IdleFds(w.streams)),
                         U.OpenFds(w.streams), U.IdleFds(w.streams))
  {
    hide U.Inv, U.PoolOk, U.OthersKept, U.Exchange.Configured, U.OpenFds, U.IdleFds;
    var e := x.obj;
    HoldsOwns(x, w.streams);
    DistinctBoth(pool.idle, w.streams, pool.idle, w.streams);
    ghost var before, c := w.streams, x.s.sock;
    if reuse {
      e.ReuseToPool(w, pool);
    }
    ghost var mid := w.streams;
    e.Abandon(w, pool);
    if c.Some? {
      if reuse && U.Reusable(x.s) && !U.QueueFull(old(pool.idle), x.cfg.key) {
        PoolFds(before, c.value, mid[c.value]);
      } else {
        CloseFds(before, c.value, w.streams[c.value]);
      }
    }
  }

  function AfterDrive(ch: Child, y: Ex): (r: Child)
    requires ch.puts != []
  {
    ch.(fd := None, ex := Some(y), puts := ch.puts[|ch.puts| - 1 := y.s.puts])
  }

  /** The kernel forgets a descriptor that is closed; the loop removes the one the
      child was registered under. */
  function EpollAfter(epoll: set<Fd>, ch: Child, y: Ex): (r: set<Fd>)
    requires ch.ex.Some?
  {
    (if y.s.sock == ch.ex.value.s.sock then epoll else epoll - Held(ch.ex.value.sock)) - Held(ch.fd)
  }

  lemma {:induction false} ReadyIsIn(clients: Clients, owner: map<Fd, Slot>, f: Fds, skip: set<Slot>, slot: Slot)
    requires Ready(clients, owner, f, skip, slot)
    ensures SlotIn(clients, slot) && HasEx(clients, slot) && ChildAt(clients, slot).puts != [] && slot !in skip
  {
  }

  lemma {:induction false} RealFacts(clients: Clients, streams: seq<U.Stream>, idle: Idle, slot: Slot)
    requires RealOk(clients, streams, idle) && HasEx(clients, slot)
    ensures ExHolds(ExAt(clients, slot), streams) && U.PoolOk(idle, streams)
    ensures forall s :: HasEx(clients, s) && s != slot ==> ExAt(clients, s).obj != ExAt(clients, slot).obj
  {
    hide ExHolds, U.PoolOk;
  }

  /** The books after a drive. */
  lemma {:induction false} AdvanceBooks(clients: Clients, owner: map<Fd, Slot>, epoll: set<Fd>, skip: set<Slot>, slot: Slot,
        before: seq<U.Stream>, idle: Idle, after: seq<U.Stream>, idle': Idle, y: Ex)
    requires Ready(clients, owner, FdsOf(epoll, before), skip, slot) && RealOk(clients, before, idle)
    requires y == Ex(ExAt(clients, slot).obj, ExAt(clients, slot).cfg, y.s, y.sock)
    requires ExHolds(y, after) && U.PoolOk(idle', after) && U.OthersKept(before, after, y.obj)
    ensures ChildAt(clients, slot).puts != []
    ensures var ch := ChildAt(clients, slot);
            var ch' := AfterDrive(ch, y);
            && Live(ch')
            && RegOk(WithChild(clients, slot, ch'), owner - Held(ch.fd), FdsOf(EpollAfter(epoll, ch, y), after), skip + {slot}, Held(y.sock))
            && RealOk(WithChild(clients, slot, ch'), after, idle')
  {
    hide RegOk, RealOk, Driving, Undriven, U.PoolOk, U.OthersKept, ExHolds, U.Inv, FdsOk, Owns, U.HeldKept, ConfigOf, SentOk;
    var ch := ChildAt(clients, slot);
    var x := ch.ex.value;
    var ch' := AfterDrive(ch, y);
    ReadyFacts(clients, owner, FdsOf(epoll, before), skip, slot);
    RealFacts(clients, before, idle, slot);
    HoldsOwns(x, before);
    HoldsOwns(y, after);
    HoldsInv(x, before);
    HoldsInv(y, after);
    DistinctBoth(idle, before, idle', after);
    DriveKeeps(owner.Keys, epoll, before, after, y.obj, x.s.sock, y.s.sock);
    SentByTry(ch, y, after);
    var epoll' := if y.s.sock == x.s.sock then epoll else epoll - Held(x.sock);
    UnregisterKeeps(clients, owner, FdsOf(epoll, before), skip, slot, Sockets(FdsOf(epoll', after), y.sock), ch');
    U.KeptHeld(before, after, y.obj);
    RealReplace(clients, slot, ch', before, idle, after, idle', y.obj);
  }

  lemma {:induction false} HoldsInv(x: Ex, streams: seq<U.Stream>)
    requires ExHolds(x, streams)
    ensures U.Inv(x.cfg, x.s, streams, x.obj) && x.sock == FdOf(streams, x.s.sock)
  {
  }

  lemma {:induction false} UndrivenOf(clients: Clients, owner: map<Fd, Slot>, f: Fds, skip: set<Slot>, slot: Slot, ch: Child)
    requires Ready(clients, owner, f, skip, slot)
    ensures Undriven(WithChild(clients, slot, ch), skip, slot.0)
    ensures !clients[slot.0].composite ==> |clients[slot.0].children| == 1 && skip == {}
  {
    hide Live, RegOk;
  }

  lemma {:induction false} LiveFacts(ch: Child)
    requires Live(ch)
    ensures ch.ex.Some? && ch.puts != [] && !ch.finished && ch.job.Some? && ch.resolved == 0
  {
  }

  lemma {:induction false} DistinctBoth(idle: Idle, before: seq<U.Stream>, idle': Idle, after: seq<U.Stream>)
    requires U.PoolOk(idle, before) && U.PoolOk(idle', after)
    ensures U.DistinctFds(before) && U.DistinctFds(after)
  {
    hide U.QueueOk, U.DistinctFds;
  }
}
