/** Circuit breakers per backend: what a breaker does is read off the history of
    its key alone. */
module CircuitBreaker {
  import opened Clock

  datatype Circuit = Circuit(failures: nat, open: bool, openedAt: int, probe: bool)

  const CLOSED := Circuit(0, false, 0, false)

  /** What happens to one key; times in nanoseconds, timeouts in milliseconds. */
  datatype Event = Allow(now: int, recovery: int) | Success | Failure(now: int, threshold: int) | Reload

  function Max(a: int, b: int): (r: int) {
    if a > b then a else b
  }

  /** Whole milliseconds, truncated toward zero. */
  function Elapsed(now: int, since: int): (ms: int) {
    if now >= since then (now - since) / NANOS else -((since - now) / NANOS)
  }

  predicate Allowed(c: Circuit, now: int, recovery: int) {
    !c.open || !(Elapsed(now, c.openedAt) < recovery || c.probe)
  }

  function After(c: Circuit, e: Event): (r: Circuit) {
    match e
    case Allow(now, recovery) => if c.open && Allowed(c, now, recovery) then c.(probe := true) else c
    case Success => c.(failures := 0, open := false, probe := false)
    case Failure(now, threshold) =>
      var d := c.(failures := c.failures + 1, probe := false);
      if d.failures >= Max(1, threshold) then d.(open := true, openedAt := now) else d
    case Reload => CLOSED
  }

  function Replay(history: seq<Event>): (c: Circuit) {
    if history == [] then CLOSED
    else After(Replay(history[..|history| - 1]), history[|history| - 1])
  }

  // -------------------------------------------------- what the history promises

  /** Failures since the last success or reload. */
  function Failures(history: seq<Event>): (n: nat) {
    if history == [] then 0
    else
      var rest := history[..|history| - 1];
      match history[|history| - 1]
      case Success => 0
      case Reload => 0
      case Failure(_, _) => Failures(rest) + 1
      case Allow(_, _) => Failures(rest)
  }

  function LastFailure(history: seq<Event>): (t: int) {
    if history == [] then 0
    else
      match history[|history| - 1]
      case Failure(now, _) => now
      case _ => LastFailure(history[..|history| - 1])
  }

  predicate Tripped(history: seq<Event>, threshold: int) {
    Failures(history) >= 1 && Failures(history) >= threshold
  }

  /** The recovery time since the latest failure is over; one that is not positive is
      over at once, even by a clock that is a little behind. */
  predicate CooledDown(history: seq<Event>, now: int, recovery: int) {
    var since := now - LastFailure(history);
    if recovery > 0 then since >= recovery * NANOS else since > (recovery - 1) * NANOS
  }

  lemma {:induction false} ElapsedIs(now: int, since: int, ms: int)
    ensures Elapsed(now, since) >= ms <==> if ms > 0 then now - since >= ms * NANOS else now - since > (ms - 1) * NANOS
  {
    if now < since {
      var k := since - now;
      assert k == NANOS * (k / NANOS) + k % NANOS;
    }
  }

  /** A probe was let through and neither its outcome nor a reload has come in. */
  predicate ProbeOut(history: seq<Event>, threshold: int) {
    history != [] &&
    var rest := history[..|history| - 1];
    match history[|history| - 1]
    case Allow(now, recovery) =>
      ProbeOut(rest, threshold) || (Tripped(rest, threshold) && CooledDown(rest, now, recovery))
    case _ => false
  }

  predicate FixedThreshold(history: seq<Event>, threshold: int) {
    forall i :: 0 <= i < |history| && history[i].Failure? ==> history[i].threshold == threshold
  }

  /** The stored circuit is a summary of its history. */
  lemma {:induction false} CircuitIsHistory(history: seq<Event>, threshold: int)
    requires FixedThreshold(history, threshold)
    ensures var c := Replay(history);
            && c.failures == Failures(history)
            && (c.open <==> Tripped(history, threshold))
            && (c.open ==> c.openedAt == LastFailure(history))
            && (c.probe <==> ProbeOut(history, threshold))
            && (c.probe ==> c.open)
  {
    if history != [] {
      var rest := history[..|history| - 1];
      CircuitIsHistory(rest, threshold);
    }
  }

  /** A request is granted exactly when too few failures have come in since the
      last success or reload, or else when the recovery time since the latest
      failure is over and no probe is out. */
  lemma {:induction false} GrantIff(history: seq<Event>, threshold: int, now: int, recovery: int)
    requires FixedThreshold(history, threshold)
    ensures Allowed(Replay(history), now, recovery) <==>
            !Tripped(history, threshold) ||
            (CooledDown(history, now, recovery) && !ProbeOut(history, threshold))
  {
    CircuitIsHistory(history, threshold);
    ElapsedIs(now, LastFailure(history), recovery);
  }

  /** No grant within the recovery time of the latest failure. */
  lemma {:induction false} NoGrantWhileCooling(history: seq<Event>, threshold: int, now: int, recovery: int)
    requires FixedThreshold(history, threshold) && Tripped(history, threshold)
    requires LastFailure(history) <= now < LastFailure(history) + recovery * NANOS
    ensures !Allowed(Replay(history), now, recovery)
  {
    GrantIff(history, threshold, now, recovery);
  }

  predicate OnlyAsks(events: seq<Event>) {
    forall i :: 0 <= i < |events| ==> events[i].Allow?
  }

  lemma {:induction false} AsksChangeNothing(history: seq<Event>, asks: seq<Event>, threshold: int)
    requires OnlyAsks(asks) && ProbeOut(history, threshold)
    ensures ProbeOut(history + asks, threshold)
    ensures Failures(history + asks) == Failures(history)
    decreases |asks|
  {
    if asks == [] {
      assert history + asks == history;
    } else {
      var n := |asks| - 1;
      AsksChangeNothing(history, asks[..n], threshold);
      assert (history + asks)[..|history + asks| - 1] == history + asks[..n];
    }
  }

  /** One probe at a time: after a grant to a tripped circuit every request is
      refused, however many ask and whenever, until an outcome is recorded. */
  lemma {:induction false} SingleProbe(history: seq<Event>, threshold: int, now: int, recovery: int, asks: seq<Event>, later: int, recovery': int)
    requires FixedThreshold(history, threshold) && Tripped(history, threshold) && OnlyAsks(asks)
    requires Allowed(Replay(history), now, recovery)
    ensures !Allowed(Replay(history + [Allow(now, recovery)] + asks), later, recovery')
  {
    GrantIff(history, threshold, now, recovery);
    var h := history + [Allow(now, recovery)];
    assert h[..|h| - 1] == history;
    assert ProbeOut(h, threshold) && Failures(h) == Failures(history);
    AsksChangeNothing(h, asks, threshold);
    assert FixedThreshold(h + asks, threshold) by {
      forall i | 0 <= i < |h + asks| && (h + asks)[i].Failure?
        ensures (h + asks)[i].threshold == threshold
      {
        assert i < |history| && (h + asks)[i] == history[i];
      }
    }
    GrantIff(h + asks, threshold, later, recovery');
  }

  // ---------------------------------------------------------------- the manager

  /** The circuits of all keys; `history` records what each key went through. */
  class Circuits {
    var states: map<string, Circuit>
    ghost var history: map<string, seq<Event>>

    ghost predicate Valid()
      reads this
    {
      states.Keys == history.Keys && forall k :: k in states ==> states[k] == Replay(history[k])
    }

    ghost function HistoryOf(key: string): (h: seq<Event>)
      reads this
    {
      if key in history then history[key] else []
    }

    constructor ()
      ensures Valid() && history == map[]
    {
      states, history := map[], map[];
    }

    method Record(key: string, e: Event)
      requires Valid()
      modifies this
      ensures Valid() && history == old(history)[key := old(HistoryOf(key)) + [e]]
    {
      var c := if key in states then states[key] else CLOSED;
      ghost var h := HistoryOf(key) + [e];
      assert h[..|h| - 1] == HistoryOf(key);
      states := states[key := After(c, e)];
      history := history[key := h];
    }

    method AllowRequest(key: string, now: int, recovery: int, ghost threshold: int) returns (granted: bool)
      requires Valid()
      modifies this
      ensures Valid() && history == old(history)[key := old(HistoryOf(key)) + [Allow(now, recovery)]]
      ensures granted <==> Allowed(Replay(old(HistoryOf(key))), now, recovery)
      ensures FixedThreshold(old(HistoryOf(key)), threshold) ==>
                var h := old(HistoryOf(key));
                granted <==> !Tripped(h, threshold) || (CooledDown(h, now, recovery) && !ProbeOut(h, threshold))
    {
      var c := if key in states then states[key] else CLOSED;
      granted := Allowed(c, now, recovery);
      if FixedThreshold(HistoryOf(key), threshold) {
        GrantIff(HistoryOf(key), threshold, now, recovery);
      }
      Record(key, Allow(now, recovery));
    }

    method RecordSuccess(key: string)
      requires Valid()
      modifies this
      ensures Valid() && history == old(history)[key := old(HistoryOf(key)) + [Success]]
    {
      Record(key, Success);
    }

    method RecordFailure(key: string, now: int, threshold: int)
      requires Valid()
      modifies this
      ensures Valid() && history == old(history)[key := old(HistoryOf(key)) + [Failure(now, threshold)]]
    {
      Record(key, Failure(now, threshold));
    }

    /** A reload forgets every key. */
    method ReloadConfig()
      requires Valid()
      modifies this
      ensures Valid() && history == map[]
    {
      states, history := map[], map[];
    }
  }
}
