/** One backend request as a phase machine over non-blocking I/O. The sockets and
    the clock answer from a `World`; every answer is possible. Proved for every
    world: a drive terminates, a request is put on at most two connections (one,
    unless it is idempotent and the pooled connection failed), every connection
    stays with the upstream it was opened for, and request and response streams
    stay paired across reuse. */
module UpstreamExchange {
  import opened Bytes
  import opened Clock
  import opened ConnectionPool
  import C = ConnectionPool
  import F = Framing
  import L = FrameLoop
  import H = ProxyHop
  import R = ResponseHeaders
  import N = HeaderLookup
  import P = PrintedResponses

  // ------------------------------------------------------------ the outside

  /** The answer to one socket operation. */
  datatype Io =
    | Ok
    | InProgress
    | WantRead
    | WantWrite
    | Wrote(n: nat)
    | Got(data: string)
    | Eof
    | Interrupted
    | Failed

  /** One request with the response taken off the same connection for it. */
  datatype Served = Served(request: string, response: string, maxResponse: nat)

  /** Where a connection is: in the pool, gone, or with an exchange. */
  datatype Place = Idle | Closed | Held(who: Exchange)

  /** The upstream a connection is opened for. */
  datatype Origin = Origin(host: string, port: nat, policy: Policy)

  /** Life of one connection: whom it was opened for, whether a TLS handshake on it has
      succeeded, its descriptor, all bytes put on it and read off it since, the pairs
      finished on it, and where it is now. */
  datatype Stream = Stream(
    key: string, origin: Origin, secured: bool, fd: nat, sent: string, received: string, served: seq<Served>,
    place: Place)

  /** The connection may carry requests: it needs no TLS, or has it. */
  predicate Ready(s: Stream) {
    s.origin.policy.Plain? || s.secured
  }

  /** The connection is filed under its own upstream, a plain one never starts a
      handshake, and nothing was ever sent on one that needs TLS and has none. */
  predicate Proper(s: Stream) {
    && s.key == Key(s.origin.host, s.origin.port, Scheme(s.origin.policy))
    && (s.origin.policy.Plain? ==> !s.secured)
    && (s.sent != "" ==> Ready(s))
  }

  ghost predicate AllProper(streams: seq<Stream>) {
    forall c :: 0 <= c < |streams| ==> Proper(streams[c])
  }

  function Requests(served: seq<Served>): (s: string) {
    if served == [] then "" else Requests(served[..|served| - 1]) + served[|served| - 1].request
  }

  function Responses(served: seq<Served>): (s: string) {
    if served == [] then "" else Responses(served[..|served| - 1]) + served[|served| - 1].response
  }

  /** The response is one complete frame, no byte more. */
  predicate Whole(s: Served) {
    var f := F.FrameOf(s.response, false, s.maxResponse);
    f.Complete? && f.bodyEnd == |s.response|
  }

  /** The response said that the connection stays open. */
  predicate SaidKeep(s: Served) {
    var f := F.FrameOf(s.response, false, s.maxResponse);
    f.Complete? && f.keepalive
  }

  /** The connection belongs to `key`; beyond its finished pairs exactly `out` was
      sent and exactly `incoming` was read. */
  predicate Aligned(s: Stream, key: string, out: string, incoming: string) {
    && s.key == key
    && s.sent == Requests(s.served) + out
    && s.received == Responses(s.served) + incoming
    && forall i :: 0 <= i < |s.served| ==> Whole(s.served[i])
  }

  ghost predicate EntryOk(key: string, e: Pooled, streams: seq<Stream>) {
    && e.conn < |streams|
    && streams[e.conn].place.Idle?
    && Aligned(streams[e.conn], key, "", e.leftover)
    && Ready(streams[e.conn]) && LastSaidKeep(streams[e.conn])
  }

  predicate LastSaidKeep(s: Stream) {
    s.served != [] && SaidKeep(s.served[|s.served| - 1])
  }

  ghost predicate QueueOk(key: string, q: seq<Pooled>, streams: seq<Stream>) {
    && |q| <= MAX_IDLE_PER_UPSTREAM
    && (forall i :: 0 <= i < |q| ==> EntryOk(key, q[i], streams))
    && (forall i, j :: 0 <= i < j < |q| ==> q[i].conn != q[j].conn)
  }

  /** The kernel hands out a number only while nothing open has it. */
  ghost predicate DistinctFds(streams: seq<Stream>) {
    forall c, d :: 0 <= c < d < |streams| && !streams[c].place.Closed? && !streams[d].place.Closed? ==>
                     streams[c].fd != streams[d].fd
  }

  predicate InQueue(q: seq<Pooled>, c: nat) {
    exists i :: 0 <= i < |q| && q[i].conn == c
  }

  ghost predicate IdleIsPooled(idle: map<string, seq<Pooled>>, streams: seq<Stream>) {
    forall c :: 0 <= c < |streams| && streams[c].place.Idle? ==>
                  streams[c].key in idle && InQueue(idle[streams[c].key], c)
  }

  /** Every pooled connection is unheld, belongs to the key of its queue, is
      pooled once, has its leftover right behind its last finished response, has TLS
      if it needs it, and was not told to close; every idle connection is pooled. */
  ghost predicate PoolOk(idle: map<string, seq<Pooled>>, streams: seq<Stream>) {
    && (forall key :: key in idle ==> QueueOk(key, idle[key], streams))
    && IdleIsPooled(idle, streams) && DistinctFds(streams) && AllProper(streams)
  }

  /** What `me` may make of a connection while it is driven: nothing of one that
      another holds or that is closed; an idle one may be evicted or taken, its own
      used and closed. */
  ghost predicate Moved(a: Stream, b: Stream, me: Exchange) {
    && a.fd == b.fd && a.key == b.key && a.origin == b.origin
    && match a.place
       case Held(x) => if x == me then b.place == a.place || b.place.Closed? else b == a
       case Idle => b == a || b.place.Closed? || b.place == Held(me)
       case Closed => b.place.Closed?
  }

  ghost predicate OthersKept(before: seq<Stream>, after: seq<Stream>, me: Exchange) {
    && |before| <= |after|
    && (forall c :: 0 <= c < |before| ==> Moved(before[c], after[c], me))
    && (forall c :: |before| <= c < |after| ==> after[c].place == Held(me) || after[c].place.Closed?)
  }

  /** While nothing is opened, no number is taken. */
  lemma {:induction false} NumbersStay(before: seq<Stream>, after: seq<Stream>, me: Exchange)
    requires OthersKept(before, after, me) && |after| == |before|
    ensures OpenFds(after) <= OpenFds(before)
  {
    forall fd | fd in OpenFds(after)
      ensures fd in OpenFds(before)
    {
      var c :| 0 <= c < |after| && !after[c].place.Closed? && after[c].fd == fd;
      assert Moved(before[c], after[c], me);
    }
  }

  /** Whatever else happened, connections held by others are as they were. */
  ghost predicate HeldKept(before: seq<Stream>, after: seq<Stream>, me: Exchange) {
    && |before| <= |after|
    && (forall c :: 0 <= c < |before| && before[c].place.Held? && before[c].place != Held(me) ==> after[c] == before[c])
    && (forall c :: 0 <= c < |after| && after[c].place.Held? && after[c].place != Held(me) ==>
                      c < |before| && after[c] == before[c])
  }

  function OpenFds(streams: seq<Stream>): (fds: set<nat>) {
    set c | 0 <= c < |streams| && !streams[c].place.Closed? :: streams[c].fd
  }

  function IdleFds(streams: seq<Stream>): (fds: set<nat>) {
    set c | 0 <= c < |streams| && streams[c].place.Idle? :: streams[c].fd
  }

  /** The time that passes over `k` readings of the clock. */
  function Passed(delta: nat -> nat, tick: nat, k: nat): (d: nat)
    decreases k
  {
    if k == 0 then 0 else delta(tick) + Passed(delta, tick + 1, k - 1)
  }

  lemma {:induction false} PassedIs(delta: nat -> nat, tick: nat)
    ensures Passed(delta, tick, 1) == delta(tick)
    ensures Passed(delta, tick, 3) == delta(tick) + delta(tick + 1) + delta(tick + 2)
    ensures Passed(delta, tick, 4) == delta(tick) + Passed(delta, tick + 1, 3)
  {
  }

  /** Clock, kernel, socket answers and connection histories. The clock moves on by
      any amount between two readings; `number` is what the kernel would call the
      next socket. */
  class World {
    const delta: nat -> nat
    const number: nat -> nat
    var sockets: nat
    var tick: nat
    var now: int
    var io: seq<Io>
    var streams: seq<Stream>

    constructor (start: int, delta: nat -> nat, number: nat -> nat, io: seq<Io>)
      ensures now == start && this.delta == delta && this.number == number && this.io == io && streams == []
    {
      now, this.delta, this.number, this.io, tick, sockets, streams := start, delta, number, io, 0, 0, [];
    }

    /** A number for a new socket; the kernel never gives out one that is open. */
    method NewFd() returns (fd: Option<nat>)
      modifies this`sockets
      ensures fd == if number(old(sockets)) in OpenFds(streams) then None else Some(number(old(sockets)))
    {
      var n := number(sockets);
      sockets := sockets + 1;
      return if n in OpenFds(streams) then None else Some(n);
    }

    /** What the clock will say at the `k`-th reading from here. */
    ghost function Reading(k: nat): (t: int)
      reads this`now, this`tick
    {
      now + Passed(delta, tick, k)
    }

    method Now() returns (t: int)
      modifies this`tick, this`now
      ensures t == now == old(now) + delta(old(tick)) && tick == old(tick) + 1
    {
      now := now + delta(tick);
      tick := tick + 1;
      t := now;
    }

    /** The next answer, or `idle` when nothing will happen any more. */
    method Next(idle: Io) returns (o: Io)
      modifies this`io
      ensures if old(io) == [] then o == idle && io == [] else o == old(io)[0] && io == old(io)[1..]
    {
      if io == [] {
        return idle;
      }
      o := io[0];
      io := io[1..];
    }
  }

  // ------------------------------------------------------- pool and histories

  /** Being proper is no matter of place. */
  lemma {:induction false} ProperAnywhere(s: Stream, place: Place)
    requires Proper(s)
    ensures Proper(s.(place := place))
  {
  }

  lemma {:induction false} ProperTaken(gone: seq<Pooled>, streams: seq<Stream>, after: seq<Stream>)
    requires TakenOut(gone, streams, after) && AllProper(streams)
    ensures AllProper(after)
  {
    hide Proper, InQueue;
    forall c | 0 <= c < |after|
      ensures Proper(after[c])
    {
      ProperAnywhere(streams[c], after[c].place);
    }
  }

  /** Giving a connection that no queue holds a new history disturbs no queue. */
  lemma {:induction false} UnpooledMayChange(idle: map<string, seq<Pooled>>, streams: seq<Stream>, c: nat, s: Stream)
    requires PoolOk(idle, streams) && c < |streams|
    requires forall key, i :: key in idle && 0 <= i < |idle[key]| ==> idle[key][i].conn != c
    requires s.fd == streams[c].fd && !s.place.Idle? && (streams[c].place.Closed? ==> s.place.Closed?) && Proper(s)
    ensures PoolOk(idle, streams[c := s])
  {
    hide Aligned, Proper, LastSaidKeep, Ready;
    forall key | key in idle
      ensures QueueOk(key, idle[key], streams[c := s])
    {
      assert QueueOk(key, idle[key], streams);
    }
  }

  lemma {:induction false} NewConnection(idle: map<string, seq<Pooled>>, streams: seq<Stream>, s: Stream)
    requires PoolOk(idle, streams) && s.fd !in OpenFds(streams) && !s.place.Idle? && Proper(s)
    ensures PoolOk(idle, streams + [s])
  {
    hide Aligned, Proper, LastSaidKeep, Ready;
    forall key | key in idle
      ensures QueueOk(key, idle[key], streams + [s])
    {
      assert QueueOk(key, idle[key], streams);
    }
    forall c | 0 <= c < |streams| && !streams[c].place.Closed?
      ensures streams[c].fd != s.fd
    {
      assert streams[c].fd in OpenFds(streams);
    }
  }

  /** `after` is `streams` with the connections of `gone` out of the pool. */
  ghost predicate TakenOut(gone: seq<Pooled>, streams: seq<Stream>, after: seq<Stream>) {
    && |after| == |streams|
    && forall c :: 0 <= c < |streams| ==>
         if InQueue(gone, c) then after[c] == streams[c].(place := after[c].place) && !after[c].place.Idle?
         else after[c] == streams[c]
  }

  lemma {:induction false} OtherQueues(idle: map<string, seq<Pooled>>, key: string, n: nat, streams: seq<Stream>, k: string)
    requires PoolOk(idle, streams) && key in idle && n <= |idle[key]| && k in idle && k != key
    ensures forall i :: 0 <= i < |idle[k]| ==> !InQueue(idle[key][..n], idle[k][i].conn)
  {
    hide Requests, Responses, Whole, Proper, LastSaidKeep, Ready;
    assert QueueOk(key, idle[key], streams) && QueueOk(k, idle[k], streams);
    forall i | 0 <= i < |idle[k]|
      ensures !InQueue(idle[key][..n], idle[k][i].conn)
    {
      assert EntryOk(k, idle[k][i], streams);
      assert forall j :: 0 <= j < n ==> EntryOk(key, idle[key][j], streams);
    }
  }

  lemma {:induction false} RestOfQueue(key: string, q: seq<Pooled>, n: nat, streams: seq<Stream>, after: seq<Stream>)
    requires QueueOk(key, q, streams) && n <= |q| && TakenOut(q[..n], streams, after)
    ensures QueueOk(key, q[n..], after)
  {
    hide Aligned, Proper, LastSaidKeep, Ready;
    var r := q[n..];
    forall i | 0 <= i < |r|
      ensures EntryOk(key, r[i], after)
    {
      assert r[i] == q[n + i] && EntryOk(key, q[n + i], streams);
      assert forall j :: 0 <= j < n ==> q[j].conn != q[n + i].conn;
    }
  }

  lemma {:induction false} QueueElsewhere(key: string, q: seq<Pooled>, gone: seq<Pooled>, streams: seq<Stream>, after: seq<Stream>)
    requires QueueOk(key, q, streams) && TakenOut(gone, streams, after)
    requires forall i :: 0 <= i < |q| ==> !InQueue(gone, q[i].conn)
    ensures QueueOk(key, q, after)
  {
    hide Aligned, Proper, LastSaidKeep, Ready;
    assert forall i :: 0 <= i < |q| ==> EntryOk(key, q[i], streams);
  }

  lemma {:induction false} StillPooled(idle: map<string, seq<Pooled>>, key: string, n: nat, streams: seq<Stream>, after: seq<Stream>)
    requires PoolOk(idle, streams) && key in idle && n <= |idle[key]| && TakenOut(idle[key][..n], streams, after)
    ensures IdleIsPooled(WithQueue(idle, key, idle[key][n..]), after)
  {
    hide Aligned, Proper, LastSaidKeep, Ready;
    var q, rest := idle[key], WithQueue(idle, key, idle[key][n..]);
    forall c | 0 <= c < |after| && after[c].place.Idle?
      ensures after[c].key in rest && InQueue(rest[after[c].key], c)
    {
      assert after[c] == streams[c] && InQueue(idle[streams[c].key], c) && !InQueue(q[..n], c);
      if streams[c].key == key {
        var i :| 0 <= i < |q| && q[i].conn == c;
        assert q[n..][i - n].conn == c;
      }
    }
  }

  /** The first `n` connections leave a queue, evicted or taken. */
  lemma {:induction false} CutQueue(idle: map<string, seq<Pooled>>, key: string, n: nat, streams: seq<Stream>, after: seq<Stream>)
    requires PoolOk(idle, streams) && key in idle && n <= |idle[key]| && TakenOut(idle[key][..n], streams, after)
    requires forall c :: 0 <= c < |streams| && streams[c].place.Closed? ==> after[c].place.Closed?
    ensures PoolOk(WithQueue(idle, key, idle[key][n..]), after)
  {
    hide Aligned, Proper, LastSaidKeep, Ready;
    var q, rest := idle[key], WithQueue(idle, key, idle[key][n..]);
    forall k | k in rest
      ensures QueueOk(k, rest[k], after)
    {
      assert QueueOk(k, idle[k], streams);
      if k == key {
        RestOfQueue(key, q, n, streams, after);
      } else {
        OtherQueues(idle, key, n, streams, k);
        QueueElsewhere(k, idle[k], q[..n], streams, after);
      }
    }
    StillPooled(idle, key, n, streams, after);
    ProperTaken(q[..n], streams, after);
  }

  /** The connections of these entries are closed. */
  function CloseAll(streams: seq<Stream>, gone: seq<Pooled>): (after: seq<Stream>) {
    seq(|streams|, c requires 0 <= c < |streams| =>
      if InQueue(gone, c) then streams[c].(place := Closed) else streams[c])
  }

  lemma {:induction false} EvictKeeps(idle: map<string, seq<Pooled>>, key: string, streams: seq<Stream>, me: Exchange)
    requires PoolOk(idle, streams)
    ensures var after := CloseAll(streams, if key in idle then idle[key] else []);
            && PoolOk(idle - {key}, after) && OthersKept(streams, after, me) && |after| == |streams|
            && forall c :: 0 <= c < |streams| && (streams[c].place.Held? || after[c].place.Held?) ==> after[c] == streams[c]
  {
    hide Aligned, Proper, LastSaidKeep, Ready;
    if key in idle {
      var q := idle[key];
      var after := CloseAll(streams, q);
      assert q[..|q|] == q && q[|q|..] == [];
      CutQueue(idle, key, |q|, streams, after);
      QueuedAreIdle(key, q, streams);
    } else {
      assert idle - {key} == idle && CloseAll(streams, []) == streams;
    }
  }

  lemma {:induction false} QueuedAreIdle(key: string, q: seq<Pooled>, streams: seq<Stream>)
    requires QueueOk(key, q, streams)
    ensures forall c :: 0 <= c < |streams| && InQueue(q, c) ==> streams[c].place.Idle?
  {
    hide Aligned, Proper, LastSaidKeep, Ready;
    assert forall i :: 0 <= i < |q| ==> EntryOk(key, q[i], streams);
  }

  /** A checkout: expired connections are closed, the oldest live one leaves the
      queue as `s`. */
  lemma {:induction false} CheckoutKeeps(idle: map<string, seq<Pooled>>, key: string, expiry: int, streams: seq<Stream>, place: Place, me: Exchange)
    requires PoolOk(idle, streams) && key in idle && Unexpired(idle[key], expiry) != []
    requires place == Held(me) || place.Closed?
    ensures var q, live := idle[key], Unexpired(idle[key], expiry);
            && |live| <= |q| && EntryOk(key, live[0], streams)
            && var after := CloseAll(streams, q[..|q| - |live|]);
               var c := live[0].conn;
               && c < |after| && after[c] == streams[c]
               && PoolOk(WithQueue(idle, key, live[1..]), after[c := streams[c].(place := place)])
               && OthersKept(streams, after[c := streams[c].(place := place)], me)
  {
    hide Aligned, Proper, LastSaidKeep, Ready;
    var q := idle[key];
    var n := ExpiredGo(q, expiry);
    var live := q[n..];
    assert QueueOk(key, q, streams) && live[0] == q[n] && EntryOk(key, q[n], streams);
    TakeFrom(key, q, n, streams, place, me);
    CutQueue(idle, key, n + 1, streams, CloseAll(streams, q[..n])[q[n].conn := streams[q[n].conn].(place := place)]);
    assert q[n + 1..] == live[1..];
  }

  /** The first `n` are closed, the next one is taken or found dead. */
  lemma {:induction false} TakeFrom(key: string, q: seq<Pooled>, n: nat, streams: seq<Stream>, place: Place, me: Exchange)
    requires QueueOk(key, q, streams) && n < |q| && EntryOk(key, q[n], streams)
    requires place == Held(me) || place.Closed?
    ensures var mid, c := CloseAll(streams, q[..n]), q[n].conn;
            && c < |mid| && mid[c] == streams[c]
            && var after := mid[c := streams[c].(place := place)];
               && TakenOut(q[..n + 1], streams, after) && OthersKept(streams, after, me)
               && forall d :: 0 <= d < |streams| && streams[d].place.Closed? ==> after[d].place.Closed?
  {
    hide Aligned, Proper, LastSaidKeep, Ready;
    assert !InQueue(q[..n], q[n].conn);
    OneMore(q, n);
    QueuedAreIdle(key, q, streams);
    QueueParts(q, n);
  }

  lemma {:induction false} OneMore(q: seq<Pooled>, n: nat)
    requires n < |q|
    ensures forall d :: InQueue(q[..n + 1], d) <==> InQueue(q[..n], d) || d == q[n].conn
  {
    var a, b := q[..n + 1], q[..n];
    assert a[n] == q[n] && forall i :: 0 <= i < n ==> a[i] == b[i];
    forall d
      ensures InQueue(a, d) <==> InQueue(b, d) || d == q[n].conn
    {
      if InQueue(b, d) {
        var i :| 0 <= i < n && b[i].conn == d;
        assert a[i].conn == d;
      }
    }
  }

  lemma {:induction false} QueueParts(q: seq<Pooled>, n: nat)
    requires n <= |q|
    ensures forall d :: InQueue(q[..n], d) ==> InQueue(q, d)
  {
    forall d | InQueue(q[..n], d)
      ensures InQueue(q, d)
    {
      var i :| 0 <= i < n && q[..n][i].conn == d;
      assert q[i].conn == d;
    }
  }

  lemma {:induction false} KeptByNothing(streams: seq<Stream>, me: Exchange)
    ensures OthersKept(streams, streams, me)
  {
  }

  lemma {:induction false} HeldIsUnpooled(idle: map<string, seq<Pooled>>, streams: seq<Stream>, c: nat)
    requires PoolOk(idle, streams) && c < |streams| && streams[c].place.Held?
    ensures forall key, i :: key in idle && 0 <= i < |idle[key]| ==> idle[key][i].conn != c
  {
    hide Aligned, Proper, LastSaidKeep, Ready;
    forall key, i | key in idle && 0 <= i < |idle[key]|
      ensures idle[key][i].conn != c
    {
      assert QueueOk(key, idle[key], streams) && EntryOk(key, idle[key][i], streams);
    }
  }

  /** An aligned connection joins the queue of its key, or is closed if that is
      full. */
  lemma {:induction false} CheckinKeeps(idle: map<string, seq<Pooled>>, key: string, e: Pooled, streams: seq<Stream>, s: Stream)
    requires PoolOk(idle, streams) && e.conn < |streams| && streams[e.conn].place.Held?
    requires s.fd == streams[e.conn].fd && s.place.Idle? && Aligned(s, key, "", e.leftover)
    requires Proper(s) && Ready(s) && LastSaidKeep(s)
    ensures var q := if key in idle then idle[key] else [];
            if |q| >= MAX_IDLE_PER_UPSTREAM then PoolOk(idle[key := q], streams[e.conn := s.(place := Closed)])
            else PoolOk(idle[key := q + [e]], streams[e.conn := s])
  {
    hide Requests, Responses, Whole, Proper, LastSaidKeep, Ready;
    var c, q := e.conn, if key in idle then idle[key] else [];
    HeldIsUnpooled(idle, streams, c);
    assert QueueOk(key, q, streams);
    if |q| >= MAX_IDLE_PER_UPSTREAM {
      assert idle[key := q] == idle;
      ProperAnywhere(s, Closed);
      UnpooledMayChange(idle, streams, c, s.(place := Closed));
    } else {
      var after, idle' := streams[c := s], idle[key := q + [e]];
      forall k | k in idle'
        ensures QueueOk(k, idle'[k], after)
      {
        if k != key {
          assert QueueOk(k, idle[k], streams);
        }
      }
      forall d | 0 <= d < |after| && after[d].place.Idle?
        ensures after[d].key in idle' && InQueue(idle'[after[d].key], d)
      {
        if d == c {
          assert (q + [e])[|q|].conn == c;
        } else {
          assert InQueue(idle[streams[d].key], d);
          var i :| 0 <= i < |idle[streams[d].key]| && idle[streams[d].key][i].conn == d;
          assert idle'[streams[d].key][i].conn == d;
        }
      }
    }
  }

  // ------------------------------------------------------------ the machine

  datatype Phase = Connect | Connecting | Handshake | Send | Read | Done

  datatype Want = ForRead | ForWrite | Finished

  datatype BackendError =
    ConnectFailed | ConnectTimeout | WriteFailed | WriteTimeout | ReadFailed | ReadTimeout | InvalidResponse

  datatype Result =
    | Error(status: int, error: BackendError)
    | Response(status: int, headers: map<string, string>, body: string)

  /** Bytes of the request put on one connection. */
  datatype Put = Put(conn: nat, bytes: string)

  function Rank(p: Phase): (n: nat) {
    match p
    case Connect => 5
    case Connecting => 4
    case Handshake => 3
    case Send => 2
    case Read => 1
    case Done => 0
  }

  function TimeoutError(p: Phase): (e: BackendError) {
    match p
    case Send => WriteTimeout
    case Read => ReadTimeout
    case _ => ConnectTimeout
  }

  predicate IsTimeout(e: BackendError) {
    e.ConnectTimeout? || e.WriteTimeout? || e.ReadTimeout?
  }

  /** The status that goes with an error. */
  function CodeOf(e: BackendError): (status: int) {
    if IsTimeout(e) then 504 else 502
  }

  /** The errors a phase may end with. */
  predicate Blames(p: Phase, e: BackendError) {
    match p
    case Send => e.WriteFailed? || e.WriteTimeout?
    case Read => e.ReadFailed? || e.ReadTimeout? || e.InvalidResponse?
    case _ => e.ConnectFailed? || e.ConnectTimeout?
  }

  lemma {:induction false} TimeoutIsBlamed(p: Phase)
    ensures Blames(p, TimeoutError(p)) && CodeOf(TimeoutError(p)) == 504
  {
  }

  function DigitsFrom(s: string, i: nat): (n: nat)
    requires i <= |s|
    ensures n <= |s| - i && AllDigits(s[i..i + n])
    decreases |s| - i
  {
    if i < |s| && IsDigit(s[i]) then
      assert s[i..i + 1 + DigitsFrom(s, i + 1)] == [s[i]] + s[i + 1..i + 1 + DigitsFrom(s, i + 1)];
      1 + DigitsFrom(s, i + 1)
    else 0
  }

  function SpacesFrom(s: string, i: nat): (n: nat)
    requires i <= |s|
    ensures n <= |s| - i
    decreases |s| - i
  {
    if i < |s| && (s[i] == ' ' || 9 <= s[i] as int <= 13) then 1 + SpacesFrom(s, i + 1) else 0
  }

  /** `std::stoi`: leading space, a sign, digits; the rest is ignored. */
  function Stoi(s: string): (r: Option<int>) {
    var i := SpacesFrom(s, 0);
    var negative := i < |s| && s[i] == '-';
    var j := if i < |s| && (s[i] == '-' || s[i] == '+') then i + 1 else i;
    var n := DigitsFrom(s, j);
    var v := if n == 0 then 0 else DecimalValue(s[j..j + n]);
    var value := if negative then -v else v;
    if n == 0 || value > 0x7FFF_FFFF || value < -0x8000_0000 then None else Some(value)
  }

  /** Everything before the empty line. */
  function HeadOf(response: string): (head: string) {
    match FindBlankLine(response, 0)
    case None => response
    case Some(h) => response[..h]
  }

  function HeadersOf(response: string): (h: map<string, string>) {
    R.HeaderMap(HeadOf(response))
  }

  /** The status code stands between the first two spaces. */
  function StatusOf(response: string): (r: Option<int>) {
    match FindChar(response, ' ', 0)
    case None => None
    case Some(a) =>
      match FindChar(response, ' ', a + 1)
      case None => None
      case Some(b) => Stoi(response[a + 1..b])
  }

  /** What never changes during an exchange; `wire` is the request as sent. */
  datatype Config = Config(
    key: string, origin: Origin, idempotent: bool, timeout: int, maxResponse: nat, wire: string)

  predicate UsesTls(c: Config) {
    !c.origin.policy.Plain?
  }

  /** What does. */
  datatype State = State(
    phase: Phase, sock: Option<nat>, usedPooled: bool, retried: bool, request: string, sendOff: nat,
    response: string, frame: F.Frame, peerClosed: bool, result: Result, deadline: int, puts: seq<Put>)

  predicate PhaseOk(c: Config, s: State) {
    && c.key == Key(c.origin.host, c.origin.port, Scheme(c.origin.policy)) && c.wire != ""
    && (s.request == "" || s.request == c.wire) && s.sendOff <= |s.request|
    && (s.phase.Done? || c.timeout > 0)
    && (s.phase.Connect? ==> s.sock.None? && !s.usedPooled && s.request == "" && s.response == "")
    && (s.phase.Connecting? || s.phase.Handshake? ==>
          s.sock.Some? && !s.usedPooled && s.request == "" && s.response == "")
    && (s.phase.Send? ==> s.sock.Some?)
    && (s.phase.Read? ==> s.sock.Some? && s.request == c.wire && s.sendOff == |c.wire|)
    && (!s.phase.Done? ==> s.result.Error? && !s.peerClosed)
    && (s.retried ==> c.idempotent && !s.usedPooled)
  }

  /** A success is the frame of the response read, after the whole request; an
      error has the status of its kind. */
  predicate ResultOk(c: Config, s: State) {
    match s.result
    case Error(status, error) => status == CodeOf(error)
    case Response(status, headers, body) =>
      && s.request == c.wire && s.sendOff == |c.wire|
      && s.frame == F.FrameOf(s.response, s.peerClosed, c.maxResponse) && s.frame.Complete?
      && StatusOf(s.response) == Some(status) && headers == HeadersOf(s.response) && body == s.frame.body
  }

  /** At most two connections see bytes of the request, and only a replay of an
      idempotent request uses the second; each sees a prefix of the same bytes. */
  predicate PutsOk(c: Config, s: State)
    requires s.sendOff <= |s.request|
  {
    && |s.puts| <= (if s.retried then 2 else 1)
    && (s.phase.Connect? ==> |s.puts| == if s.retried then 1 else 0)
    && (forall i :: 0 <= i < |s.puts| ==> s.puts[i].bytes <= c.wire)
    && (s.sock.Some? ==> s.puts != [] && s.puts[|s.puts| - 1] == Put(s.sock.value, s.request[..s.sendOff]))
  }

  /** What the phase says about the connection: opened for this upstream and not
      secured yet, or ready for requests. */
  predicate Linked(c: Config, p: Phase, s: Stream) {
    match p
    case Connecting => s.origin == c.origin && !s.secured
    case Handshake => s.origin == c.origin && !s.secured && !c.origin.policy.Plain?
    case Send => Ready(s)
    case Read => Ready(s)
    case _ => true
  }

  /** The exchange holds the connection of its socket and no other. */
  ghost predicate Holds(c: Config, s: State, streams: seq<Stream>, me: Exchange)
    requires s.sendOff <= |s.request|
  {
    && (s.sock.Some? ==>
          && s.sock.value < |streams| && streams[s.sock.value].place == Held(me)
          && Aligned(streams[s.sock.value], c.key, s.request[..s.sendOff], s.response)
          && Linked(c, s.phase, streams[s.sock.value]))
    && forall d :: 0 <= d < |streams| && streams[d].place == Held(me) ==> s.sock == Some(d)
  }

  ghost predicate Inv(c: Config, s: State, streams: seq<Stream>, me: Exchange) {
    PhaseOk(c, s) && ResultOk(c, s) && PutsOk(c, s) && Holds(c, s, streams, me)
  }

  /** The turn from `s` to `t` comes closer to the end of a drive: the replay is
      used up, or socket answers are, or a phase is left behind. */
  predicate Closer(s: State, left: nat, t: State, left': nat) {
    || (t.retried && !s.retried)
    || (t.retried == s.retried && left' < left)
    || (t.retried == s.retried && left' <= left && Rank(t.phase) < Rank(s.phase))
  }

  /** The exchange starts over on a fresh connection. */
  function Replayed(s: State, deadline: int): (t: State) {
    s.(phase := Connect, sock := None, usedPooled := false, retried := true, request := "", sendOff := 0,
       response := "", frame := F.Incomplete, peerClosed := false, deadline := deadline)
  }

  function Ended(s: State, r: Result): (t: State) {
    s.(phase := Done, result := r)
  }

  lemma {:induction false} InvFacts(c: Config, s: State, streams: seq<Stream>, me: Exchange)
    requires Inv(c, s, streams, me)
    ensures !s.phase.Done? ==> c.timeout > 0
    ensures s.phase.Done? || s.sock.Some? || (s.phase.Connect? && !s.usedPooled)
    ensures s.phase.Connect? ==> s.sock.None?
    ensures s.sock.Some? ==>
              s.puts != [] && s.sock.value < |streams| && streams[s.sock.value].place == Held(me)
    ensures forall d :: 0 <= d < |streams| && streams[d].place == Held(me) ==> s.sock == Some(d)
  {
    hide F.FrameOf, Aligned, StatusOf, HeadersOf;
  }

  ghost predicate NoneHeld(streams: seq<Stream>, me: Exchange) {
    forall d :: 0 <= d < |streams| ==> streams[d].place != Held(me)
  }

  /** What an exchange does not hold may change around it. */
  lemma {:induction false} AroundKeeps(c: Config, s: State, before: seq<Stream>, after: seq<Stream>, me: Exchange)
    requires Inv(c, s, before, me)
    requires s.sock.Some? ==> s.sock.value < |before| <= |after| && after[s.sock.value] == before[s.sock.value]
    requires forall d :: 0 <= d < |after| && after[d].place == Held(me) ==> s.sock == Some(d)
    ensures Inv(c, s, after, me)
  {
    hide F.FrameOf, Aligned, StatusOf, HeadersOf, PutsOk, PhaseOk, ResultOk;
  }

  lemma {:induction false} ReplayKeeps(c: Config, s: State, deadline: int, streams: seq<Stream>, after: seq<Stream>, me: Exchange)
    requires NoneHeld(after, me)
    requires Inv(c, s, streams, me) && !s.phase.Done? && s.usedPooled && c.idempotent && !s.retried
    ensures Inv(c, Replayed(s, deadline), after, me)
  {
    hide F.FrameOf, Aligned, StatusOf, HeadersOf;
  }

  lemma {:induction false} FailureKeeps(c: Config, s: State, r: Result, streams: seq<Stream>, me: Exchange)
    requires Inv(c, s, streams, me) && r.Error? && r.status == CodeOf(r.error)
    ensures Inv(c, Ended(s, r), streams, me)
  {
    hide F.FrameOf, Aligned, StatusOf, HeadersOf;
  }

  // ------------------------------------------------------- what a turn keeps

  ghost predicate Sound(c: Config, s: State, idle: map<string, seq<Pooled>>, before: seq<Stream>, streams: seq<Stream>, me: Exchange) {
    Inv(c, s, streams, me) && PoolOk(idle, streams) && OthersKept(before, streams, me)
  }

  lemma {:induction false} KeptTrans(before: seq<Stream>, mid: seq<Stream>, streams: seq<Stream>, me: Exchange)
    requires OthersKept(before, mid, me) && OthersKept(mid, streams, me)
    ensures OthersKept(before, streams, me)
  {
    forall i | 0 <= i < |before|
      ensures Moved(before[i], streams[i], me)
    {
      assert Moved(before[i], mid[i], me) && Moved(mid[i], streams[i], me);
    }
    forall i | |before| <= i < |streams|
      ensures streams[i].place == Held(me) || streams[i].place.Closed?
    {
      if i < |mid| {
        assert Moved(mid[i], streams[i], me);
      }
    }
  }

  lemma {:induction false} SoundAfter(c: Config, s: State, idle: map<string, seq<Pooled>>, before: seq<Stream>,
        mid: seq<Stream>, streams: seq<Stream>, me: Exchange)
    requires Sound(c, s, idle, mid, streams, me) && OthersKept(before, mid, me)
    ensures Sound(c, s, idle, before, streams, me)
  {
    hide Inv, PoolOk, OthersKept;
    KeptTrans(before, mid, streams, me);
  }

  /** A turn either loops, closer to the end, or says what it waits for. Time
      does not run backwards, and a moved deadline lies ahead. */
  predicate Turned(s: State, left: nat, now: int, t: State, left': nat, now': int, step: Option<Want>) {
    && now' >= now && left' <= left
    && (t.deadline == s.deadline || t.deadline > now)
    && (t.phase.Done? && t.result.Error? ==> Blames(s.phase, t.result.error))
    && match step
       case None => Closer(s, left, t, left')
       case Some(want) =>
         && !t.phase.Connect? && (want == Finished <==> t.phase.Done?)
         && (want == Finished || t.deadline > now' || (t.deadline == s.deadline && now' == now))
  }

  /** A connection is taken up, with bytes already read off it. */
  function Opened(s: State, conn: nat, pooled: bool, leftover: string, phase: Phase): (t: State) {
    s.(sock := Some(conn), usedPooled := pooled, response := leftover, phase := phase,
       puts := s.puts + [Put(conn, "")])
  }

  lemma {:induction false} OpenKeeps(c: Config, s: State, conn: nat, pooled: bool, leftover: string, phase: Phase,
        streams: seq<Stream>, after: seq<Stream>, me: Exchange)
    requires Inv(c, s, streams, me) && s.phase.Connect? && (pooled ==> !s.retried)
    requires phase.Send? || (!pooled && leftover == "" && (phase.Connecting? || phase.Handshake?))
    requires conn < |after| && after[conn].place == Held(me) && Aligned(after[conn], c.key, "", leftover)
    requires Linked(c, phase, after[conn])
    requires forall d :: 0 <= d < |after| && after[d].place == Held(me) ==> d == conn
    ensures Inv(c, Opened(s, conn, pooled, leftover, phase), after, me)
  {
    hide F.FrameOf, Aligned, StatusOf, HeadersOf;
    assert s.request[..s.sendOff] == "";
  }

  lemma {:induction false} MoveKeeps(c: Config, s: State, phase: Phase, streams: seq<Stream>, me: Exchange)
    requires Inv(c, s, streams, me) && !s.phase.Done? && s.sock.Some?
    requires phase.Handshake? ==> s.phase.Connecting?
    requires phase.Handshake? || phase.Send? || (phase.Read? && s.request == c.wire && s.sendOff == |c.wire|)
    requires s.sock.value < |streams| && Linked(c, phase, streams[s.sock.value])
    ensures Inv(c, s.(phase := phase), streams, me)
  {
    hide F.FrameOf, Aligned, StatusOf, HeadersOf;
  }

  /** The handshake has succeeded. */
  lemma {:induction false} SecureKeeps(c: Config, s: State, streams: seq<Stream>, me: Exchange)
    requires Inv(c, s, streams, me) && s.phase.Handshake?
    ensures s.sock.Some? && s.sock.value < |streams| && !streams[s.sock.value].origin.policy.Plain?
    ensures Inv(c, s.(phase := Send), streams[s.sock.value := Secured(streams[s.sock.value])], me)
  {
    hide F.FrameOf, Requests, Responses, Whole, StatusOf, HeadersOf;
  }

  function Secured(s: Stream): (t: Stream) {
    s.(secured := true)
  }

  lemma {:induction false} LinkFacts(c: Config, s: State, streams: seq<Stream>, me: Exchange)
    requires Inv(c, s, streams, me) && s.sock.Some?
    ensures s.sock.value < |streams| && Linked(c, s.phase, streams[s.sock.value])
  {
    hide F.FrameOf, Aligned, StatusOf, HeadersOf, Linked;
  }

  lemma {:induction false} OwnKey(c: Config, s: State, streams: seq<Stream>, me: Exchange)
    requires Inv(c, s, streams, me)
    ensures c.key == Key(c.origin.host, c.origin.port, Scheme(c.origin.policy))
  {
    hide F.FrameOf, Aligned, StatusOf, HeadersOf, Linked;
  }

  lemma {:induction false} OpeningFacts(c: Config, s: State, streams: seq<Stream>, me: Exchange)
    requires Inv(c, s, streams, me)
    ensures s.phase.Connect? || s.phase.Connecting? || s.phase.Handshake? ==>
              s.request == "" && s.sendOff == 0 && s.response == "" && !s.usedPooled
  {
    hide F.FrameOf, Aligned, StatusOf, HeadersOf, Linked;
  }

  lemma {:induction false} ProperOf(idle: map<string, seq<Pooled>>, streams: seq<Stream>, c: nat)
    requires PoolOk(idle, streams) && c < |streams|
    ensures Proper(streams[c])
  {
    hide QueueOk, Proper;
  }

  lemma {:induction false} DeadlineKeeps(c: Config, s: State, deadline: int, streams: seq<Stream>, me: Exchange)
    requires Inv(c, s, streams, me)
    ensures Inv(c, s.(deadline := deadline), streams, me)
  {
    hide F.FrameOf, Aligned, StatusOf, HeadersOf;
  }

  lemma {:induction false} BuildKeeps(c: Config, s: State, streams: seq<Stream>, me: Exchange)
    requires Inv(c, s, streams, me) && s.phase.Send? && s.request == ""
    ensures Inv(c, s.(request := c.wire), streams, me)
  {
    hide F.FrameOf, Aligned, StatusOf, HeadersOf;
    assert s.request[..0] == c.wire[..0];
  }

  lemma {:induction false} RequestIsWire(c: Config, s: State, streams: seq<Stream>, me: Exchange)
    requires Inv(c, s, streams, me) && s.request != ""
    ensures s.request == c.wire && s.sendOff <= |s.request|
  {
    hide F.FrameOf, Aligned, StatusOf, HeadersOf;
  }

  /** Bytes of the `left` ones that the socket took. */
  function Taken(n: nat, left: nat): (k: nat) {
    if n == 0 then if left == 0 then 0 else 1 else if n > left then left else n
  }

  function SentMore(s: State, n: nat): (t: State)
    requires s.sendOff + n <= |s.request| && s.puts != [] && s.sock.Some?
  {
    s.(sendOff := s.sendOff + n,
       puts := s.puts[|s.puts| - 1 := Put(s.sock.value, s.request[..s.sendOff + n])])
  }

  function SentOn(s: Stream, bytes: string): (t: Stream) {
    s.(sent := s.sent + bytes)
  }

  function ReadOff(s: Stream, bytes: string): (t: Stream) {
    s.(received := s.received + bytes)
  }

  lemma {:induction false} AlignedSend(s: Stream, key: string, out: string, incoming: string, bytes: string)
    requires Aligned(s, key, out, incoming)
    ensures Aligned(SentOn(s, bytes), key, out + bytes, incoming)
  {
    hide F.FrameOf, Requests, Responses;
    Assoc(Requests(s.served), out, bytes);
  }

  lemma {:induction false} AlignedRead(s: Stream, key: string, out: string, incoming: string, bytes: string)
    requires Aligned(s, key, out, incoming)
    ensures Aligned(ReadOff(s, bytes), key, out, incoming + bytes)
  {
    hide F.FrameOf, Requests, Responses;
    Assoc(Responses(s.served), incoming, bytes);
  }

  lemma {:induction false} WriteKeeps(c: Config, s: State, n: nat, streams: seq<Stream>, me: Exchange)
    requires Inv(c, s, streams, me) && s.phase.Send? && s.sendOff + n <= |s.request| && s.request == c.wire
    ensures s.puts != []
    ensures var i := s.sock.value;
            Inv(c, SentMore(s, n), streams[i := SentOn(streams[i], s.request[s.sendOff..s.sendOff + n])], me)
  {
    hide F.FrameOf, Aligned, StatusOf, HeadersOf;
    var i, bytes := s.sock.value, s.request[s.sendOff..s.sendOff + n];
    AlignedSend(streams[i], c.key, s.request[..s.sendOff], s.response, bytes);
    assert s.request[..s.sendOff] + bytes == s.request[..s.sendOff + n];
  }

  lemma {:induction false} ReadKeeps(c: Config, s: State, bytes: string, streams: seq<Stream>, me: Exchange)
    requires Inv(c, s, streams, me) && s.phase.Read?
    ensures var i := s.sock.value;
            Inv(c, s.(response := s.response + bytes), streams[i := ReadOff(streams[i], bytes)], me)
  {
    hide F.FrameOf, Aligned, StatusOf, HeadersOf;
    var i := s.sock.value;
    AlignedRead(streams[i], c.key, s.request[..s.sendOff], s.response, bytes);
  }

  /** The response is complete: the frame found, and the peer's close if it took
      one to find it. */
  function Framed(s: State, closed: bool, f: F.Frame): (t: State)
    requires f.Complete?
  {
    s.(frame := f, peerClosed := closed)
  }

  function Finish(s: State, closed: bool, f: F.Frame): (t: State)
    requires f.Complete?
  {
    match StatusOf(s.response)
    case None => Ended(Framed(s, closed, f), Error(502, InvalidResponse))
    case Some(status) => Ended(Framed(s, closed, f), Response(status, HeadersOf(s.response), f.body))
  }

  lemma {:induction false} FinishKeeps(c: Config, s: State, closed: bool, streams: seq<Stream>, me: Exchange)
    requires Inv(c, s, streams, me) && s.phase.Read?
    requires F.FrameOf(s.response, closed, c.maxResponse).Complete?
    ensures Inv(c, Finish(s, closed, F.FrameOf(s.response, closed, c.maxResponse)), streams, me)
  {
    hide F.FrameOf, Aligned, StatusOf, HeadersOf;
  }

  // ----------------------------------------------------------- reuse, pairing

  function ServedOn(s: Stream, pair: Served): (t: Stream) {
    s.(served := s.served + [pair], place := Idle)
  }

  /** After a finished exchange the connection is aligned again, with whatever was
      read past the response as leftover. */
  lemma {:induction false} AlignedReuse(s: Stream, key: string, wire: string, response: string, maxResponse: nat)
    requires Aligned(s, key, wire, response) && F.FrameOf(response, false, maxResponse).Complete?
    ensures var end := F.FrameOf(response, false, maxResponse).bodyEnd;
            && end <= |response| && Aligned(ServedOn(s, Served(wire, response[..end], maxResponse)), key, "", response[end..])
            && (F.FrameOf(response, false, maxResponse).keepalive ==>
                  LastSaidKeep(ServedOn(s, Served(wire, response[..end], maxResponse))))
  {
    hide F.FrameOf;
    F.FrameBounds(response, maxResponse);
    var end := F.FrameOf(response, false, maxResponse).bodyEnd;
    var image, left := response[..end], response[end..];
    assert response == image + left;
    F.FrameRetracts(image, left, maxResponse);
    var pair := Served(wire, image, maxResponse);
    var served := s.served + [pair];
    assert served[..|served| - 1] == s.served;
    Assoc(Responses(s.served), image, left);
  }

  predicate QueueFull(idle: map<string, seq<Pooled>>, key: string) {
    key in idle && |idle[key]| >= MAX_IDLE_PER_UPSTREAM
  }

  predicate Reusable(s: State) {
    s.result.Response? && s.sock.Some? && s.frame.Complete? && s.frame.keepalive && !s.peerClosed
  }

  lemma {:induction false} ReuseFacts(c: Config, s: State, streams: seq<Stream>, me: Exchange)
    requires Inv(c, s, streams, me) && s.phase.Done? && Reusable(s)
    ensures s.sock.value < |streams| && streams[s.sock.value].place == Held(me) && s.frame.bodyEnd <= |s.response|
    ensures var end := s.frame.bodyEnd;
            var done := ServedOn(streams[s.sock.value], Served(c.wire, s.response[..end], c.maxResponse));
            Aligned(done, c.key, "", s.response[end..]) && LastSaidKeep(done) && streams[s.sock.value].sent != ""
  {
    hide F.FrameOf, Aligned, StatusOf, HeadersOf, LastSaidKeep;
    assert s.request[..s.sendOff] == c.wire;
    AlignedReuse(streams[s.sock.value], c.key, c.wire, s.response, c.maxResponse);
    SentAll(streams[s.sock.value], c.key, c.wire, s.response);
  }

  lemma {:induction false} SentAll(s: Stream, key: string, out: string, incoming: string)
    requires Aligned(s, key, out, incoming) && out != ""
    ensures s.sent != ""
  {
    hide Whole, Requests, Responses;
  }

  lemma {:induction false} ReturnKeeps(c: Config, s: State, streams: seq<Stream>, after: seq<Stream>, me: Exchange)
    requires Inv(c, s, streams, me) && s.phase.Done? && NoneHeld(after, me)
    ensures Inv(c, s.(sock := None), after, me)
  {
    hide F.FrameOf, Aligned, StatusOf, HeadersOf;
  }

  /** The responses the backend put on the connection, in order. */
  predicate Answers(answers: seq<string>, served: seq<Served>) {
    forall i :: 0 <= i < |answers| && i < |served| ==> F.IsResponse(answers[i], served[i].maxResponse)
  }

  lemma {:induction false} ResponsesSnoc(served: seq<Served>)
    requires served != []
    ensures Responses(served) == served[0].response + Responses(served[1..])
  {
    var n := |served| - 1;
    if n == 0 {
      assert served[..0] == [];
    } else {
      ResponsesSnoc(served[..n]);
      assert served[..n][1..] == served[1..][..n - 1];
      Assoc(served[0].response, Responses(served[1..][..n - 1]), served[n].response);
    }
  }

  lemma {:induction false} FirstAnswer(image: string, more: string, answer: string, rest: string, maxResponse: nat)
    requires Whole(Served("", image, maxResponse)) && F.IsResponse(answer, maxResponse)
    requires image + more <= answer + rest
    ensures image == answer
  {
    hide F.FrameOf;
    var stream := answer + rest;
    var tail := stream[|image|..];
    assert stream == image + tail;
    F.FrameBounds(image, maxResponse);
    F.VerdictIsFinal(image, tail, maxResponse);
    F.ExtensionIsIgnored(answer, rest, maxResponse);
    assert stream[..|image|] == image && stream[..|answer|] == answer;
  }

  /** Pairing: on a connection aligned with its finished pairs, the k-th pair holds
      the k-th response the backend sent, for every k and any cut into reads. */
  lemma {:induction false} KthPairHoldsKthAnswer(served: seq<Served>, incoming: string, answers: seq<string>)
    requires forall i :: 0 <= i < |served| ==> Whole(served[i])
    requires Answers(answers, served)
    requires Responses(served) + incoming <= Concat(answers)
    ensures |served| <= |answers|
    ensures forall i :: 0 <= i < |served| ==> served[i].response == answers[i]
    decreases |served|
  {
    hide Whole, F.IsResponse;
    if served != [] {
      ResponsesSnoc(served);
      var more := Responses(served[1..]) + incoming;
      Assoc(served[0].response, Responses(served[1..]), incoming);
      WholeIsNotEmpty(served[0]);
      FirstAnswerOf(served[0], more, answers);
      assert Concat(answers)[|answers[0]|..] == Concat(answers[1..]);
      assert (served[0].response + more)[|answers[0]|..] == more;
      forall i | 0 <= i < |answers[1..]| && i < |served[1..]|
        ensures F.IsResponse(answers[1..][i], served[1..][i].maxResponse)
      {
        assert F.IsResponse(answers[i + 1], served[i + 1].maxResponse);
      }
      KthPairHoldsKthAnswer(served[1..], incoming, answers[1..]);
      forall i | 0 <= i < |served|
        ensures served[i].response == answers[i]
      {
        if i > 0 {
          assert served[1..][i - 1].response == answers[1..][i - 1];
        }
      }
    }
  }

  /** So a pooled connection has seen only its own upstream's requests, in order,
      each paired with the backend's answer of the same number. */
  lemma {:induction false} PooledPairs(idle: map<string, seq<Pooled>>, streams: seq<Stream>, key: string, k: nat, answers: seq<string>)
    requires PoolOk(idle, streams) && key in idle && k < |idle[key]| && idle[key][k].conn < |streams|
    requires var s := streams[idle[key][k].conn];
             Answers(answers, s.served) && s.received <= Concat(answers)
    ensures var s := streams[idle[key][k].conn];
            && s.key == key && s.sent == Requests(s.served) && |s.served| <= |answers|
            && forall i :: 0 <= i < |s.served| ==> s.served[i].response == answers[i]
  {
    hide Whole, F.IsResponse;
    var e := idle[key][k];
    assert QueueOk(key, idle[key], streams) && EntryOk(key, e, streams);
    var s := streams[e.conn];
    assert Requests(s.served) + "" == Requests(s.served);
    KthPairHoldsKthAnswer(s.served, e.leftover, answers);
  }

  lemma {:induction false} WholeIsNotEmpty(s: Served)
    requires Whole(s)
    ensures s.response != ""
  {
    hide F.FrameOf;
    F.FrameBounds(s.response, s.maxResponse);
  }

  lemma {:induction false} FirstAnswerOf(s: Served, more: string, answers: seq<string>)
    requires Whole(s) && s.response != "" && s.response + more <= Concat(answers)
    requires answers != [] ==> F.IsResponse(answers[0], s.maxResponse)
    ensures answers != [] && s.response == answers[0]
  {
    hide F.IsResponse, F.FrameOf;
    assert answers != [];
    FirstAnswer(s.response, more, answers[0], Concat(answers[1..]), s.maxResponse);
  }

  // --------------------------------------------------------------- progress

  /** The next answer of the socket, or `idle` when there is none. */
  function NextOf(io: seq<Io>, idle: Io): (o: Io) {
    if io == [] then idle else io[0]
  }

  function RestOf(io: seq<Io>): (r: seq<Io>) {
    if io == [] then [] else io[1..]
  }

  /** How a connection will be had, and the answers left then. */
  datatype Way = Fresh(io: seq<Io>) | Alive(conn: nat, leftover: string, io: seq<Io>) | Blocked

  /** The peer of a pooled connection has closed it. */
  predicate Dead(io: seq<Io>) {
    io != [] && (io[0].Eof? || io[0].Failed?)
  }

  /** The oldest connection in the pool that has not expired is taken, unless its peer
      has closed it; without one, and on a second attempt, a new one is opened, if
      the kernel has a number for it. */
  function WayFor(c: Config, retried: bool, idle: map<string, seq<Pooled>>, expiry: int, io: seq<Io>, free: bool): (w: Way) {
    var live := if !retried && c.key in idle then Unexpired(idle[c.key], expiry) else [];
    if live != [] && !Dead(io) then Alive(live[0].conn, live[0].leftover, RestOf(io))
    else if free then Fresh(if live == [] then io else RestOf(io))
    else Blocked
  }

  lemma {:induction false} FirstAttempt(c: Config, retried: bool, idle: map<string, seq<Pooled>>, expiry: int, io: seq<Io>, free: bool)
    ensures WayFor(c, retried, idle, expiry, io, free).Alive? ==> !retried
  {
  }

  /** What opening a connection comes to, and the answers left. */
  datatype Dial = Reached(phase: Phase, io: seq<Io>) | Refused(io: seq<Io>)

  /** An established connection goes to the handshake exactly under TLS, and needs a
      TLS context for it; any other is ready to send. */
  function Established(c: Config, io: seq<Io>): (d: Dial) {
    if c.origin.policy.Plain? then Reached(Send, io)
    else if NextOf(io, Ok).Ok? then Reached(Handshake, RestOf(io))
    else Refused(RestOf(io))
  }

  function Dialed(c: Config, io: seq<Io>): (d: Dial) {
    match NextOf(io, InProgress)
    case Ok => Established(c, RestOf(io))
    case InProgress => Reached(Connecting, RestOf(io))
    case _ => Refused(RestOf(io))
  }

  function Confirmed(c: Config, io: seq<Io>): (d: Dial) {
    if NextOf(io, Ok).Ok? then Established(c, RestOf(io)) else Refused(RestOf(io))
  }

  /** A turn that opens a connection, or fails to. */
  predicate Dials(c: Config, d: Dial, t: State, io': seq<Io>, now': int, step: Option<Want>) {
    io' == d.io &&
    match d
    case Reached(phase, _) =>
      t.phase == phase && t.request == "" && t.sendOff == 0 && t.response == "" && Refreshed(c, t, now', step)
    case Refused(_) => t.phase.Done? && t.result == Error(502, ConnectFailed)
  }

  /** Nothing has moved, but the deadline. */
  predicate Waits(c: Config, s: State, t: State, now': int) {
    t.phase == s.phase && t.sendOff == s.sendOff && t.response == s.response && t.deadline == now' + c.timeout
  }

  /** The connection came from the pool, and the request may be sent again. */
  predicate MayReplay(c: Config, s: State) {
    s.usedPooled && c.idempotent && !s.retried
  }

  /** A failure starts the exchange over once, if it is idempotent and the connection
      came from the pool; otherwise it ends it. */
  predicate Fails(c: Config, s: State, t: State, error: BackendError, now': int, step: Option<Want>) {
    if MayReplay(c, s) then t == Replayed(s, now' + c.timeout) && step.None?
    else t.phase.Done? && t.result == Error(CodeOf(error), error)
  }

  /** The peer has closed: that ends a response framed by it, and fails any other. */
  predicate ClosedBy(c: Config, s: State, t: State, now': int, step: Option<Want>) {
    if ClosedFrame(c, s).Complete? then t == Finish(s, true, ClosedFrame(c, s)) else Fails(c, s, t, ReadFailed, now', step)
  }

  /** Only a turn that takes a connection changes where it came from, or one that starts
      over. */
  predicate Carried(s: State, t: State, way: Way) {
    if s.phase.Connect? then !t.phase.Done? ==> t.usedPooled == way.Alive? && t.retried == s.retried
    else if t.phase.Connect? then !t.usedPooled
    else t.usedPooled == s.usedPooled && t.retried == s.retried
  }

  /** A turn that writes, by the answer of the socket. */
  predicate Sends(c: Config, s: State, o: Io, t: State, now': int, step: Option<Want>)
    requires s.sendOff < |c.wire|
  {
    match o
    case Wrote(n) =>
      && t.phase.Send? && t.sendOff == s.sendOff + Taken(n, |c.wire| - s.sendOff)
      && t.response == s.response && Refreshed(c, t, now', step)
    case Interrupted => t == s.(request := c.wire) && step.None?
    case WantRead => Waits(c, s, t, now') && step == Some(if UsesTls(c) then ForRead else ForWrite)
    case WantWrite => Waits(c, s, t, now') && step == Some(ForWrite)
    case _ => Fails(c, s, t, WriteFailed, now', step)
  }

  /** What a turn does, as the phase, the answers of the socket, the event and the way
      to a connection decide it. */
  predicate Progressed(c: Config, s: State, io: seq<Io>, t: State, io': seq<Io>, now': int, step: Option<Want>, event: bool, way: Way) {
    match s.phase
    case Connect =>
      (match way
       case Fresh(io0) => Dials(c, Dialed(c, io0), t, io', now', step)
       case Alive(conn, leftover, io0) =>
         t == Opened(s, conn, true, leftover, Send).(deadline := now' + c.timeout) && io' == io0 && step.None?
       case Blocked => true)
    case Connecting =>
      if event then Dials(c, Confirmed(c, io), t, io', now', step)
      else t == s && io' == io && step == Some(ForWrite)
    case Handshake =>
      io' == RestOf(io) &&
      (match NextOf(io, WantRead)
       case Ok => t.phase.Send? && t.request == "" && t.sendOff == 0 && t.response == "" && Refreshed(c, t, now', step)
       case WantRead => Waits(c, s, t, now') && step == Some(ForRead)
       case WantWrite => Waits(c, s, t, now') && step == Some(ForWrite)
       case _ => t.phase.Done? && t.result == Error(502, ConnectFailed))
    case Send =>
      if s.sendOff >= |c.wire| then
        t.phase.Read? && t.sendOff == s.sendOff && t.response == s.response && io' == io && Refreshed(c, t, now', step)
      else
        io' == RestOf(io) && Sends(c, s, NextOf(io, WantWrite), t, now', step)
    case Read =>
      var f := F.FrameOf(s.response, false, c.maxResponse);
      if f.Complete? then t == Finish(s, false, f) && io' == io
      else if f.Error? then Fails(c, s, t, InvalidResponse, now', step) && io' == io
      else if |s.response| > c.maxResponse then Fails(c, s, t, ReadFailed, now', step) && io' == io
      else
        io' == RestOf(io) &&
        (match NextOf(io, WantRead)
         case Got(data) =>
           if data == "" then ClosedBy(c, s, t, now', step)
           else t.phase.Read? && t.response == s.response + data && Refreshed(c, t, now', step)
         case Eof => ClosedBy(c, s, t, now', step)
         case Interrupted => t == s && step.None?
         case WantRead => Waits(c, s, t, now') && step == Some(ForRead)
         case WantWrite => Waits(c, s, t, now') && step == Some(if UsesTls(c) then ForWrite else ForRead)
         case _ => Fails(c, s, t, ReadFailed, now', step))
    case Done => true
  }

  /** What a socket that is not ready is to be waited for: under TLS what it asks for,
      otherwise what the exchange is doing. */
  function Awaited(c: Config, s: State, io: seq<Io>): (want: Want) {
    match s.phase
    case Handshake => if NextOf(io, WantRead).WantWrite? then ForWrite else ForRead
    case Send => if !c.origin.policy.Plain? && NextOf(io, WantWrite).WantRead? then ForRead else ForWrite
    case Read => if !c.origin.policy.Plain? && NextOf(io, WantRead).WantWrite? then ForWrite else ForRead
    case _ => ForWrite
  }

  /** A turn that waits, waits for exactly that. */
  lemma {:induction false} WaitsForWhatIsAsked(c: Config, s: State, io: seq<Io>, t: State, io': seq<Io>, now': int,
        step: Option<Want>, event: bool, way: Way)
    requires Progressed(c, s, io, t, io', now', step, event, way) && step.Some? && step.value != Finished
    requires !s.phase.Connect? && !s.phase.Done? && !t.phase.Done?
    ensures step.value == Awaited(c, s, io)
  {
    hide F.FrameOf, StatusOf;
  }

  /** The answers left once `left` bytes have been sent. */
  function AfterSend(left: nat, io: seq<Io>): (r: Option<seq<Io>>)
    decreases |io|
  {
    if left == 0 then Some(io)
    else if io == [] || !io[0].Wrote? then None
    else AfterSend(left - Taken(io[0].n, left), io[1..])
  }

  /** The bytes that the reads in front bring; none of them is empty. */
  function Payload(io: seq<Io>): (r: string) {
    if io == [] || !io[0].Got? || io[0].data == "" then "" else io[0].data + Payload(io[1..])
  }

  /** Behind the reads in front, the peer closes. */
  predicate ClosesBehind(io: seq<Io>) {
    io != [] && (io[0].Eof? || (io[0].Got? && (io[0].data == "" || ClosesBehind(io[1..]))))
  }

  /** The reads in front complete `answer`, and `rest` is what they bring behind it. A
      response that is ended by a close ends there. */
  predicate Brings(maxResponse: nat, response: string, io: seq<Io>, answer: string, rest: string) {
    && response + Payload(io) == answer + rest
    && (F.IsClosing(answer, maxResponse) ==> rest == "" && ClosesBehind(io))
  }

  function Shaken(c: Config, io: seq<Io>): (r: Option<seq<Io>>) {
    if io != [] && io[0].Ok? then AfterSend(|c.wire|, io[1..]) else None
  }

  /** The answers left once a connection is opened, a handshake has succeeded and the
      socket has taken the request. */
  function AfterDial(c: Config, d: Dial): (r: Option<seq<Io>>) {
    match d
    case Reached(Send, io) => AfterSend(|c.wire|, io)
    case Reached(Handshake, io) => Shaken(c, io)
    case _ => None
  }

  /** A connection opened by `d` will take the request and then bring `answer`. */
  predicate Reaches(c: Config, d: Dial, answer: string, rest: string) {
    AfterDial(c, d).Some? && Brings(c.maxResponse, "", AfterDial(c, d).value, answer, rest)
  }

  /** A new connection will. */
  predicate Opens(c: Config, io: seq<Io>, answer: string, rest: string) {
    Reaches(c, Dialed(c, io), answer, rest)
  }

  /** The connection will bring `answer`; or it turns out closed before the first byte,
      the request may be sent `again`, and a new connection will bring it. */
  predicate Reading(c: Config, response: string, io: seq<Io>, again: bool, answer: string, rest: string) {
    || Brings(c.maxResponse, response, io, answer, rest)
    || (again && response == "" && Dead(io) && Opens(c, io[1..], answer, rest))
  }

  /** The same while `left` bytes are still to be sent. */
  predicate Sending(c: Config, left: nat, response: string, io: seq<Io>, again: bool, answer: string, rest: string)
    decreases |io|
  {
    if left == 0 then Reading(c, response, io, again, answer, rest)
    else if io == [] then false
    else if io[0].Wrote? then Sending(c, left - Taken(io[0].n, left), response, io[1..], again, answer, rest)
    else io[0].Failed? && again && Opens(c, io[1..], answer, rest)
  }

  /** The connection that will be had brings `answer` in the end. */
  predicate Begins(c: Config, way: Way, answer: string, rest: string) {
    match way
    case Fresh(io) => Opens(c, io, answer, rest)
    case Alive(_, leftover, io) => Sending(c, |c.wire|, leftover, io, c.idempotent, answer, rest)
    case Blocked => false
  }

  /** The socket will take the rest of the request and then bring `answer`; a connection
      under way is opened by an event. */
  predicate OnTrack(c: Config, s: State, io: seq<Io>, event: bool, way: Way, answer: string, rest: string) {
    match s.phase
    case Connect => Begins(c, way, answer, rest)
    case Connecting => event && Reaches(c, Confirmed(c, io), answer, rest)
    case Handshake => Shaken(c, io).Some? && Brings(c.maxResponse, "", Shaken(c, io).value, answer, rest)
    case Send =>
      s.sendOff <= |c.wire| && Sending(c, |c.wire| - s.sendOff, s.response, io, MayReplay(c, s), answer, rest)
    case Read => Reading(c, s.response, io, MayReplay(c, s), answer, rest)
    case Done => false
  }

  /** The exchange ended with exactly `answer`, and kept all it read beyond it. */
  predicate Answered(c: Config, s: State, answer: string, rest: string)
    requires F.FrameFor(answer, c.maxResponse).Complete?
  {
    && s.phase.Done? && answer <= s.response && s.response[|answer|..] <= rest
    && s.frame == F.FrameFor(answer, c.maxResponse)
    && s.result == match StatusOf(s.response)
                   case None => Error(502, InvalidResponse)
                   case Some(status) => Response(status, HeadersOf(s.response), F.FrameFor(answer, c.maxResponse).body)
  }

  // ------------------------------------------------------ what an answer means

  /** `r` is the response `answer`, with its status, header map and body. */
  predicate Reports(answer: string, maxResponse: nat, r: Result) {
    && r.Response? && StatusOf(answer) == Some(r.status) && r.headers == HeadersOf(answer)
    && F.FrameFor(answer, maxResponse).Complete? && r.body == F.FrameFor(answer, maxResponse).body
  }

  lemma {:induction false} StatusExtends(answer: string, more: string)
    requires StatusOf(answer).Some?
    ensures StatusOf(answer + more) == StatusOf(answer)
  {
    hide Stoi;
    var a := FindChar(answer, ' ', 0).value;
    var b := FindChar(answer, ' ', a + 1).value;
    CharExtends(answer, more, ' ', 0);
    CharExtends(answer, more, ' ', a + 1);
    assert (answer + more)[a + 1..b] == answer[a + 1..b];
  }

  lemma {:induction false} CharExtends(s: string, more: string, c: char, from: nat)
    requires FindChar(s, c, from).Some?
    ensures FindChar(s + more, c, from) == FindChar(s, c, from)
    decreases |s| - from
  {
    if s[from] != c {
      CharExtends(s, more, c, from + 1);
    }
  }

  /** An exchange that ended with `answer` reports it. */
  lemma {:induction false} AnsweredReports(c: Config, s: State, answer: string, rest: string)
    requires F.IsAnswer(answer, c.maxResponse) && F.FrameFor(answer, c.maxResponse).Complete?
    requires Answered(c, s, answer, rest) && StatusOf(answer).Some?
    ensures Reports(answer, c.maxResponse, s.result)
  {
    hide F.FrameOf, F.DelimiterOf, StatusOf, R.HeaderMap, FindBlankLine;
    var more := s.response[|answer|..];
    assert s.response == answer + more;
    StatusExtends(answer, more);
    if F.IsResponse(answer, c.maxResponse) {
      F.FrameBounds(answer, c.maxResponse);
    }
    F.BlankLineExtends(answer, more);
    var h := FindBlankLine(answer, 0).value;
    assert (answer + more)[..h] == answer[..h];
  }

  function StatusLine(version: string, code: nat, reason: string): (s: string) {
    version + " " + Decimal(code) + " " + reason
  }

  /** Of a printed response the status is the number behind the version. */
  lemma {:induction false} StatusOfPrinted(version: string, code: nat, reason: string, lines: seq<string>, body: string)
    requires (forall i :: 0 <= i < |version| ==> version[i] != ' ') && code <= 0x7FFF_FFFF
    ensures StatusOf(P.Printed(StatusLine(version, code, reason), lines, body)) == Some(code)
  {
    hide StatusOf, P.LineEnd, P.Printed, Decimal;
    var status, rest := StatusLine(version, code, reason), P.LineEnd(lines, body);
    P.PrintedFrom(status, lines, body);
    assert version + " " + Decimal(code) + " " + (reason + rest) == status + rest;
    StatusOfLine(version, code, reason + rest);
  }

  /** Its header map is the printed lines stored one after the other. */
  lemma {:induction false} HeadersOfPrinted(status: string, lines: seq<string>, body: string)
    requires P.LineOk(status) && P.LinesOk(lines)
    ensures HeadersOf(P.Printed(status, lines, body)) == R.StoreAll(map[], lines)
  {
    hide FindBlankLine, P.Head, P.Printed, R.HeaderMap;
    P.HeadFound(status, lines, body);
    HeadMap(status, lines);
  }

  lemma {:induction false} HeadMap(status: string, lines: seq<string>)
    requires P.LineOk(status) && P.LinesOk(lines)
    ensures R.HeaderMap(P.Head(status, lines)) == R.StoreAll(map[], lines)
  {
    P.LineIsCrlfFree(status);
    forall i | 0 <= i < |lines|
      ensures N.CrlfFree(lines[i]) && lines[i] != ""
    {
      P.LineIsCrlfFree(lines[i]);
    }
    R.HeaderMapIsLines(status, lines);
  }

  lemma {:induction false} StatusOfLine(version: string, code: nat, rest: string)
    requires (forall i :: 0 <= i < |version| ==> version[i] != ' ') && code <= 0x7FFF_FFFF
    ensures StatusOf(version + " " + Decimal(code) + " " + rest) == Some(code)
  {
    var s, a, d := version + " " + Decimal(code) + " " + rest, |version|, Decimal(code);
    CharAt(s, ' ', 0, a);
    assert s[a + 1..a + 1 + |d|] == d;
    forall i | a + 1 <= i < a + 1 + |d|
      ensures s[i] != ' '
    {
      assert s[i] == d[i - a - 1] && IsDigit(d[i - a - 1]);
    }
    CharAt(s, ' ', a + 1, a + 1 + |d|);
    StoiOfDecimal(code);
  }

  lemma {:induction false} CharAt(s: string, c: char, from: nat, i: nat)
    requires from <= i < |s| && s[i] == c && forall j :: from <= j < i ==> s[j] != c
    ensures FindChar(s, c, from) == Some(i)
  {
    FindCharIsFirst(s, c, from, i);
  }

  lemma {:induction false} StoiOfDecimal(n: nat)
    requires n <= 0x7FFF_FFFF
    ensures Stoi(Decimal(n)) == Some(n)
  {
    var d := Decimal(n);
    AllAreDigits(d, 0);
    DecimalRoundTrip(n);
    assert IsDigit(d[0]);
    assert d[0..|d|] == d;
  }

  lemma {:induction false} AllAreDigits(s: string, i: nat)
    requires i <= |s| && AllDigits(s)
    ensures DigitsFrom(s, i) == |s| - i
    decreases |s| - i
  {
    if i < |s| {
      AllAreDigits(s, i + 1);
    }
  }

  /** No connection in the pool was told to close by its last response. */
  lemma {:induction false} PooledStays(idle: map<string, seq<Pooled>>, streams: seq<Stream>, key: string, k: nat,
        status: string, lines: seq<string>, body: string)
    requires PoolOk(idle, streams) && key in idle && k < |idle[key]| && idle[key][k].conn < |streams|
    requires P.LineOk(status) && P.LinesOk(lines)
    requires var served := streams[idle[key][k].conn].served;
             served != [] ==> served[|served| - 1].response == P.Printed(status, lines, body)
    ensures streams[idle[key][k].conn].served != [] && P.Stays(status, lines)
  {
    hide F.FrameOf, Aligned, P.Stays, P.Printed;
    var e := idle[key][k];
    assert QueueOk(key, idle[key], streams) && EntryOk(key, e, streams);
    var served := streams[e.conn].served;
    P.FrameStays(status, lines, body, served[|served| - 1].maxResponse);
  }

  /** A connection filed under the key of an upstream that asks for TLS has carried
      nothing before its handshake, and was opened under that very policy unless a
      policy string holds a '|'. */
  lemma {:induction false} SecuredForItsUpstream(s: Stream, host: string, port: nat, p: Policy)
    requires Proper(s) && s.key == Key(host, port, Scheme(p)) && !p.Plain?
    requires C.Free(host, '|') && C.Free(s.origin.host, '|')
    ensures !s.origin.policy.Plain? && (s.sent != "" ==> s.secured)
    ensures C.BarFree(p) ==> s.origin == Origin(host, port, p)
  {
    C.KeyParts(host, port, p, s.origin.host, s.origin.port, s.origin.policy);
    if C.BarFree(p) {
      C.KeyIsInjective(host, port, p, s.origin.host, s.origin.port, s.origin.policy);
    }
  }

  lemma {:induction false} OnTrackPhase(c: Config, s: State, io: seq<Io>, event: bool, way: Way, answer: string, rest: string)
    ensures OnTrack(c, s, io, event, way, answer, rest) ==> !s.phase.Done?
    ensures F.FrameFor(answer, c.maxResponse).Complete? && Answered(c, s, answer, rest) ==> s.phase.Done?
  {
    hide F.FrameOf, Reading, Sending, Begins, Reaches, StatusOf;
  }

  lemma {:induction false} TrackIsClear(c: Config, s: State, io: seq<Io>, event: bool, way: Way, answer: string, rest: string)
    requires OnTrack(c, s, io, event, way, answer, rest) && s.phase.Read? && F.IsAnswer(answer, c.maxResponse) && c.maxResponse + 1 < SIZE_MAX
    ensures !F.Astray(s.response, c.maxResponse)
  {
    hide F.IsResponse, F.IsClosing, Opens, F.DelimiterOf;
    if Brings(c.maxResponse, s.response, io, answer, rest) {
      if F.IsResponse(answer, c.maxResponse) {
        L.ResponseIsClear(s.response, Payload(io), answer, rest, c.maxResponse);
      } else {
        assert s.response == (answer + rest)[..|s.response|] == answer[..|s.response|];
        F.ClosingIsIncomplete(answer, |s.response|, c.maxResponse);
      }
    }
  }

  /** On track without a second attempt. */
  lemma {:induction false} SendingFrom(c: Config, left: nat, response: string, io: seq<Io>, again: bool, answer: string, rest: string)
    requires AfterSend(left, io).Some? && Brings(c.maxResponse, response, AfterSend(left, io).value, answer, rest)
    ensures Sending(c, left, response, io, again, answer, rest)
    decreases |io|
  {
    hide Brings, Opens;
    if left != 0 {
      SendingFrom(c, left - Taken(io[0].n, left), response, io[1..], again, answer, rest);
    }
  }

  /** Still on track after a turn: ahead of the deadline, and if the exchange starts
      over, with a new connection. */
  predicate Onward(c: Config, s: State, t: State, io: seq<Io>, now': int, step: Option<Want>, answer: string, rest: string) {
    && OnTrack(c, t, io, false, Fresh(io), answer, rest) && Refreshed(c, t, now', step)
    && (t.phase.Connect? ==> t.retried && s.usedPooled) && (t.usedPooled ==> s.phase.Connect? || s.usedPooled)
  }

  lemma {:induction false} TrackDial(c: Config, s: State, d: Dial, t: State, io': seq<Io>, now': int,
        step: Option<Want>, answer: string, rest: string)
    requires Reaches(c, d, answer, rest) && Dials(c, d, t, io', now', step) && (t.phase.Done? || !t.usedPooled)
    ensures Onward(c, s, t, io', now', step, answer, rest)
  {
    hide Brings, AfterSend, Sending;
    if t.phase.Send? {
      SendingFrom(c, |c.wire|, "", io', MayReplay(c, t), answer, rest);
    }
  }

  lemma {:induction false} TrackOpen(c: Config, s: State, io: seq<Io>, t: State, io': seq<Io>, now': int,
        step: Option<Want>, event: bool, way: Way, answer: string, rest: string)
    requires OnTrack(c, s, io, event, way, answer, rest) && !s.phase.Send? && !s.phase.Read?
    requires s.response == "" && s.sendOff == 0 && (way.Alive? && s.phase.Connect? ==> !s.retried)
    requires (way.Alive? && s.phase.Connect?) || t.phase.Done? || !t.usedPooled
    requires Progressed(c, s, io, t, io', now', step, event, way)
    ensures Onward(c, s, t, io', now', step, answer, rest)
  {
    hide F.FrameOf, Brings, Payload, AfterSend, Sending, Reaches, Dials;
    if s.phase.Handshake? {
      SendingFrom(c, |c.wire|, "", io[1..], MayReplay(c, t), answer, rest);
    } else if s.phase.Connecting? {
      TrackDial(c, s, Confirmed(c, io), t, io', now', step, answer, rest);
    } else if way.Fresh? {
      TrackDial(c, s, Dialed(c, way.io), t, io', now', step, answer, rest);
    }
  }

  lemma {:induction false} TrackSend(c: Config, s: State, io: seq<Io>, t: State, io': seq<Io>, now': int,
        step: Option<Want>, event: bool, way: Way, answer: string, rest: string)
    requires OnTrack(c, s, io, event, way, answer, rest) && s.phase.Send?
    requires Progressed(c, s, io, t, io', now', step, event, way)
    requires t.phase.Send? || t.phase.Read? ==> t.usedPooled == s.usedPooled && t.retried == s.retried
    ensures Onward(c, s, t, io', now', step, answer, rest)
  {
    hide F.FrameOf, Reading, Opens;
  }

  /** A pooled connection turns out closed before the first byte. */
  lemma {:induction false} TrackStale(c: Config, s: State, io: seq<Io>, t: State, io': seq<Io>, now': int,
        step: Option<Want>, event: bool, way: Way, answer: string, rest: string)
    requires s.phase.Read? && MayReplay(c, s) && s.response == "" && Dead(io) && Opens(c, io[1..], answer, rest)
    requires Progressed(c, s, io, t, io', now', step, event, way)
    ensures Onward(c, s, t, io', now', step, answer, rest)
  {
    hide Opens;
    assert FindBlankLine("", 0) == None;
  }

  lemma {:induction false} AnswerInPart(c: Config, answer: string, k: nat)
    requires F.IsAnswer(answer, c.maxResponse) && k < |answer|
    ensures F.FrameOf(answer[..k], false, c.maxResponse) == F.Incomplete && k <= c.maxResponse
  {
    hide F.FrameOf;
    if F.IsResponse(answer, c.maxResponse) {
      F.PrefixIsIncomplete(answer, k, c.maxResponse);
    } else {
      F.ClosingIsIncomplete(answer, k, c.maxResponse);
    }
  }

  lemma {:induction false} TrackReadOn(c: Config, s: State, io: seq<Io>, t: State, io': seq<Io>, now': int,
        step: Option<Want>, event: bool, way: Way, answer: string, rest: string)
    requires Brings(c.maxResponse, s.response, io, answer, rest) && s.phase.Read? && F.IsAnswer(answer, c.maxResponse)
    requires Progressed(c, s, io, t, io', now', step, event, way) && |s.response| < |answer|
    requires t.phase.Read? ==> t.usedPooled == s.usedPooled && t.retried == s.retried
    ensures Onward(c, s, t, io', now', step, answer, rest)
  {
    hide F.FrameOf, F.IsAnswer, F.IsClosing, Finish, Opens;
    var stream := answer + rest;
    assert s.response == stream[..|s.response|] == answer[..|s.response|];
    AnswerInPart(c, answer, |s.response|);
    assert |s.response + Payload(io)| == |stream| && Payload(io) != "";
    Assoc(s.response, io[0].data, Payload(io[1..]));
  }

  lemma {:induction false} TrackReadEnd(c: Config, s: State, io: seq<Io>, t: State, io': seq<Io>, now': int,
        step: Option<Want>, event: bool, way: Way, answer: string, rest: string)
    requires Brings(c.maxResponse, s.response, io, answer, rest) && s.phase.Read? && F.IsResponse(answer, c.maxResponse)
    requires Progressed(c, s, io, t, io', now', step, event, way) && |s.response| >= |answer|
    ensures F.FrameFor(answer, c.maxResponse).Complete? && Answered(c, t, answer, rest)
  {
    hide F.FrameOf, F.IsClosing, StatusOf;
    var stream, more := answer + rest, s.response[|answer|..];
    assert s.response == stream[..|s.response|];
    assert s.response == answer + more;
    assert more <= rest by {
      assert stream[|answer|..] == rest;
      assert more == stream[|answer|..|s.response|];
    }
    F.ExtensionIsIgnored(answer, more, c.maxResponse);
    F.NotBoth(answer, c.maxResponse);
  }

  /** A response that is ended by the close, at the close. */
  lemma {:induction false} TrackClose(c: Config, s: State, io: seq<Io>, t: State, io': seq<Io>, now': int,
        step: Option<Want>, event: bool, way: Way, answer: string, rest: string)
    requires Brings(c.maxResponse, s.response, io, answer, rest) && s.phase.Read? && F.IsClosing(answer, c.maxResponse)
    requires Progressed(c, s, io, t, io', now', step, event, way) && |s.response| >= |answer|
    ensures F.FrameFor(answer, c.maxResponse).Complete? && Answered(c, t, answer, rest)
  {
    hide F.FrameOf, F.DelimiterOf, F.Keepalive, StatusOf, FindBlankLine;
    assert answer + "" == answer;
    assert s.response == answer && Payload(io) == "";
    F.ClosingIsIncomplete(answer, |answer|, c.maxResponse);
    assert answer[..|answer|] == answer;
    F.ClosingEnds(answer, c.maxResponse);
  }

  lemma {:induction false} Track(c: Config, s: State, io: seq<Io>, t: State, io': seq<Io>, now': int,
        step: Option<Want>, event: bool, way: Way, answer: string, rest: string)
    requires OnTrack(c, s, io, event, way, answer, rest) && F.IsAnswer(answer, c.maxResponse)
    requires s.phase.Connect? || s.phase.Connecting? || s.phase.Handshake? ==> s.response == "" && s.sendOff == 0 && !s.usedPooled
    requires s.phase.Connect? && way.Alive? ==> !s.retried
    requires Progressed(c, s, io, t, io', now', step, event, way) && Carried(s, t, way)
    ensures F.FrameFor(answer, c.maxResponse).Complete?
    ensures Answered(c, t, answer, rest) || Onward(c, s, t, io', now', step, answer, rest)
  {
    hide F.FrameOf, F.IsResponse, F.IsClosing, Brings, Answered, Progressed, Onward, Opens, Sending, Reaches, Begins;
    F.AnswerIsFramed(answer, c.maxResponse);
    if s.phase.Connect? || s.phase.Connecting? || s.phase.Handshake? {
      TrackOpen(c, s, io, t, io', now', step, event, way, answer, rest);
    } else if s.phase.Send? {
      TrackSend(c, s, io, t, io', now', step, event, way, answer, rest);
    } else if !Brings(c.maxResponse, s.response, io, answer, rest) {
      TrackStale(c, s, io, t, io', now', step, event, way, answer, rest);
    } else if |s.response| < |answer| {
      TrackReadOn(c, s, io, t, io', now', step, event, way, answer, rest);
    } else if F.IsResponse(answer, c.maxResponse) {
      TrackReadEnd(c, s, io, t, io', now', step, event, way, answer, rest);
    } else {
      TrackClose(c, s, io, t, io', now', step, event, way, answer, rest);
    }
  }

  /** What a close makes of the bytes read: a response framed by it, or nothing. */
  function ClosedFrame(c: Config, s: State): (f: F.Frame) {
    var h := FindBlankLine(s.response, 0);
    if h.Some? && !F.Keepalive(s.response[..h.value]) then F.FrameOf(s.response, true, c.maxResponse) else F.Incomplete
  }

  predicate Refreshed(c: Config, t: State, now: int, step: Option<Want>) {
    step.None? && t.deadline == now + c.timeout
  }

  /** The clock is read often enough for no refreshed deadline to be missed. */
  ghost predicate Prompt(delta: nat -> nat, timeout: int) {
    forall t: nat :: delta(t) < timeout
  }

  ghost predicate HasNumber(w: World)
    reads w`sockets, w`streams
  {
    w.number(w.sockets) !in OpenFds(w.streams)
  }

  /** The way to a connection for an exchange that looks for one at `now`. */
  ghost function WayAt(c: Config, s: State, w: World, pool: Pool, now: int): (way: Way)
    reads w`io, w`sockets, w`streams, pool`idle
  {
    WayFor(c, s.retried, pool.idle, now - pool.idleTimeout, w.io, HasNumber(w))
  }

  /** Nothing stands between the exchange and the response `answer`: a connection can
      be had, the socket takes the request and brings the answer, and the clock is
      read often enough. */
  ghost predicate Smooth(c: Config, s: State, w: World, pool: Pool, event: bool, answer: string, rest: string)
    reads w, pool`idle
  {
    && F.IsAnswer(answer, c.maxResponse) && Prompt(w.delta, c.timeout) && w.now + w.delta(w.tick) < s.deadline
    && OnTrack(c, s, w.io, event, WayAt(c, s, w, pool, w.now + w.delta(w.tick) + w.delta(w.tick + 1)), answer, rest)
    && (s.phase.Connect? || s.usedPooled ==> HasNumber(w))
  }

  class Exchange {
    const params: H.Params
    const order: seq<string>
    const cfg: Config

    /** The fields that change, updated in place as one record. */
    var st: State

    /** A non-positive timeout ends the exchange before it begins. */
    constructor (w: World, params: H.Params, order: seq<string>, policy: Policy, idempotent: bool, timeoutMs: int, maxResponse: nat)
      requires forall k :: k in order ==> k in params.headers
      modifies w`tick, w`now
      ensures Configured() && Inv(cfg, st, w.streams, this)
      ensures cfg.key == Key(params.host, params.port, Scheme(policy)) && cfg.origin == Origin(params.host, params.port, policy)
      ensures cfg.idempotent == idempotent
      ensures if timeoutMs <= 0 then st.phase == Done && st.result == Error(504, ConnectTimeout)
              else st.phase == Connect && st.deadline == w.now + cfg.timeout
      ensures cfg.timeout == timeoutMs * NANOS && cfg.wire == H.Image(params, order) && cfg.maxResponse == maxResponse
      ensures st.sock.None? && st.puts == [] && !st.retried && w.now == old(w.Reading(1)) && w.tick == old(w.tick) + 1
    {
      hide F.FrameOf, Aligned, StatusOf, HeadersOf;
      var now := w.Now();
      this.params, this.order := params, order;
      var wire := H.Image(params, order);
      assert wire[|params.verb|] == ' ';
      this.cfg := Config(Key(params.host, params.port, Scheme(policy)), Origin(params.host, params.port, policy), idempotent,
                         timeoutMs * NANOS, maxResponse, wire);
      this.st := State(if timeoutMs <= 0 then Done else Connect, None, false, false, "", 0, "", F.Incomplete, false,
                       if timeoutMs <= 0 then Error(504, ConnectTimeout) else Error(502, ConnectFailed),
                       now + timeoutMs * NANOS, []);
    }

    ghost predicate Configured() {
      (forall k :: k in order ==> k in params.headers) && cfg.wire == H.Image(params, order) && cfg.wire != ""
    }

    method Refresh(w: World)
      requires cfg.timeout > 0
      modifies this, w`tick, w`now
      ensures w.now >= old(w.now) && st.deadline == w.now + cfg.timeout
      ensures st == old(st).(deadline := st.deadline)
    {
      var now := w.Now();
      st := st.(deadline := now + cfg.timeout);
    }

    /** The connection is closed; nobody holds it any more. */
    method Release(w: World, pool: Pool)
      requires Inv(cfg, st, w.streams, this) && st.sock.Some? && PoolOk(pool.idle, w.streams)
      modifies w`streams
      ensures PoolOk(pool.idle, w.streams) && OthersKept(old(w.streams), w.streams, this) && NoneHeld(w.streams, this)
      ensures w.streams == old(w.streams)[st.sock.value := old(w.streams)[st.sock.value].(place := Closed)]
    {
      hide Inv, Aligned;
      InvFacts(cfg, st, w.streams, this);
      var c := st.sock.value;
      HeldIsUnpooled(pool.idle, w.streams, c);
      ProperOf(pool.idle, w.streams, c);
      UnpooledMayChange(pool.idle, w.streams, c, w.streams[c].(place := Closed));
      w.streams := w.streams[c := w.streams[c].(place := Closed)];
    }

    /** A pooled connection failed: the rest of its queue is suspect. */
    method DropQueue(w: World, pool: Pool)
      requires Inv(cfg, st, w.streams, this) && PoolOk(pool.idle, w.streams)
      modifies w`streams, pool
      ensures Inv(cfg, st, w.streams, this)
      ensures PoolOk(pool.idle, w.streams) && OthersKept(old(w.streams), w.streams, this)
      ensures pool.idle == old(pool.idle) - {cfg.key} && |w.streams| == |old(w.streams)|
    {
      hide Inv, PoolOk, OthersKept;
      var q := if cfg.key in pool.idle then pool.idle[cfg.key] else [];
      InvFacts(cfg, st, w.streams, this);
      EvictKeeps(pool.idle, cfg.key, w.streams, this);
      AroundKeeps(cfg, st, w.streams, CloseAll(w.streams, q), this);
      w.streams := CloseAll(w.streams, q);
      pool.Invalidate(cfg.key);
    }

    /** A failure ends the exchange, unless the pooled connection failed an
        idempotent request for the first time: that one is replayed. */
    method Fail(w: World, pool: Pool, error: BackendError, status: int) returns (again: bool)
      requires Inv(cfg, st, w.streams, this) && st.phase != Done && status == CodeOf(error)
      requires PoolOk(pool.idle, w.streams)
      modifies this, w`tick, w`now, w`streams, pool
      ensures Inv(cfg, st, w.streams, this)
      ensures PoolOk(pool.idle, w.streams) && OthersKept(old(w.streams), w.streams, this)
      ensures w.now >= old(w.now)
      ensures again <==> old(st.usedPooled && cfg.idempotent && !st.retried)
      ensures w.io == old(w.io)
      ensures pool.idle == if old(st).usedPooled then old(pool.idle) - {cfg.key} else old(pool.idle)
      ensures |w.streams| == |old(w.streams)|
      ensures if again then st == Replayed(old(st), w.now + cfg.timeout) && st.deadline > old(w.now)
              else st == Ended(old(st), Error(status, error))
    {
      hide Inv, PoolOk, OthersKept;
      InvFacts(cfg, st, w.streams, this);
      KeptByNothing(w.streams, this);
      if st.usedPooled {
        DropQueue(w, pool);
        ghost var mid := w.streams;
        if cfg.idempotent && !st.retried {
          InvFacts(cfg, st, w.streams, this);
          Release(w, pool);
          KeptTrans(old(w.streams), mid, w.streams, this);
          st := Replayed(st, st.deadline);
          Refresh(w);
          ReplayKeeps(cfg, old(st), st.deadline, mid, w.streams, this);
          return true;
        }
      }
      st := Ended(st, Error(status, error));
      FailureKeeps(cfg, old(st), Error(status, error), w.streams, this);
      return false;
    }

    /** A failure as a turn of the loop. */
    method FailTurn(w: World, pool: Pool, error: BackendError, status: int) returns (step: Option<Want>)
      requires Inv(cfg, st, w.streams, this) && st.phase != Done
      requires status == CodeOf(error) && Blames(st.phase, error)
      requires PoolOk(pool.idle, w.streams)
      modifies this, w`tick, w`now, w`streams, pool
      ensures Sound(cfg, st, pool.idle, old(w.streams), w.streams, this)
      ensures Turned(old(st), |w.io|, old(w.now), st, |w.io|, w.now, step)
      ensures step.None? || (step == Some(Finished) && st == Ended(old(st), Error(status, error)))
      ensures !old(st).usedPooled ==> step.Some?
      ensures Fails(cfg, old(st), st, error, w.now, step) && Carried(old(st), st, Blocked) && w.io == old(w.io)
      ensures |w.streams| == |old(w.streams)|
    {
      hide Inv, PoolOk, OthersKept;
      OpeningFacts(cfg, st, w.streams, this);
      var again := Fail(w, pool, error, status);
      step := if again then None else Some(Finished);
    }

    /** The effect on the connection held: nobody else's changes. */
    method Record(w: World, pool: Pool, s: Stream)
      requires st.sock.Some? && st.sock.value < |w.streams| && w.streams[st.sock.value].place == Held(this)
      requires s.fd == w.streams[st.sock.value].fd && s.key == w.streams[st.sock.value].key && s.place == Held(this)
      requires s.origin == w.streams[st.sock.value].origin && Proper(s)
      requires PoolOk(pool.idle, w.streams)
      modifies w`streams
      ensures w.streams == old(w.streams)[st.sock.value := s]
      ensures PoolOk(pool.idle, w.streams) && OthersKept(old(w.streams), w.streams, this)
    {
      hide Aligned;
      var c := st.sock.value;
      HeldIsUnpooled(pool.idle, w.streams, c);
      UnpooledMayChange(pool.idle, w.streams, c, s);
      w.streams := w.streams[c := s];
    }

    /** The socket took between one byte and all that is left. */
    method Transmit(w: World, pool: Pool, n: nat)
      requires Inv(cfg, st, w.streams, this) && st.phase == Send && st.sock.Some? && st.puts != []
      requires st.request == cfg.wire && st.sendOff < |st.request|
      requires PoolOk(pool.idle, w.streams)
      modifies this, w`tick, w`now, w`streams
      ensures Sound(cfg, st, pool.idle, old(w.streams), w.streams, this)
      ensures st == SentMore(old(st), Taken(n, |cfg.wire| - old(st).sendOff)).(deadline := st.deadline)
      ensures |w.streams| == |old(w.streams)|
      ensures w.now >= old(w.now) && st.deadline == w.now + cfg.timeout > old(w.now)
    {
      hide Inv, PoolOk, OthersKept;
      InvFacts(cfg, st, w.streams, this);
      var k := Taken(n, |st.request| - st.sendOff);
      WriteKeeps(cfg, st, k, w.streams, this);
      LinkFacts(cfg, st, w.streams, this);
      ProperOf(pool.idle, w.streams, st.sock.value);
      Record(w, pool, SentOn(w.streams[st.sock.value], st.request[st.sendOff..st.sendOff + k]));
      st := SentMore(st, k);
      Progress(w);
    }

    method SendOnce(w: World, pool: Pool) returns (step: Option<Want>)
      requires Inv(cfg, st, w.streams, this) && st.phase == Send
      requires st.request == cfg.wire && st.sendOff < |st.request|
      requires PoolOk(pool.idle, w.streams)
      modifies this, w, pool
      ensures Sound(cfg, st, pool.idle, old(w.streams), w.streams, this)
      ensures Turned(old(st), |old(w.io)|, old(w.now), st, |w.io|, w.now, step)
      ensures w.io == RestOf(old(w.io)) && old(st).sendOff < |cfg.wire|
      ensures Sends(cfg, old(st), NextOf(old(w.io), WantWrite), st, w.now, step) && Carried(old(st), st, Blocked)
      ensures w.sockets == old(w.sockets) && |w.streams| == |old(w.streams)|
      ensures step.Some? ==> !st.phase.Read?
    {
      hide Inv, PoolOk, OthersKept;
      InvFacts(cfg, st, w.streams, this);
      KeptByNothing(w.streams, this);
      var o := w.Next(WantWrite);
      match o {
        case Wrote(n) =>
          Transmit(w, pool, n);
          return None;
        case Interrupted =>
          return None;
        case WantRead =>
          Progress(w);
          return Some(if UsesTls(cfg) then ForRead else ForWrite);
        case WantWrite =>
          Progress(w);
          return Some(ForWrite);
        case _ =>
          step := FailTurn(w, pool, WriteFailed, 502);
      }
    }

    method StepSend(w: World, pool: Pool) returns (step: Option<Want>)
      requires Inv(cfg, st, w.streams, this) && st.phase == Send && Configured()
      requires PoolOk(pool.idle, w.streams)
      modifies this, w, pool
      ensures Sound(cfg, st, pool.idle, old(w.streams), w.streams, this)
      ensures Turned(old(st), |old(w.io)|, old(w.now), st, |w.io|, w.now, step)
      ensures Progressed(cfg, old(st), old(w.io), st, w.io, w.now, step, false, Blocked) && Carried(old(st), st, Blocked)
      ensures w.sockets == old(w.sockets) && |w.streams| == |old(w.streams)|
      ensures step.Some? ==> !st.phase.Read?
    {
      hide Inv, PoolOk, OthersKept, Configured;
      InvFacts(cfg, st, w.streams, this);
      KeptByNothing(w.streams, this);
      if st.request == "" {
        BuildKeeps(cfg, st, w.streams, this);
        Build();
      }
      RequestIsWire(cfg, st, w.streams, this);
      if st.sendOff < |st.request| {
        step := SendOnce(w, pool);
      } else {
        LinkFacts(cfg, st, w.streams, this);
        MoveKeeps(cfg, st, Read, w.streams, this);
        st := st.(phase := Read);
        Progress(w);
        step := None;
      }
    }

    method Build()
      requires Configured()
      modifies this
      ensures st == old(st).(request := cfg.wire) && st.request != ""
    {
      hide H.Image;
      var bytes := H.BuildRequest(params, order);
      st := st.(request := bytes);
    }

    /** A refresh that keeps the invariant in view. */
    method Progress(w: World)
      requires cfg.timeout > 0 && Inv(cfg, st, w.streams, this)
      modifies this, w`tick, w`now
      ensures w.now >= old(w.now) && st.deadline == w.now + cfg.timeout > old(w.now)
      ensures st == old(st).(deadline := st.deadline) && Inv(cfg, st, w.streams, this)
    {
      hide Inv;
      Refresh(w);
      DeadlineKeeps(cfg, old(st), st.deadline, w.streams, this);
    }

    // ------------------------------------------------------------ connecting

    /** A fresh connection; it may have to wait for the peer. */
    method OpenFresh(w: World, pool: Pool) returns (ok: bool)
      requires Inv(cfg, st, w.streams, this) && st.phase == Connect
      requires PoolOk(pool.idle, w.streams)
      modifies this, w
      ensures Sound(cfg, st, pool.idle, old(w.streams), w.streams, this)
      ensures w.now >= old(w.now) && |w.io| <= |old(w.io)| && st.retried == old(st).retried
      ensures if ok then Rank(st.phase) < Rank(Connect) && !st.phase.Done? && !st.usedPooled && st.deadline > old(w.now) else st == old(st)
      ensures old(w.number(w.sockets) !in OpenFds(w.streams)) ==>
                var d := Dialed(cfg, old(w.io));
                && w.io == d.io && (ok <==> d.Reached?)
                && (ok ==> Dials(cfg, d, st, w.io, w.now, None))
    {
      hide Inv, PoolOk, OthersKept, Aligned;
      OpeningFacts(cfg, st, w.streams, this);
      InvFacts(cfg, st, w.streams, this);
      KeptByNothing(w.streams, this);
      var fd := w.NewFd();
      if fd.None? {
        return false;
      }
      var o := w.Next(InProgress);
      var phase := Connecting;
      if o == Ok {
        phase := Send;
        if UsesTls(cfg) {
          var ctx := w.Next(Ok);
          if ctx != Ok {
            return false;
          }
          phase := Handshake;
        }
      } else if o != InProgress {
        return false;
      }
      TakeFresh(w, pool, fd.value, phase);
      Progress(w);
      return true;
    }

    method TakeFresh(w: World, pool: Pool, fd: nat, phase: Phase)
      requires Inv(cfg, st, w.streams, this) && st.phase == Connect && st.sock.None?
      requires PoolOk(pool.idle, w.streams) && fd !in OpenFds(w.streams)
      requires phase.Send? || phase.Connecting? || phase.Handshake?
      requires phase.Send? ==> !UsesTls(cfg)
      requires phase.Handshake? ==> UsesTls(cfg)
      modifies this, w`streams
      ensures Sound(cfg, st, pool.idle, old(w.streams), w.streams, this)
      ensures st.phase == phase && st.retried == old(st).retried && st.deadline == old(st).deadline && !st.usedPooled
      ensures st.request == old(st).request && st.sendOff == old(st).sendOff && st.response == ""
    {
      hide Inv, PoolOk, OpenFds;
      InvFacts(cfg, st, w.streams, this);
      var stream := Stream(cfg.key, cfg.origin, false, fd, "", "", [], Held(this));
      OwnKey(cfg, st, w.streams, this);
      NewConnection(pool.idle, w.streams, stream);
      var conn := |w.streams|;
      OpenKeeps(cfg, st, conn, false, "", phase, w.streams, w.streams + [stream], this);
      st := Opened(st, conn, false, "", phase);
      w.streams := w.streams + [stream];
    }

    /** A live connection of this upstream is taken out of the pool; expired ones
        are closed on the way, and so is one whose peer has closed. */
    method TakePooled(w: World, pool: Pool) returns (taken: bool)
      requires Inv(cfg, st, w.streams, this) && st.phase == Connect && !st.retried && st.sock.None?
      requires PoolOk(pool.idle, w.streams)
      modifies this, w, pool
      ensures Sound(cfg, st, pool.idle, old(w.streams), w.streams, this)
      ensures w.now == old(w.now + w.delta(w.tick)) && !st.retried
      ensures w.sockets == old(w.sockets) && |w.streams| == |old(w.streams)|
      ensures var live := if cfg.key in old(pool.idle) then Unexpired(old(pool.idle)[cfg.key], w.now - pool.idleTimeout) else [];
              && (taken <==> live != [] && !(old(w.io) != [] && (old(w.io)[0].Eof? || old(w.io)[0].Failed?)))
              && w.io == (if live == [] then old(w.io) else RestOf(old(w.io)))
              && st == if taken then Opened(old(st), live[0].conn, true, live[0].leftover, Send) else old(st)
    {
      hide Inv, PoolOk, OthersKept, Aligned, CloseAll, EntryOk;
      InvFacts(cfg, st, w.streams, this);
      var now := w.Now();
      ghost var idle := pool.idle;
      var q := if cfg.key in pool.idle then pool.idle[cfg.key] else [];
      var pooled := pool.Checkout(cfg.key, now);
      if pooled.None? {
        EvictKeeps(idle, cfg.key, w.streams, this);
        AroundKeeps(cfg, st, w.streams, CloseAll(w.streams, q), this);
        w.streams := CloseAll(w.streams, q);
        assert cfg.key !in idle ==> idle - {cfg.key} == idle;
        return false;
      }
      var probe := w.Next(InProgress);
      taken := probe != Eof && probe != Failed;
      ghost var expiry := now - pool.idleTimeout;
      CheckoutKeeps(idle, cfg.key, expiry, w.streams, if taken then Held(this) else Closed, this);
      TakeOut(w, pool, q[..|q| - |Unexpired(q, now - pool.idleTimeout)|], pooled.value, taken);
    }

    /** The connections of `expired` are closed; that of `e` is taken or closed. */
    method TakeOut(w: World, pool: Pool, expired: seq<Pooled>, e: Pooled, take: bool)
      requires Inv(cfg, st, w.streams, this) && st.phase == Connect && !st.retried && st.sock.None?
      requires EntryOk(cfg.key, e, w.streams)
      requires var after := CloseAll(w.streams, expired);
               && e.conn < |after| && after[e.conn] == w.streams[e.conn]
               && var last := after[e.conn := w.streams[e.conn].(place := if take then Held(this) else Closed)];
                  PoolOk(pool.idle, last) && OthersKept(w.streams, last, this)
      modifies this, w`streams
      ensures Sound(cfg, st, pool.idle, old(w.streams), w.streams, this)
      ensures st == if take then Opened(old(st), e.conn, true, e.leftover, Send) else old(st)
      ensures |w.streams| == |old(w.streams)|
    {
      hide Inv, PoolOk, OthersKept, Requests, Responses, Whole, LastSaidKeep, Proper;
      InvFacts(cfg, st, w.streams, this);
      var place := if take then Held(this) else Closed;
      var after := CloseAll(w.streams, expired)[e.conn := w.streams[e.conn].(place := place)];
      if take {
        OpenKeeps(cfg, st, e.conn, true, e.leftover, Send, w.streams, after, this);
        st := Opened(st, e.conn, true, e.leftover, Send);
      } else {
        AroundKeeps(cfg, st, w.streams, after, this);
      }
      w.streams := after;
    }

    method StepConnect(w: World, pool: Pool) returns (step: Option<Want>)
      requires Inv(cfg, st, w.streams, this) && st.phase == Connect
      requires PoolOk(pool.idle, w.streams)
      modifies this, w, pool
      ensures Sound(cfg, st, pool.idle, old(w.streams), w.streams, this)
      ensures Turned(old(st), |old(w.io)|, old(w.now), st, |w.io|, w.now, step)
      ensures step.Some? ==> !st.phase.Read?
      ensures var way := old(WayAt(cfg, st, w, pool, w.now + w.delta(w.tick)));
              Progressed(cfg, old(st), old(w.io), st, w.io, w.now, step, false, way) && Carried(old(st), st, way)
              && (way.Alive? ==> w.sockets == old(w.sockets) && |w.streams| == |old(w.streams)|)
    {
      hide Inv, PoolOk, OthersKept, Dials, Dialed, OpenFds;
      OpeningFacts(cfg, st, w.streams, this);
      InvFacts(cfg, st, w.streams, this);
      KeptByNothing(w.streams, this);
      if !st.retried {
        var taken := TakePooled(w, pool);
        if taken {
          Progress(w);
          return None;
        }
      }
      NumbersStay(old(w.streams), w.streams, this);
      ghost var mid := w.streams;
      step := ConnectFresh(w, pool);
      SoundAfter(cfg, st, pool.idle, old(w.streams), mid, w.streams, this);
    }

    /** A new connection, or none and the end. */
    method ConnectFresh(w: World, pool: Pool) returns (step: Option<Want>)
      requires Inv(cfg, st, w.streams, this) && st.phase == Connect
      requires PoolOk(pool.idle, w.streams)
      modifies this, w, pool
      ensures Sound(cfg, st, pool.idle, old(w.streams), w.streams, this)
      ensures Turned(old(st), |old(w.io)|, old(w.now), st, |w.io|, w.now, step)
      ensures step.Some? ==> !st.phase.Read?
      ensures old(HasNumber(w)) ==> Dials(cfg, Dialed(cfg, old(w.io)), st, w.io, w.now, step)
      ensures step.None? || step == Some(Finished)
      ensures Carried(old(st), st, Blocked)
    {
      hide Inv, PoolOk, OthersKept, Dialed, OpenFds;
      OpeningFacts(cfg, st, w.streams, this);
      var ok := OpenFresh(w, pool);
      if ok {
        return None;
      }
      ghost var mid := w.streams;
      step := FailTurn(w, pool, ConnectFailed, 502);
      SoundAfter(cfg, st, pool.idle, old(w.streams), mid, w.streams, this);
    }

    /** Writability tells the outcome of a connect in progress; until there is an
        event there is nothing to look at. */
    method StepConnecting(w: World, pool: Pool, event: bool) returns (step: Option<Want>)
      requires Inv(cfg, st, w.streams, this) && st.phase == Connecting
      requires PoolOk(pool.idle, w.streams)
      modifies this, w, pool
      ensures Sound(cfg, st, pool.idle, old(w.streams), w.streams, this)
      ensures Turned(old(st), |old(w.io)|, old(w.now), st, |w.io|, w.now, step)
      ensures step.Some? ==> !st.phase.Read?
      ensures Progressed(cfg, old(st), old(w.io), st, w.io, w.now, step, event, Blocked) && Carried(old(st), st, Blocked)
      ensures w.sockets == old(w.sockets) && |w.streams| == |old(w.streams)|
    {
      hide Inv, PoolOk, OthersKept;
      OpeningFacts(cfg, st, w.streams, this);
      InvFacts(cfg, st, w.streams, this);
      KeptByNothing(w.streams, this);
      if !event {
        return Some(ForWrite);
      }
      var error := w.Next(Ok);
      var ctx := error;
      if error == Ok && UsesTls(cfg) {
        ctx := w.Next(Ok);
      }
      if ctx != Ok {
        step := FailTurn(w, pool, ConnectFailed, 502);
        return;
      }
      var phase := if UsesTls(cfg) then Handshake else Send;
      LinkFacts(cfg, st, w.streams, this);
      MoveKeeps(cfg, st, phase, w.streams, this);
      st := st.(phase := phase);
      Progress(w);
      return None;
    }

    method StepHandshake(w: World, pool: Pool) returns (step: Option<Want>)
      requires Inv(cfg, st, w.streams, this) && st.phase == Handshake
      requires PoolOk(pool.idle, w.streams)
      modifies this, w, pool
      ensures Sound(cfg, st, pool.idle, old(w.streams), w.streams, this)
      ensures Turned(old(st), |old(w.io)|, old(w.now), st, |w.io|, w.now, step)
      ensures step.Some? ==> !st.phase.Read?
      ensures Progressed(cfg, old(st), old(w.io), st, w.io, w.now, step, false, Blocked) && Carried(old(st), st, Blocked)
      ensures w.sockets == old(w.sockets) && |w.streams| == |old(w.streams)|
    {
      hide Inv, PoolOk, OthersKept;
      OpeningFacts(cfg, st, w.streams, this);
      InvFacts(cfg, st, w.streams, this);
      KeptByNothing(w.streams, this);
      var o := w.Next(WantRead);
      match o {
        case Ok =>
          SecureKeeps(cfg, st, w.streams, this);
          ProperOf(pool.idle, w.streams, st.sock.value);
          Record(w, pool, Secured(w.streams[st.sock.value]));
          st := st.(phase := Send);
          Progress(w);
          return None;
        case WantRead =>
          Progress(w);
          return Some(ForRead);
        case WantWrite =>
          Progress(w);
          return Some(ForWrite);
        case _ =>
          step := FailTurn(w, pool, ConnectFailed, 502);
      }
    }

    // --------------------------------------------------------------- reading

    method Complete(w: World, closed: bool, f: F.Frame)
      requires Inv(cfg, st, w.streams, this) && st.phase == Read
      requires f == F.FrameOf(st.response, closed, cfg.maxResponse) && f.Complete?
      modifies this
      ensures Inv(cfg, st, w.streams, this) && st == Finish(old(st), closed, f)
    {
      hide Inv, F.FrameOf;
      FinishKeeps(cfg, st, closed, w.streams, this);
      var status := StatusOf(st.response);
      if status.None? {
        st := Ended(Framed(st, closed, f), Error(502, InvalidResponse));
      } else {
        var headers := R.ReadHeaders(HeadOf(st.response));
        st := Ended(Framed(st, closed, f), Response(status.value, headers, f.body));
      }
    }

    /** Reports when framing the bytes read goes astray on a chunk size that wraps;
        otherwise the framing of the source ends with this very frame. */
    method StepRead(w: World, pool: Pool) returns (step: Option<Want>, astray: bool)
      requires Inv(cfg, st, w.streams, this) && st.phase == Read
      requires PoolOk(pool.idle, w.streams)
      modifies this, w, pool
      ensures Sound(cfg, st, pool.idle, old(w.streams), w.streams, this)
      ensures Turned(old(st), |old(w.io)|, old(w.now), st, |w.io|, w.now, step)
      ensures Progressed(cfg, old(st), old(w.io), st, w.io, w.now, step, false, Blocked) && Carried(old(st), st, Blocked)
      ensures w.sockets == old(w.sockets) && |w.streams| == |old(w.streams)|
      ensures step.Some? && st.phase.Read? ==> st.response == old(st).response
      ensures astray == F.Astray(old(st).response, cfg.maxResponse)
      ensures !astray && |old(st).response| < SIZE_MAX ==>
                var buf := old(st).response;
                L.Frames(buf, false, cfg.maxResponse, F.FrameOf(buf, false, cfg.maxResponse))
    {
      hide Inv, PoolOk, OthersKept, F.FrameOf, ClosedFrame, StatusOf, F.Astray, L.Frames;
      KeptByNothing(w.streams, this);
      if |st.response| < SIZE_MAX {
        L.SameFrameIff(st.response, false, cfg.maxResponse);
      }
      var f;
      f, astray := F.TryFrame(st.response, false, cfg.maxResponse);
      if f.Complete? {
        Complete(w, false, f);
        step := Some(Finished);
        return;
      }
      if f.Error? {
        step := FailTurn(w, pool, InvalidResponse, 502);
        return;
      }
      if |st.response| > cfg.maxResponse {
        step := FailTurn(w, pool, ReadFailed, 502);
        return;
      }
      step := Receive(w, pool);
    }

    method Receive(w: World, pool: Pool) returns (step: Option<Want>)
      requires Inv(cfg, st, w.streams, this) && st.phase == Read
      requires PoolOk(pool.idle, w.streams)
      modifies this, w, pool
      ensures Sound(cfg, st, pool.idle, old(w.streams), w.streams, this)
      ensures Turned(old(st), |old(w.io)|, old(w.now), st, |w.io|, w.now, step)
      ensures w.io == RestOf(old(w.io)) && Carried(old(st), st, Blocked)
      ensures w.sockets == old(w.sockets) && |w.streams| == |old(w.streams)|
      ensures match NextOf(old(w.io), WantRead)
              case Got(data) =>
                if data == "" then ClosedBy(cfg, old(st), st, w.now, step)
                else st.phase.Read? && st.response == old(st).response + data && Refreshed(cfg, st, w.now, step)
              case Eof => ClosedBy(cfg, old(st), st, w.now, step)
              case Interrupted => st == old(st) && step.None?
              case WantRead => Waits(cfg, old(st), st, w.now) && step == Some(ForRead)
              case WantWrite => Waits(cfg, old(st), st, w.now) && step == Some(if UsesTls(cfg) then ForWrite else ForRead)
              case _ => Fails(cfg, old(st), st, ReadFailed, w.now, step)
      ensures step.Some? && st.phase.Read? ==> st.response == old(st).response
    {
      hide Inv, PoolOk, OthersKept, ClosedFrame, Finish;
      InvFacts(cfg, st, w.streams, this);
      KeptByNothing(w.streams, this);
      var o := w.Next(WantRead);
      match o {
        case Got(data) =>
          if data == "" {
            step := AtEof(w, pool);
            return;
          }
          Append(w, pool, data);
          return None;
        case Eof =>
          step := AtEof(w, pool);
        case Interrupted =>
          return None;
        case WantRead =>
          Progress(w);
          return Some(ForRead);
        case WantWrite =>
          Progress(w);
          return Some(if UsesTls(cfg) then ForWrite else ForRead);
        case _ =>
          step := FailTurn(w, pool, ReadFailed, 502);
      }
    }

    method Append(w: World, pool: Pool, data: string)
      requires Inv(cfg, st, w.streams, this) && st.phase == Read
      requires PoolOk(pool.idle, w.streams)
      modifies this, w`tick, w`now, w`streams
      ensures Sound(cfg, st, pool.idle, old(w.streams), w.streams, this)
      ensures st == old(st).(response := old(st).response + data, deadline := st.deadline) && |w.streams| == |old(w.streams)|
      ensures w.now >= old(w.now) && st.deadline == w.now + cfg.timeout > old(w.now)
    {
      hide Inv, PoolOk, OthersKept;
      InvFacts(cfg, st, w.streams, this);
      ReadKeeps(cfg, st, data, w.streams, this);
      ProperOf(pool.idle, w.streams, st.sock.value);
      Record(w, pool, ReadOff(w.streams[st.sock.value], data));
      st := st.(response := st.response + data);
      Progress(w);
    }

    /** The peer closed: that ends a response framed by the close, and fails any
        other. */
    method AtEof(w: World, pool: Pool) returns (step: Option<Want>)
      requires Inv(cfg, st, w.streams, this) && st.phase == Read
      requires PoolOk(pool.idle, w.streams)
      modifies this, w`tick, w`now, w`streams, pool
      ensures Sound(cfg, st, pool.idle, old(w.streams), w.streams, this)
      ensures Turned(old(st), |w.io|, old(w.now), st, |w.io|, w.now, step)
      ensures ClosedBy(cfg, old(st), st, w.now, step) && Carried(old(st), st, Blocked) && w.io == old(w.io)
      ensures |w.streams| == |old(w.streams)|
      ensures step.Some? ==> !st.phase.Read?
    {
      hide Inv, PoolOk, OthersKept, F.FrameOf, F.Keepalive, StatusOf;
      KeptByNothing(w.streams, this);
      var h := FindBlankLine(st.response, 0);
      if h.Some? && !F.Keepalive(st.response[..h.value]) {
        var f, _ := F.TryFrame(st.response, true, cfg.maxResponse);
        if f.Complete? {
          Complete(w, true, f);
          return Some(Finished);
        }
      }
      step := FailTurn(w, pool, ReadFailed, 502);
    }

    // -------------------------------------------------------------- the drive

    method Dispatch(w: World, pool: Pool, event: bool) returns (step: Option<Want>, astray: bool)
      requires Inv(cfg, st, w.streams, this) && st.phase != Done && Configured()
      requires PoolOk(pool.idle, w.streams)
      modifies this, w, pool
      ensures Sound(cfg, st, pool.idle, old(w.streams), w.streams, this)
      ensures Turned(old(st), |old(w.io)|, old(w.now), st, |w.io|, w.now, step)
      ensures var way := old(WayAt(cfg, st, w, pool, w.now + w.delta(w.tick)));
              && Progressed(cfg, old(st), old(w.io), st, w.io, w.now, step, event, way) && Carried(old(st), st, way)
              && (!old(st).phase.Connect? || way.Alive? ==> w.sockets == old(w.sockets) && |w.streams| == |old(w.streams)|)
      ensures astray == (old(st).phase.Read? && F.Astray(old(st).response, cfg.maxResponse))
      ensures step.Some? && st.phase.Read? ==> old(st).phase.Read? && st.response == old(st).response
    {
      hide Inv, PoolOk, OthersKept, Configured, F.Astray, F.FrameOf, L.Frames;
      astray := false;
      match st.phase {
        case Connect => step := StepConnect(w, pool);
        case Connecting => step := StepConnecting(w, pool, event);
        case Handshake => step := StepHandshake(w, pool);
        case Send => step := StepSend(w, pool);
        case Read => step, astray := StepRead(w, pool);
      }
    }

    /** One turn of the loop: the deadline is looked at first. */
    method Turn(w: World, pool: Pool, event: bool) returns (step: Option<Want>, astray: bool)
      requires Inv(cfg, st, w.streams, this) && st.phase != Done && Configured()
      requires PoolOk(pool.idle, w.streams)
      modifies this, w, pool
      ensures Sound(cfg, st, pool.idle, old(w.streams), w.streams, this)
      ensures Turned(old(st), |old(w.io)|, old(w.now), st, |w.io|, w.now, step)
      ensures step.Some? && step.value != Finished ==> st.deadline > w.now
      ensures if old(w.now + w.delta(w.tick)) < old(st).deadline then
                var way := old(WayAt(cfg, st, w, pool, w.now + w.delta(w.tick) + w.delta(w.tick + 1)));
                && Progressed(cfg, old(st), old(w.io), st, w.io, w.now, step, event, way) && Carried(old(st), st, way)
                && (!old(st).phase.Connect? || way.Alive? ==> w.sockets == old(w.sockets) && |w.streams| == |old(w.streams)|)
              else step.Some? ==> st.result == Error(504, TimeoutError(old(st).phase))
      ensures astray ==> old(st).phase.Read? && F.Astray(old(st).response, cfg.maxResponse)
      ensures step.Some? && st.phase.Read? && F.Astray(st.response, cfg.maxResponse) ==> astray
      ensures old(st).phase.Read? && old(w.now + w.delta(w.tick)) < old(st).deadline ==> astray == F.Astray(old(st).response, cfg.maxResponse)
    {
      hide Inv, PoolOk, OthersKept, Configured, Progressed, Blames, CodeOf, TimeoutError, F.Astray;
      var now := w.Now();
      if now >= st.deadline {
        TimeoutIsBlamed(st.phase);
        step := FailTurn(w, pool, TimeoutError(st.phase), 504);
        astray := false;
      } else {
        step, astray := Dispatch(w, pool, event);
      }
    }

    /** The way to a connection in the next turn, which reads the clock twice. */
    ghost function NextWay(w: World, pool: Pool): (way: Way)
      reads this, w, pool`idle
    {
      WayAt(cfg, st, w, pool, w.now + w.delta(w.tick) + w.delta(w.tick + 1))
    }

    lemma {:induction false} StaysOnTrack(w: World, pool: Pool, s: State, step: Option<Want>, answer: string, rest: string)
      requires F.FrameFor(answer, cfg.maxResponse).Complete? && Prompt(w.delta, cfg.timeout)
      requires Answered(cfg, st, answer, rest) || Onward(cfg, s, st, w.io, w.now, step, answer, rest)
      requires st.phase != Done && (s.usedPooled || (st.usedPooled && s.phase.Connect?)) ==> HasNumber(w)
      ensures step.Some? ==> Answered(cfg, st, answer, rest)
      ensures st.phase == Done ==> Answered(cfg, st, answer, rest)
      ensures st.phase != Done ==> OnTrack(cfg, st, w.io, false, NextWay(w, pool), answer, rest) && w.now + w.delta(w.tick) < st.deadline
      ensures (st.phase == Connect || st.usedPooled) && st.phase != Done ==> HasNumber(w)
    {
      hide F.FrameFor, StatusOf, Sending, Reading, Reaches, OpenFds;
    }

    /** `advance`: drive the exchange until it waits or is done. It always gets
        there; if it waits, it waits on a socket, and its deadline lies behind the
        time of the call. A backend that keeps moving bytes is never cut off: its
        `answer` is the result, however it is cut into reads. The drive is the source's
        unless it reports that some framing went astray, which no response causes. */
    method Advance(w: World, pool: Pool, events: bool, ghost answer: string, ghost rest: string) returns (want: Want, astray: bool)
      requires Inv(cfg, st, w.streams, this) && Configured()
      requires PoolOk(pool.idle, w.streams)
      modifies this, w, pool
      ensures Sound(cfg, st, pool.idle, old(w.streams), w.streams, this)
      ensures want == Finished <==> st.phase == Done
      ensures want != Finished ==> st.sock.Some? && st.deadline > w.now
      ensures w.now >= old(w.now)
      ensures old(Smooth(cfg, st, w, pool, events, answer, rest)) ==>
                && F.FrameFor(answer, cfg.maxResponse).Complete? && Answered(cfg, st, answer, rest)
                && (cfg.maxResponse + 1 < SIZE_MAX ==> !astray)
      ensures want != Finished && st.phase.Read? && F.Astray(st.response, cfg.maxResponse) ==> astray
    {
      hide Inv, PoolOk, OthersKept, Configured, F.Astray, F.FrameFor, F.IsAnswer, OnTrack, Onward, Answered;
      hide Progressed, Blames, CodeOf, TimeoutError, WayFor, OpenFds;
      KeptByNothing(w.streams, this);
      ghost var track := Smooth(cfg, st, w, pool, events, answer, rest);
      var ev := events;
      astray := false;
      OnTrackPhase(cfg, st, w.io, ev, NextWay(w, pool), answer, rest);
      while st.phase != Done
        invariant Sound(cfg, st, pool.idle, old(w.streams), w.streams, this)
        invariant w.now >= old(w.now)
        invariant track && st.phase != Done ==> OnTrack(cfg, st, w.io, ev, NextWay(w, pool), answer, rest) && w.now + w.delta(w.tick) < st.deadline
        invariant track && (st.phase == Connect || st.usedPooled) && st.phase != Done ==> HasNumber(w)
        invariant track && st.phase == Done ==> F.FrameFor(answer, cfg.maxResponse).Complete? && Answered(cfg, st, answer, rest)
        invariant track && cfg.maxResponse + 1 < SIZE_MAX ==> !astray
        decreases if st.retried then 0 else 1, |w.io|, Rank(st.phase)
      {
        ghost var mid, s, io, event, way := w.streams, st, w.io, ev, NextWay(w, pool);
        OpeningFacts(cfg, st, w.streams, this);
        FirstAttempt(cfg, s.retried, pool.idle, w.now + w.delta(w.tick) + w.delta(w.tick + 1) - pool.idleTimeout, io, HasNumber(w));
        var step, off := Turn(w, pool, ev);
        ev := false;
        astray := astray || off;
        if track {
          if s.phase.Read? && cfg.maxResponse + 1 < SIZE_MAX {
            TrackIsClear(cfg, s, io, event, way, answer, rest);
          }
          Track(cfg, s, io, st, w.io, w.now, step, event, way, answer, rest);
          if |w.streams| == |mid| {
            NumbersStay(mid, w.streams, this);
          }
          StaysOnTrack(w, pool, s, step, answer, rest);
        }
        SoundAfter(cfg, st, pool.idle, old(w.streams), mid, w.streams, this);
        if step.Some? {
          InvFacts(cfg, st, w.streams, this);
          return step.value, astray;
        }
      }
      return Finished, astray;
    }

    /** `reuse_to_pool`: a finished, kept-alive connection goes back to the queue
        of its upstream with one more pair on its record; a full queue closes it. */
    method ReuseToPool(w: World, pool: Pool)
      requires Inv(cfg, st, w.streams, this) && st.phase == Done
      requires PoolOk(pool.idle, w.streams)
      modifies this, w, pool
      ensures Inv(cfg, st, w.streams, this) && PoolOk(pool.idle, w.streams)
      ensures w.now >= old(w.now) && w.io == old(w.io) && st == old(st).(sock := st.sock)
      ensures if Reusable(old(st)) then
                var c, end := old(st).sock.value, old(st).frame.bodyEnd;
                && st.sock.None? && end <= |st.response| && c < |old(w.streams)|
                && var done := ServedOn(old(w.streams)[c], Served(cfg.wire, st.response[..end], cfg.maxResponse));
                   w.streams == old(w.streams)[c := if QueueFull(old(pool.idle), cfg.key) then done.(place := Closed) else done]
              else st == old(st) && w.streams == old(w.streams) && pool.idle == old(pool.idle)
    {
      hide Inv, PoolOk, F.FrameOf, Aligned;
      if !st.result.Response? || st.sock.None? || !st.frame.Complete? || !st.frame.keepalive || st.peerClosed {
        return;
      }
      var c, end := st.sock.value, st.frame.bodyEnd;
      InvFacts(cfg, st, w.streams, this);
      ReuseFacts(cfg, st, w.streams, this);
      ProperOf(pool.idle, w.streams, c);
      var now := w.Now();
      var conn := Pooled(c, if end >= |st.response| then "" else st.response[end..], now);
      assert conn.leftover == st.response[end..];
      var done := ServedOn(w.streams[c], Served(cfg.wire, st.response[..end], cfg.maxResponse));
      CheckinKeeps(pool.idle, cfg.key, conn, w.streams, done);
      var full := QueueFull(pool.idle, cfg.key);
      w.streams := w.streams[c := if full then done.(place := Closed) else done];
      pool.Checkin(cfg.key, conn, now);
      ReturnKeeps(cfg, st, old(w.streams), w.streams, this);
      st := st.(sock := None);
    }

    /** The exchange is destroyed, and with it the socket it may hold. */
    method Abandon(w: World, pool: Pool)
      requires Inv(cfg, st, w.streams, this) && PoolOk(pool.idle, w.streams)
      modifies this, w`streams
      ensures Sound(cfg, st, pool.idle, old(w.streams), w.streams, this)
      ensures st == old(st).(sock := None, phase := Done)
      ensures if old(st).sock.Some? then
                var c := old(st).sock.value;
                c < |old(w.streams)| && w.streams == old(w.streams)[c := old(w.streams)[c].(place := Closed)]
              else w.streams == old(w.streams)
    {
      hide Inv, PoolOk, OthersKept;
      InvFacts(cfg, st, w.streams, this);
      KeptByNothing(w.streams, this);
      if st.sock.Some? {
        Release(w, pool);
      }
      AbandonKeeps(cfg, st, old(w.streams), w.streams, this);
      st := st.(sock := None, phase := Done);
    }
  }

  lemma {:induction false} AbandonKeeps(c: Config, s: State, streams: seq<Stream>, after: seq<Stream>, me: Exchange)
    requires Inv(c, s, streams, me) && NoneHeld(after, me)
    ensures Inv(c, s.(sock := None, phase := Done), after, me)
  {
    hide F.FrameOf, Aligned, StatusOf, HeadersOf;
  }

  // ------------------------------------------------------------------- runs

  lemma {:induction false} InvOfOther(c: Config, s: State, before: seq<Stream>, after: seq<Stream>, me: Exchange, other: Exchange)
    requires Inv(c, s, before, me) && HeldKept(before, after, other) && me != other
    ensures Inv(c, s, after, me)
  {
    hide F.FrameOf, Aligned, StatusOf, HeadersOf, PutsOk, PhaseOk, ResultOk;
  }

  lemma {:induction false} OneHolder(c: Config, s: State, c': Config, s': State, streams: seq<Stream>, me: Exchange, other: Exchange)
    requires Inv(c, s, streams, me) && Inv(c', s', streams, other) && me != other
    ensures s.sock.Some? ==> s.sock != s'.sock
  {
    hide F.FrameOf, Aligned, StatusOf, HeadersOf, PutsOk, PhaseOk, ResultOk;
  }

  datatype Act = Drive(event: bool) | Reuse | Destroy

  ghost predicate AllOk(w: World, pool: Pool, exchanges: seq<Exchange>)
    reads w, pool, exchanges
  {
    && PoolOk(pool.idle, w.streams)
    && forall i :: 0 <= i < |exchanges| ==>
         exchanges[i].Configured() && Inv(exchanges[i].cfg, exchanges[i].st, w.streams, exchanges[i])
  }

  lemma {:induction false} KeptHeld(before: seq<Stream>, after: seq<Stream>, me: Exchange)
    requires OthersKept(before, after, me)
    ensures HeldKept(before, after, me)
  {
    assert forall c :: 0 <= c < |before| ==> Moved(before[c], after[c], me);
  }

  /** What holds of all connections, and of those in the pool. */
  lemma {:induction false} PoolPromises(idle: map<string, seq<Pooled>>, streams: seq<Stream>)
    requires PoolOk(idle, streams)
    ensures forall c :: 0 <= c < |streams| ==> Proper(streams[c])
    ensures forall c :: 0 <= c < |streams| && streams[c].place.Idle? ==> Ready(streams[c]) && LastSaidKeep(streams[c])
  {
    hide Aligned, Proper, Ready, LastSaidKeep;
    forall c | 0 <= c < |streams| && streams[c].place.Idle?
      ensures Ready(streams[c]) && LastSaidKeep(streams[c])
    {
      var q := idle[streams[c].key];
      var i :| 0 <= i < |q| && q[i].conn == c;
      assert QueueOk(streams[c].key, q, streams) && EntryOk(streams[c].key, q[i], streams);
    }
  }

  method Perform(w: World, pool: Pool, e: Exchange, act: Act)
    requires e.Configured() && Inv(e.cfg, e.st, w.streams, e) && PoolOk(pool.idle, w.streams)
    modifies w, pool, e
    ensures Inv(e.cfg, e.st, w.streams, e) && PoolOk(pool.idle, w.streams) && HeldKept(old(w.streams), w.streams, e)
  {
    hide Inv, PoolOk, OthersKept;
    KeptByNothing(w.streams, e);
    match act {
      case Drive(event) =>
        var _, _ := e.Advance(w, pool, event, "", "");
        KeptHeld(old(w.streams), w.streams, e);
      case Reuse =>
        InvFacts(e.cfg, e.st, w.streams, e);
        if e.st.phase == Done {
          e.ReuseToPool(w, pool);
        }
      case Destroy =>
        e.Abandon(w, pool);
        KeptHeld(old(w.streams), w.streams, e);
    }
  }

  /** Any exchanges sharing the pool, driven, reused and destroyed in any order:
      every pooled connection stays aligned and with its upstream, no connection
      has two holders, and none that is held is in the pool. */
  method RunAll(w: World, pool: Pool, exchanges: seq<Exchange>, acts: seq<(nat, Act)>)
    requires AllOk(w, pool, exchanges)
    requires forall i, j :: 0 <= i < j < |exchanges| ==> exchanges[i] != exchanges[j]
    modifies w, pool, exchanges
    ensures AllOk(w, pool, exchanges)
    ensures forall i, j :: 0 <= i < j < |exchanges| && exchanges[i].st.sock.Some? ==> exchanges[i].st.sock != exchanges[j].st.sock
    ensures forall i, key, k :: 0 <= i < |exchanges| && key in pool.idle && 0 <= k < |pool.idle[key]| ==>
                                  exchanges[i].st.sock != Some(pool.idle[key][k].conn)
    ensures forall c :: 0 <= c < |w.streams| ==> Proper(w.streams[c])
    ensures forall c :: 0 <= c < |w.streams| && w.streams[c].place.Idle? ==> Ready(w.streams[c]) && LastSaidKeep(w.streams[c])
  {
    hide Inv, PoolOk, OthersKept, Exchange.Configured, Proper, Ready, LastSaidKeep;
    for n := 0 to |acts|
      invariant AllOk(w, pool, exchanges)
    {
      if acts[n].0 < |exchanges| {
        ghost var before := w.streams;
        var e := exchanges[acts[n].0];
        Perform(w, pool, e, acts[n].1);
        forall i | 0 <= i < |exchanges|
          ensures Inv(exchanges[i].cfg, exchanges[i].st, w.streams, exchanges[i])
        {
          if i != acts[n].0 {
            InvOfOther(exchanges[i].cfg, exchanges[i].st, before, w.streams, exchanges[i], e);
          }
        }
      }
    }
    forall i, j | 0 <= i < j < |exchanges| && exchanges[i].st.sock.Some?
      ensures exchanges[i].st.sock != exchanges[j].st.sock
    {
      OneHolder(exchanges[i].cfg, exchanges[i].st, exchanges[j].cfg, exchanges[j].st, w.streams, exchanges[i], exchanges[j]);
    }
    forall i | 0 <= i < |exchanges|
      ensures forall key, k :: key in pool.idle && 0 <= k < |pool.idle[key]| ==> exchanges[i].st.sock != Some(pool.idle[key][k].conn)
    {
      InvFacts(exchanges[i].cfg, exchanges[i].st, w.streams, exchanges[i]);
      if exchanges[i].st.sock.Some? {
        HeldIsUnpooled(pool.idle, w.streams, exchanges[i].st.sock.value);
      }
    }
    PoolPromises(pool.idle, w.streams);
  }
}
