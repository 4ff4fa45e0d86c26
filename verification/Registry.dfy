/** The bookkeeping of the event loop, as values: which client owns which backend
    calls, which descriptor leads back to which call, what has ended, and how the
    books follow the connections that the exchanges hold. */
module Registry {
  import opened Bytes
  import opened Clock
  import U = UpstreamExchange
  import P = ConnectionPool
  import H = ProxyHop

  type Client = nat
  type Fd = nat
  type Slot = (Client, nat)

  /** Outcome of a composite dependency. */
  datatype Item = Unresolved | Ok | Failed | Unavailable

  /** One backend call as a route asks for it; `order` is the order in which the
      header map is walked. */
  datatype Job = Job(
    params: H.Params, order: seq<string>, policy: P.Policy, timeoutMs: int, maxResponse: nat,
    circuit: string, threshold: int, recovery: int)

  predicate JobOk(j: Job) {
    forall k :: k in j.order ==> k in j.params.headers
  }

  function WireOf(j: Job): (s: string)
    requires JobOk(j)
  {
    H.Image(j.params, j.order)
  }

  predicate Idempotent(verb: string) {
    verb == "GET" || verb == "HEAD" || verb == "OPTIONS"
  }

  /** The exchange that the call asks for. */
  function ConfigOf(j: Job): (c: U.Config)
    requires JobOk(j)
  {
    U.Config(
      P.Key(j.params.host, j.params.port, P.Scheme(j.policy)), U.Origin(j.params.host, j.params.port, j.policy),
      Idempotent(j.params.verb), j.timeoutMs * NANOS, j.maxResponse, WireOf(j))
  }

  /** An exchange in flight: the object, what it was made for, its state as the loop
      last saw it, and the descriptor of its socket. */
  datatype Ex = Ex(obj: U.Exchange, cfg: U.Config, s: U.State, sock: Option<Fd>)

  /** A backend call: `puts` records, for each exchange made for it, the connections
      that saw bytes; `outcomes` counts what the circuit breaker was told; `result` is
      what the last exchange came to. */
  datatype Child = Child(
    fd: Option<Fd>, ex: Option<Ex>, job: Option<Job>, required: bool, finished: bool, forced: bool, item: Item,
    resolved: nat, attempts: nat, maxRetries: int, puts: seq<seq<U.Put>>, outcomes: nat,
    result: Option<U.Result>)

  datatype InFlight = InFlight(id: nat, composite: bool, children: seq<Child>, total: Option<int>)

  /** How an exchange ended. */
  datatype Completion =
    | Answered(id: nat, composite: bool, status: int, children: seq<Child>)
    | Aborted(id: nat, children: seq<Child>)

  type Clients = map<Client, InFlight>

  /** The pool's queues. */
  type Idle = map<string, seq<P.Pooled>>

  // ------------------------------------------------------------- what was sent

  /** One exchange puts the request on one connection, on two only if it is
      idempotent, and on each a prefix of the same bytes. */
  predicate TryOk(puts: seq<U.Put>, job: Job)
    requires JobOk(job)
  {
    && |puts| <= (if Idempotent(job.params.verb) then 2 else 1)
    && forall k :: 0 <= k < |puts| ==> puts[k].bytes <= WireOf(job)
  }

  /** One exchange for the first try and one for each retry; retries are for
      idempotent calls, at most two and as many as the route allows. */
  predicate SentOk(ch: Child) {
    if ch.puts == [] then ch.attempts == 0
    else
      && ch.job.Some? && JobOk(ch.job.value) && |ch.puts| == 1 + ch.attempts && ch.attempts <= 2
      && (ch.attempts > 0 ==> ch.attempts <= ch.maxRetries && Idempotent(ch.job.value.params.verb))
      && forall i :: 0 <= i < |ch.puts| ==> TryOk(ch.puts[i], ch.job.value)
  }

  function Sum(puts: seq<seq<U.Put>>): (n: nat) {
    if puts == [] then 0 else |puts[0]| + Sum(puts[1..])
  }

  /** All connections that saw bytes of the call. */
  function Connections(ch: Child): (n: nat) {
    Sum(ch.puts)
  }

  lemma {:induction false} SumBound(puts: seq<seq<U.Put>>, most: nat)
    requires forall i :: 0 <= i < |puts| ==> |puts[i]| <= most
    ensures Sum(puts) <= most * |puts|
  {
    if puts != [] {
      SumBound(puts[1..], most);
    }
  }

  /** At most once: a call that is not idempotent is put on one connection at most,
      any other on two for each of 1 + min(max_retries, 2) exchanges, and every
      connection sees a prefix of the same bytes. */
  predicate AtMostOnce(ch: Child) {
    ch.puts != [] ==>
      && ch.job.Some? && JobOk(ch.job.value)
      && Connections(ch) <= 2 * (1 + (if ch.maxRetries < 0 then 0 else if ch.maxRetries > 2 then 2 else ch.maxRetries))
      && (ch.job.value.params.verb !in {"GET", "HEAD", "OPTIONS"} ==> Connections(ch) <= 1)
      && forall i, k :: 0 <= i < |ch.puts| && 0 <= k < |ch.puts[i]| ==> ch.puts[i][k].bytes <= WireOf(ch.job.value)
  }

  lemma {:induction false} AtMostOnceSend(ch: Child)
    requires SentOk(ch)
    ensures AtMostOnce(ch)
  {
    hide WireOf;
    if ch.puts != [] {
      var most := if Idempotent(ch.job.value.params.verb) then 2 else 1;
      assert forall i :: 0 <= i < |ch.puts| ==> TryOk(ch.puts[i], ch.job.value);
      SumBound(ch.puts, most);
    }
  }

  // -------------------------------------------------------- what was recorded

  /** The breaker has heard how the last exchange of the call went. */
  predicate Settled(ch: Child) {
    ch.puts != [] ==> ch.outcomes == ch.attempts + 1
  }

  /** It has heard of all but the last. */
  predicate Unsettled(ch: Child) {
    ch.puts != [] ==> ch.outcomes == ch.attempts
  }

  /** A call of an aborted exchange: cut off, unless it had finished before. */
  predicate EndsUnsettled(ch: Child) {
    if ch.finished then (if ch.forced then Unsettled(ch) else Settled(ch)) else Unsettled(ch)
  }

  // --------------------------------------------------------- what was answered

  /** A timeout is answered 504, any other failure 502. */
  predicate StatusOk(r: U.Result) {
    r.Error? ==>
      r.status == if r.error == U.ConnectTimeout || r.error == U.WriteTimeout || r.error == U.ReadTimeout then 504 else 502
  }

  function ItemFor(r: U.Result): (item: Item) {
    if r.Response? && 200 <= r.status < 300 then Ok else Failed
  }

  /** How a finished dependency is reported: by what its exchange came to; failed when
      it was given up or its circuit was open; unavailable without a backend. */
  predicate ItemOk(ch: Child) {
    if ch.forced then ch.item == Failed
    else if ch.result.Some? then StatusOk(ch.result.value) && ch.item == ItemFor(ch.result.value)
    else ch.puts == [] && ch.item == if ch.job.Some? then Failed else Unavailable
  }

  /** The client of a single call is told what the last exchange came to. */
  predicate Reports(ch: Child, status: int) {
    ch.result.Some? && StatusOk(ch.result.value) && status == ch.result.value.status
  }

  // ------------------------------------------------------------- the registry

  predicate SlotIn(clients: Clients, s: Slot) {
    s.0 in clients && s.1 < |clients[s.0].children|
  }

  function ChildAt(clients: Clients, s: Slot): (ch: Child)
    requires SlotIn(clients, s)
  {
    clients[s.0].children[s.1]
  }

  function WithChild(clients: Clients, s: Slot, ch: Child): (r: Clients)
    requires SlotIn(clients, s)
  {
    clients[s.0 := clients[s.0].(children := clients[s.0].children[s.1 := ch])]
  }

  /** Registered under `fd`, which is the socket its exchange holds now. */
  predicate Armed(ch: Child, fd: Fd) {
    !ch.finished && ch.fd == Some(fd) && ch.ex.Some? && ch.ex.value.sock == Some(fd)
  }

  /** Finished: no exchange, no descriptor, the right outcome, set once. */
  predicate Retired(ch: Child) {
    && ch.finished && ch.fd.None? && ch.ex.None? && ItemOk(ch) && ch.resolved == 1
    && SentOk(ch) && (if ch.forced then Unsettled(ch) else Settled(ch))
  }

  /** In flight: the last try is that of the exchange at work. */
  predicate Live(ch: Child) {
    && !ch.finished && !ch.forced && ch.ex.Some? && ch.resolved == 0
    && SentOk(ch) && ch.puts != [] && ch.puts[|ch.puts| - 1] == ch.ex.value.s.puts && Unsettled(ch)
    && ch.ex.value.cfg == ConfigOf(ch.job.value)
  }

  predicate SlotOk(clients: Clients, owner: map<Fd, Slot>, s: Slot)
    requires SlotIn(clients, s)
  {
    var ch := ChildAt(clients, s);
    Retired(ch) || (Live(ch) && ch.fd.Some? && ch.fd.value in owner && owner[ch.fd.value] == s)
  }

  predicate OwnerOk(clients: Clients, owner: map<Fd, Slot>, fd: Fd)
    requires fd in owner
  {
    SlotIn(clients, owner[fd]) && Armed(ChildAt(clients, owner[fd]), fd)
  }

  /** The kernel's side: descriptors registered and open, those idle in the pool,
      and those `held` by the exchange being driven. */
  datatype Fds = Fds(epoll: set<Fd>, open: set<Fd>, pooled: set<Fd>)

  predicate FdsOk(armed: set<Fd>, f: Fds, held: set<Fd>) {
    && f.epoll == armed
    && f.open == f.pooled + armed + held
    && f.pooled !! armed && held !! f.pooled && held !! armed
  }

  /** `owner` is exactly the inverse of the armed children; those in `skip` are
      not armed. Every open socket is pooled, armed or held, and only one of it. */
  ghost predicate RegOk(clients: Clients, owner: map<Fd, Slot>, f: Fds, skip: set<Slot>, held: set<Fd>) {
    && (forall fd :: fd in owner ==> OwnerOk(clients, owner, fd) && owner[fd] !in skip)
    && (forall s :: SlotIn(clients, s) && s !in skip ==> SlotOk(clients, owner, s))
    && FdsOk(owner.Keys, f, held)
  }

  function Held(sock: Option<Fd>): (r: set<Fd>) {
    if sock.Some? then {sock.value} else {}
  }

  datatype Sockets = Sockets(f: Fds, sock: Option<Fd>)

  /** While a child registered under `was` is driven, the others keep their
      registrations; `was` itself stays registered only as long as it is not
      closed, even if its number comes back. */
  predicate Driving(others: set<Fd>, was: Option<Fd>, s: Sockets) {
    && FdsOk(others, s.f.(epoll := others), Held(s.sock))
    && (s.f.epoll == others || (was.Some? && s.sock == was && s.f.epoll == others + {was.value}))
  }

  // ------------------------------------------------- books and real connections

  /** The descriptors as the connections have them. */
  function FdsOf(epoll: set<Fd>, streams: seq<U.Stream>): (f: Fds) {
    Fds(epoll, U.OpenFds(streams), U.IdleFds(streams))
  }

  function FdOf(streams: seq<U.Stream>, sock: Option<nat>): (fd: Option<Fd>) {
    if sock.Some? && sock.value < |streams| then Some(streams[sock.value].fd) else None
  }

  ghost function OtherFds(streams: seq<U.Stream>, me: U.Exchange): (fds: set<Fd>) {
    set c | 0 <= c < |streams| && streams[c].place.Held? && streams[c].place.who != me :: streams[c].fd
  }

  /** `sock` is the one connection that `me` holds. */
  ghost predicate Owns(streams: seq<U.Stream>, me: U.Exchange, sock: Option<nat>) {
    && (sock.Some? ==> sock.value < |streams| && streams[sock.value].place == U.Held(me))
    && forall d :: 0 <= d < |streams| && streams[d].place == U.Held(me) ==> sock == Some(d)
  }

  /** Every open descriptor is idle, somebody else's or mine, and only one of it. */
  lemma {:induction false} SplitFds(streams: seq<U.Stream>, me: U.Exchange, sock: Option<nat>)
    requires U.DistinctFds(streams) && Owns(streams, me, sock)
    ensures U.OpenFds(streams) == U.IdleFds(streams) + OtherFds(streams, me) + Held(FdOf(streams, sock))
    ensures U.IdleFds(streams) !! OtherFds(streams, me)
    ensures Held(FdOf(streams, sock)) !! U.IdleFds(streams) && Held(FdOf(streams, sock)) !! OtherFds(streams, me)
  {
    var open, idle, other, mine := U.OpenFds(streams), U.IdleFds(streams), OtherFds(streams, me), Held(FdOf(streams, sock));
    forall fd
      ensures fd in open <==> fd in idle + other + mine
    {
      if fd in open {
        var c :| 0 <= c < |streams| && !streams[c].place.Closed? && streams[c].fd == fd;
        assert streams[c].place.Idle? ==> fd in idle;
        assert streams[c].place.Held? && streams[c].place.who != me ==> fd in other;
      }
    }
  }

  lemma {:induction false} OtherFdsKept(before: seq<U.Stream>, after: seq<U.Stream>, me: U.Exchange)
    requires U.HeldKept(before, after, me)
    ensures OtherFds(after, me) == OtherFds(before, me)
  {
  }

  /** What a drive does to the descriptors, whatever sockets the exchange dropped,
      opened or adopted and under which numbers: the others keep theirs, and a
      socket that was closed is no longer registered. */
  lemma {:induction false} DriveKeeps(armed: set<Fd>, epoll: set<Fd>, before: seq<U.Stream>, after: seq<U.Stream>,
        me: U.Exchange, sock: Option<nat>, sock': Option<nat>)
    requires U.DistinctFds(before) && U.DistinctFds(after) && U.OthersKept(before, after, me)
    requires Owns(before, me, sock) && Owns(after, me, sock')
    requires FdsOk(armed, FdsOf(epoll, before), {}) && Held(FdOf(before, sock)) <= armed
    ensures var was := FdOf(before, sock);
            var epoll' := if sock' == sock then epoll else epoll - Held(was);
            Driving(armed - Held(was), was, Sockets(FdsOf(epoll', after), FdOf(after, sock')))
  {
    hide U.OpenFds, U.IdleFds, OtherFds, U.DistinctFds;
    U.KeptHeld(before, after, me);
    SplitFds(before, me, sock);
    SplitFds(after, me, sock');
    OtherFdsKept(before, after, me);
    var was := FdOf(before, sock);
    assert armed == OtherFds(before, me) + Held(was);
    if sock.Some? && sock' == sock {
      assert U.Moved(before[sock.value], after[sock.value], me);
    }
  }

  lemma {:induction false} CloseFds(streams: seq<U.Stream>, c: nat, s: U.Stream)
    requires U.DistinctFds(streams) && c < |streams| && streams[c].place.Held? && s.fd == streams[c].fd && s.place.Closed?
    ensures var after := streams[c := s];
            U.OpenFds(after) == U.OpenFds(streams) - {streams[c].fd} && U.IdleFds(after) == U.IdleFds(streams)
  {
    var after := streams[c := s];
    forall fd
      ensures fd in U.OpenFds(after) <==> fd in U.OpenFds(streams) && fd != streams[c].fd
    {
      if fd in U.OpenFds(streams) && fd != streams[c].fd {
        var d :| 0 <= d < |streams| && !streams[d].place.Closed? && streams[d].fd == fd;
        assert after[d] == streams[d];
      }
    }
    forall fd
      ensures fd in U.IdleFds(after) <==> fd in U.IdleFds(streams)
    {
      if fd in U.IdleFds(streams) {
        var d :| 0 <= d < |streams| && streams[d].place.Idle? && streams[d].fd == fd;
        assert after[d] == streams[d];
      }
    }
  }

  lemma {:induction false} PoolFds(streams: seq<U.Stream>, c: nat, s: U.Stream)
    requires c < |streams| && streams[c].place.Held? && s.fd == streams[c].fd && s.place.Idle?
    ensures var after := streams[c := s];
            U.OpenFds(after) == U.OpenFds(streams) && U.IdleFds(after) == U.IdleFds(streams) + {streams[c].fd}
  {
    var after := streams[c := s];
    forall fd
      ensures fd in U.OpenFds(after) <==> fd in U.OpenFds(streams)
    {
      if fd in U.OpenFds(streams) {
        var d :| 0 <= d < |streams| && !streams[d].place.Closed? && streams[d].fd == fd;
        assert !after[d].place.Closed? && after[d].fd == fd;
      }
    }
    forall fd
      ensures fd in U.IdleFds(after) <==> fd in U.IdleFds(streams) || fd == s.fd
    {
      if fd in U.IdleFds(streams) {
        var d :| 0 <= d < |streams| && streams[d].place.Idle? && streams[d].fd == fd;
        assert after[d] == streams[d];
      }
      assert after[c].place.Idle?;
    }
  }

  /** The state the loop has of an exchange fits the connections. */
  ghost predicate ExHolds(x: Ex, streams: seq<U.Stream>) {
    U.Inv(x.cfg, x.s, streams, x.obj) && x.sock == FdOf(streams, x.s.sock)
  }

  predicate HasEx(clients: Clients, s: Slot) {
    SlotIn(clients, s) && ChildAt(clients, s).ex.Some?
  }

  function ExAt(clients: Clients, s: Slot): (x: Ex)
    requires HasEx(clients, s)
  {
    ChildAt(clients, s).ex.value
  }

  ghost predicate RealOk(clients: Clients, streams: seq<U.Stream>, idle: Idle) {
    && U.PoolOk(idle, streams)
    && (forall s :: HasEx(clients, s) ==> ExHolds(ExAt(clients, s), streams))
    && (forall s, t :: HasEx(clients, s) && HasEx(clients, t) && s != t ==> ExAt(clients, s).obj != ExAt(clients, t).obj)
  }

  lemma {:induction false} OtherHolds(x: Ex, before: seq<U.Stream>, after: seq<U.Stream>, me: U.Exchange)
    requires ExHolds(x, before) && U.HeldKept(before, after, me) && x.obj != me
    ensures ExHolds(x, after)
  {
    hide U.Inv;
    U.InvOfOther(x.cfg, x.s, before, after, x.obj, me);
    U.InvFacts(x.cfg, x.s, before, x.obj);
  }

  /** `me` worked for the child of `slot`, which now is `ch`. */
  lemma {:induction false} RealReplace(clients: Clients, slot: Slot, ch: Child,
        before: seq<U.Stream>, idle: Idle, after: seq<U.Stream>, idle': Idle, me: U.Exchange)
    requires RealOk(clients, before, idle) && SlotIn(clients, slot)
    requires forall s :: HasEx(clients, s) && s != slot ==> ExAt(clients, s).obj != me
    requires U.HeldKept(before, after, me) && U.PoolOk(idle', after)
    requires ch.ex.Some? ==> ch.ex.value.obj == me && ExHolds(ch.ex.value, after)
    ensures RealOk(WithChild(clients, slot, ch), after, idle')
  {
    hide ExHolds, U.PoolOk, U.HeldKept;
    var clients' := WithChild(clients, slot, ch);
    forall s | HasEx(clients', s)
      ensures ExHolds(ExAt(clients', s), after)
    {
      if s != slot {
        assert HasEx(clients, s) && ExAt(clients', s) == ExAt(clients, s);
        OtherHolds(ExAt(clients, s), before, after, me);
      }
    }
    forall s, t | HasEx(clients', s) && HasEx(clients', t) && s != t
      ensures ExAt(clients', s).obj != ExAt(clients', t).obj
    {
      assert s != slot ==> HasEx(clients, s);
      assert t != slot ==> HasEx(clients, t);
    }
  }

  /** `after` has no exchange that `before` has not. */
  ghost predicate Fewer(before: Clients, after: Clients) {
    forall s :: HasEx(after, s) ==> HasEx(before, s) && ExAt(after, s) == ExAt(before, s)
  }

  lemma {:induction false} RealErase(clients: Clients, streams: seq<U.Stream>, idle: Idle, c: Client)
    requires RealOk(clients, streams, idle)
    ensures RealOk(clients - {c}, streams, idle) && Fewer(clients, clients - {c})
  {
    hide ExHolds, U.PoolOk;
    var clients' := clients - {c};
    forall s | HasEx(clients', s)
      ensures HasEx(clients, s) && ExAt(clients', s) == ExAt(clients, s)
    {
    }
  }

  lemma {:induction false} RealAdd(clients: Clients, streams: seq<U.Stream>, idle: Idle, c: Client, p: InFlight)
    requires RealOk(clients, streams, idle) && c !in clients
    requires forall i :: 0 <= i < |p.children| && p.children[i].ex.Some? ==> ExHolds(p.children[i].ex.value, streams)
    requires forall i, j :: 0 <= i < j < |p.children| && p.children[i].ex.Some? && p.children[j].ex.Some? ==>
               p.children[i].ex.value.obj != p.children[j].ex.value.obj
    requires forall i, s :: 0 <= i < |p.children| && p.children[i].ex.Some? && HasEx(clients, s) ==>
               p.children[i].ex.value.obj != ExAt(clients, s).obj
    ensures RealOk(clients[c := p], streams, idle)
  {
    hide ExHolds, U.PoolOk;
    var clients' := clients[c := p];
    forall s | HasEx(clients', s)
      ensures ExHolds(ExAt(clients', s), streams)
    {
      if s.0 != c {
        assert HasEx(clients, s);
      }
    }
    forall s, t | HasEx(clients', s) && HasEx(clients', t) && s != t
      ensures ExAt(clients', s).obj != ExAt(clients', t).obj
    {
      assert s.0 != c ==> HasEx(clients, s);
      assert t.0 != c ==> HasEx(clients, t);
    }
  }

  // --------------------------------------------------- the registry's changes

  lemma {:induction false} StartDriving(armed: set<Fd>, f: Fds, was: Option<Fd>)
    requires FdsOk(armed, f, {}) && Held(was) <= armed
    ensures Driving(armed - Held(was), was, Sockets(f, was))
  {
  }

  lemma {:induction false} WasOwned(clients: Clients, owner: map<Fd, Slot>, f: Fds, skip: set<Slot>, slot: Slot)
    requires SlotIn(clients, slot) && slot !in skip && RegOk(clients, owner, f, skip, {})
    requires ChildAt(clients, slot).fd.Some?
    ensures ChildAt(clients, slot).fd.value in owner && owner[ChildAt(clients, slot).fd.value] == slot
  {
    assert SlotOk(clients, owner, slot);
  }

  /** The child comes out of its drive unregistered, with whatever socket its
      exchange ended up with. */
  lemma {:induction false} UnregisterKeeps(clients: Clients, owner: map<Fd, Slot>, f: Fds, skip: set<Slot>, slot: Slot, s: Sockets, ch: Child)
    requires SlotIn(clients, slot) && slot !in skip
    requires var was := ChildAt(clients, slot).fd;
             && RegOk(clients, owner, f, if was.Some? then skip else skip + {slot}, {})
             && Held(was) <= owner.Keys && Driving(owner.Keys - Held(was), was, s)
    ensures var was := ChildAt(clients, slot).fd;
            RegOk(WithChild(clients, slot, ch), owner - Held(was), s.f.(epoll := s.f.epoll - Held(was)), skip + {slot}, Held(s.sock))
  {
    hide Live, Retired;
    if ChildAt(clients, slot).fd.Some? {
      WasOwned(clients, owner, f, skip, slot);
    }
    var was := ChildAt(clients, slot).fd;
    var clients', owner' := WithChild(clients, slot, ch), owner - Held(was);
    forall fd | fd in owner'
      ensures OwnerOk(clients', owner', fd) && owner'[fd] !in skip + {slot}
    {
      assert OwnerOk(clients, owner, fd);
    }
    forall t: Slot | SlotIn(clients', t) && t !in skip + {slot}
      ensures SlotOk(clients', owner', t)
    {
      assert SlotIn(clients, t) && SlotOk(clients, owner, t);
    }
    assert owner'.Keys == owner.Keys - Held(was);
  }

  lemma {:induction false} ArmKeeps(clients: Clients, owner: map<Fd, Slot>, f: Fds, skip: set<Slot>, slot: Slot, fd: Fd, ch: Child)
    requires SlotIn(clients, slot) && slot !in skip
    requires RegOk(clients, owner, f, skip + {slot}, {fd})
    requires Live(ch) && Armed(ch, fd)
    ensures RegOk(WithChild(clients, slot, ch), owner[fd := slot], f.(epoll := f.epoll + {fd}), skip, {})
  {
    hide Live, Retired;
    var clients', owner' := WithChild(clients, slot, ch), owner[fd := slot];
    forall g | g in owner'
      ensures OwnerOk(clients', owner', g) && owner'[g] !in skip
    {
      if g != fd {
        assert OwnerOk(clients, owner, g);
      }
    }
    forall t: Slot | SlotIn(clients', t) && t !in skip
      ensures SlotOk(clients', owner', t)
    {
      if t != slot {
        assert SlotIn(clients, t) && SlotOk(clients, owner, t);
      }
    }
    assert owner'.Keys == owner.Keys + {fd};
  }

  /** The socket of the child being driven is closed, or goes to the pool. */
  lemma {:induction false} DropKeeps(clients: Clients, owner: map<Fd, Slot>, f: Fds, skip: set<Slot>, held: set<Fd>)
    requires RegOk(clients, owner, f, skip, held)
    ensures RegOk(clients, owner, f.(open := f.open - held), skip, {})
    ensures RegOk(clients, owner, f.(pooled := f.pooled + held), skip, {})
  {
  }

  /** A child that holds no socket is replaced: retired, or tried again. */
  lemma {:induction false} ReplaceKeeps(clients: Clients, owner: map<Fd, Slot>, f: Fds, skip: set<Slot>, slot: Slot, ch: Child)
    requires SlotIn(clients, slot) && slot !in skip && RegOk(clients, owner, f, skip + {slot}, {})
    ensures RegOk(WithChild(clients, slot, ch), owner, f, skip + {slot}, {})
    ensures Retired(ch) ==> RegOk(WithChild(clients, slot, ch), owner, f, skip, {})
  {
    hide Live, Retired, Armed;
    var clients' := WithChild(clients, slot, ch);
    forall fd | fd in owner
      ensures OwnerOk(clients', owner, fd) && owner[fd] !in skip + {slot}
    {
      assert OwnerOk(clients, owner, fd);
    }
    forall t: Slot | SlotIn(clients', t) && t !in skip && t != slot
      ensures SlotOk(clients', owner, t)
    {
      assert SlotIn(clients, t) && SlotOk(clients, owner, t);
    }
  }

  /** A client goes whose children are all unarmed. */
  lemma {:induction false} EraseKeeps(clients: Clients, owner: map<Fd, Slot>, f: Fds, skip: set<Slot>, c: Client)
    requires c in clients && RegOk(clients, owner, f, skip, {})
    requires forall t :: t in skip ==> t.0 == c
    requires forall fd :: fd in owner ==> owner[fd].0 != c
    ensures RegOk(clients - {c}, owner, f, {}, {})
  {
    hide Live, Retired, Armed;
    var clients' := clients - {c};
    forall fd | fd in owner
      ensures OwnerOk(clients', owner, fd)
    {
      assert OwnerOk(clients, owner, fd);
    }
    forall t: Slot | SlotIn(clients', t)
      ensures SlotOk(clients', owner, t)
    {
      assert SlotIn(clients, t) && SlotOk(clients, owner, t);
    }
  }

  /** A new client's children are finished or not yet driven. */
  lemma {:induction false} AddKeeps(clients: Clients, owner: map<Fd, Slot>, f: Fds, c: Client, p: InFlight, skip: set<Slot>)
    requires c !in clients && RegOk(clients, owner, f, {}, {})
    requires forall i :: 0 <= i < |p.children| ==> Retired(p.children[i]) || (c, i) in skip
    requires forall t :: t in skip ==> t.0 == c
    ensures RegOk(clients[c := p], owner, f, skip, {})
  {
    hide Live, Retired, Armed;
    var clients' := clients[c := p];
    forall fd | fd in owner
      ensures OwnerOk(clients', owner, fd) && owner[fd] !in skip
    {
      assert OwnerOk(clients, owner, fd);
    }
    forall t: Slot | SlotIn(clients', t) && t !in skip
      ensures SlotOk(clients', owner, t)
    {
      if t.0 != c {
        assert SlotIn(clients, t) && SlotOk(clients, owner, t);
      }
    }
  }

  // --------------------------------------------------------- exactly one end

  /** The call was made, not given up, and answered with success. */
  predicate Succeeded(ch: Child) {
    !ch.forced && ch.result.Some? && ch.result.value.Response? && 200 <= ch.result.value.status < 300
  }

  predicate Bad(ch: Child) {
    ch.required && !Succeeded(ch)
  }

  /** How the outcome of a dependency is to be read. */
  lemma {:induction false} BadIff(ch: Child)
    requires Retired(ch)
    ensures Bad(ch) <==> ch.required && (ch.item.Failed? || ch.item.Unavailable?)
  {
    hide SentOk;
  }

  /** No other try was due: the last exchange came to a response or to one that is not
      to be asked for again, the method may not be repeated, or all tries are used up. */
  predicate TriedAll(ch: Child) {
    ch.result.Some? && ch.result.value.Error? && ch.result.value.error != U.InvalidResponse &&
    ch.job.Some? && ch.job.value.params.verb in {"GET", "HEAD", "OPTIONS"} ==>
      ch.attempts >= 2 || ch.attempts >= ch.maxRetries
  }

  /** What is on record about an exchange that ended. The children respect the bounds
      on what was sent. An aggregate answer comes from resolved children, and is 503
      exactly when a required one did not come to a successful response. A single call is
      answered with what its last exchange came to, when no other try was due, or refused
      before the first. The circuit
      breaker has heard of a single exchange that was answered, but not of what an
      abort cut off. */
  predicate AnswerOk(a: Completion) {
    && (forall i :: 0 <= i < |a.children| ==> SentOk(a.children[i]) && a.children[i].ex.None?)
    && (a.Answered? && a.composite ==>
          && (forall i :: 0 <= i < |a.children| ==> Retired(a.children[i]))
          && a.status == if (exists i :: 0 <= i < |a.children| && Bad(a.children[i])) then 503 else 200)
    && (a.Aborted? ==> forall i :: 0 <= i < |a.children| ==> EndsUnsettled(a.children[i]))
    && (a.Answered? && !a.composite ==>
          if a.children == [] then a.status == 502 || a.status == 503
          else |a.children| == 1 && Settled(a.children[0]) && Reports(a.children[0], a.status) && TriedAll(a.children[0]))
  }

  ghost predicate Accounted(clients: Clients, log: seq<Completion>, id: nat) {
    (exists c :: c in clients && clients[c].id == id) || (exists j :: 0 <= j < |log| && log[j].id == id)
  }

  /** Every exchange ever started is in flight or has ended, and no two of these
      at once. */
  ghost predicate LogOk(clients: Clients, log: seq<Completion>, nextId: nat) {
    && (forall c :: c in clients ==> clients[c].id < nextId)
    && (forall c, d :: c in clients && d in clients && c != d ==> clients[c].id != clients[d].id)
    && (forall j :: 0 <= j < |log| ==> log[j].id < nextId && AnswerOk(log[j]))
    && (forall j, k :: 0 <= j < k < |log| ==> log[j].id != log[k].id)
    && (forall j, c :: 0 <= j < |log| && c in clients ==> log[j].id != clients[c].id)
    && (forall id: nat :: id < nextId ==> Accounted(clients, log, id))
  }

  lemma {:induction false} LogKept(clients: Clients, log: seq<Completion>, nextId: nat, s: Slot, ch: Child)
    requires SlotIn(clients, s) && LogOk(clients, log, nextId)
    ensures LogOk(WithChild(clients, s, ch), log, nextId)
  {
    hide AnswerOk;
    var clients' := WithChild(clients, s, ch);
    forall id: nat | id < nextId
      ensures Accounted(clients', log, id)
    {
      assert Accounted(clients, log, id);
      if c :| c in clients && clients[c].id == id {
        assert c in clients' && clients'[c].id == id;
      }
    }
  }

  lemma {:induction false} LogEnds(clients: Clients, log: seq<Completion>, nextId: nat, c: Client, a: Completion)
    requires c in clients && LogOk(clients, log, nextId)
    requires a.id == clients[c].id && AnswerOk(a)
    ensures LogOk(clients - {c}, log + [a], nextId)
  {
    hide AnswerOk;
    var clients', log' := clients - {c}, log + [a];
    forall id: nat | id < nextId
      ensures Accounted(clients', log', id)
    {
      assert Accounted(clients, log, id);
      if d :| d in clients && clients[d].id == id {
        if d != c {
          assert d in clients' && clients'[d].id == id;
        } else {
          assert log'[|log|].id == id;
        }
      } else {
        var j :| 0 <= j < |log| && log[j].id == id;
        assert log'[j].id == id;
      }
    }
  }

  lemma {:induction false} LogStarts(clients: Clients, log: seq<Completion>, nextId: nat, c: Client, p: InFlight)
    requires c !in clients && LogOk(clients, log, nextId) && p.id == nextId
    ensures LogOk(clients[c := p], log, nextId + 1)
  {
    hide AnswerOk;
    var clients' := clients[c := p];
    forall id: nat | id < nextId + 1
      ensures Accounted(clients', log, id)
    {
      if id == nextId {
        assert c in clients' && clients'[c].id == id;
      } else {
        assert Accounted(clients, log, id);
        if d :| d in clients && clients[d].id == id {
          assert d in clients' && clients'[d].id == id;
        }
      }
    }
  }

  lemma {:induction false} LogInline(clients: Clients, log: seq<Completion>, nextId: nat, a: Completion)
    requires LogOk(clients, log, nextId) && a.id == nextId && AnswerOk(a)
    ensures LogOk(clients, log + [a], nextId + 1)
  {
    hide AnswerOk;
    var log' := log + [a];
    forall id: nat | id < nextId + 1
      ensures Accounted(clients, log', id)
    {
      if id == nextId {
        assert log'[|log|].id == id;
      } else {
        assert Accounted(clients, log, id);
        if j :| 0 <= j < |log| && log[j].id == id {
          assert log'[j].id == id;
        }
      }
    }
  }

  lemma {:induction false} RealSame(clients: Clients, slot: Slot, ch: Child, streams: seq<U.Stream>, idle: Idle)
    requires RealOk(clients, streams, idle) && SlotIn(clients, slot) && ch.ex == ChildAt(clients, slot).ex
    ensures RealOk(WithChild(clients, slot, ch), streams, idle) && Fewer(clients, WithChild(clients, slot, ch))
  {
    hide ExHolds, U.PoolOk;
    var clients' := WithChild(clients, slot, ch);
    forall s | HasEx(clients', s)
      ensures HasEx(clients, s) && ExAt(clients', s) == ExAt(clients, s)
    {
    }
  }

  /** A child without an exchange gets one that nobody had before. */
  lemma {:induction false} RealNew(clients: Clients, slot: Slot, ch: Child, streams: seq<U.Stream>, idle: Idle)
    requires RealOk(clients, streams, idle) && SlotIn(clients, slot) && ch.ex.Some? && ExHolds(ch.ex.value, streams)
    requires forall s :: HasEx(clients, s) ==> ExAt(clients, s).obj != ch.ex.value.obj
    ensures RealOk(WithChild(clients, slot, ch), streams, idle)
  {
    hide ExHolds, U.PoolOk;
    var clients' := WithChild(clients, slot, ch);
    forall s | HasEx(clients', s) && s != slot
      ensures HasEx(clients, s) && ExAt(clients', s) == ExAt(clients, s)
    {
    }
  }
}
