/** The token bucket of one key, kept and dropped by the limiter manager. Times are
    seconds as reals; the clock is read once per call. */
module RateLimiter {
  datatype Config = Config(capacity: nat, refill: nat)

  datatype Bucket = Bucket(tokens: nat, fraction: real, last: real)

  function Rate(c: Config): (r: real) {
    c.refill as real
  }

  /** Tokens that flow in between two times. */
  function Gain(c: Config, from: real, to: real): (r: real) {
    (to - from) * Rate(c)
  }

  lemma {:induction false} GainAdds(c: Config, a: real, b: real, d: real)
    ensures Gain(c, a, b) + Gain(c, b, d) == Gain(c, a, d)
  {
    hide Rate;
    var r := Rate(c);
    Distributes(b, a, r);
    Distributes(d, b, r);
    Distributes(d, a, r);
  }

  lemma {:induction false} Distributes(x: real, y: real, r: real)
    ensures (x - y) * r == x * r - y * r
  {
  }

  lemma {:induction false} GainGrows(c: Config, a: real, b: real)
    requires a <= b
    ensures Gain(c, a, b) >= 0.0
  {
    assert b - a >= 0.0 && Rate(c) >= 0.0;
    ProductIsPositive(b - a, Rate(c));
  }

  lemma {:induction false} ProductIsPositive(x: real, y: real)
    requires x >= 0.0 && y >= 0.0
    ensures x * y >= 0.0
  {
  }

  function Fresh(c: Config, now: real): (b: Bucket) {
    Bucket(c.capacity, 0.0, now)
  }

  predicate BucketOk(c: Config, b: Bucket) {
    b.tokens <= c.capacity && 0.0 <= b.fraction < 1.0
  }

  /** Tokens earned by `now`, with the part of a token carried over. */
  function Earned(c: Config, b: Bucket, now: real): (r: real) {
    Gain(c, b.last, now) + b.fraction
  }

  function Refill(c: Config, b: Bucket, now: real): (r: Bucket)
    requires Earned(c, b, now) >= 0.0
  {
    var whole := Earned(c, b, now).Floor;
    var tokens := if whole > 0 && b.tokens + whole > c.capacity then c.capacity
                  else if whole > 0 then b.tokens + whole
                  else b.tokens;
    Bucket(tokens, Earned(c, b, now) - whole as real, now)
  }

  function Spend(b: Bucket): (r: Bucket) {
    if b.tokens > 0 then b.(tokens := b.tokens - 1) else b
  }

  /** Whole tokens and the part of one. */
  function Level(b: Bucket): (r: real) {
    b.tokens as real + b.fraction
  }

  /** Tokens that did not fit. */
  function Spilled(c: Config, b: Bucket, now: real): (n: nat)
    requires Earned(c, b, now) >= 0.0
  {
    var whole := Earned(c, b, now).Floor;
    if whole > 0 && b.tokens + whole > c.capacity then b.tokens + whole - c.capacity else 0
  }

  lemma {:induction false} EarnedIsPositive(c: Config, b: Bucket, now: real)
    requires BucketOk(c, b) && now >= b.last
    ensures Earned(c, b, now) >= 0.0
  {
    hide Gain;
    GainGrows(c, b.last, now);
  }

  /** Conservation: what is earned is stored, to the last fraction, or spilled. */
  lemma {:induction false} RefillConserves(c: Config, b: Bucket, now: real)
    requires BucketOk(c, b) && now >= b.last
    ensures Earned(c, b, now) >= 0.0 && BucketOk(c, Refill(c, b, now))
    ensures Level(Refill(c, b, now)) + Spilled(c, b, now) as real == Level(b) + Gain(c, b.last, now)
    ensures Spilled(c, b, now) > 0 ==> Refill(c, b, now).tokens == c.capacity
  {
    hide Gain;
    EarnedIsPositive(c, b, now);
  }

  /** That is `refill` tokens a second. */
  lemma {:induction false} GainIs(c: Config, from: real, to: real)
    ensures Gain(c, from, to) == (to - from) * (c.refill as real)
  {
  }

  class Limiter {
    const config: Config
    var bucket: Bucket

    constructor (config: Config, now: real)
      ensures this.config == config && bucket == Fresh(config, now)
    {
      this.config, bucket := config, Fresh(config, now);
    }

    /** `try_acquire`. */
    method TryAcquire(now: real) returns (ok: bool)
      requires BucketOk(config, bucket) && now >= bucket.last
      modifies this
      ensures BucketOk(config, bucket) && bucket.last == now
      ensures Earned(config, old(bucket), now) >= 0.0
      ensures bucket == Spend(Refill(config, old(bucket), now))
      ensures ok <==> Refill(config, old(bucket), now).tokens > 0
    {
      hide Gain;
      RefillConserves(config, bucket, now);
      var earned := Gain(config, bucket.last, now) + bucket.fraction;
      var whole := earned.Floor;
      var tokens: nat := bucket.tokens;
      if whole > 0 {
        tokens := if config.capacity < tokens + whole then config.capacity else tokens + whole;
      }
      ok := tokens > 0;
      bucket := Bucket(if ok then tokens - 1 else tokens, earned - whole as real, now);
    }
  }

  // ---------------------------------------------------- one key in the manager

  /** A limiter exists from the first use of its key until it has been idle. */
  datatype Entry = Never | Present(b: Bucket) | Gone(since: real)

  datatype Event = Use(now: real) | Cleanup(now: real)

  predicate EntryOk(c: Config, e: Entry, idle: real, now: real) {
    match e
    case Never => true
    case Present(b) => BucketOk(c, b) && b.last <= now
    case Gone(since) => now - since > idle
  }

  /** The bucket a use finds: refilled, or made new. */
  function Ready(c: Config, e: Entry, now: real): (b: Bucket)
    requires e.Present? ==> Earned(c, e.b, now) >= 0.0
  {
    if e.Present? then Refill(c, e.b, now) else Fresh(c, now)
  }

  function After(c: Config, idle: real, e: Entry, v: Event): (r: Entry)
    requires EntryOk(c, e, idle, v.now) && (e.Present? ==> Earned(c, e.b, v.now) >= 0.0)
  {
    match v
    case Use(now) => Present(Spend(Ready(c, e, now)))
    case Cleanup(now) => if e.Present? && now - e.b.last > idle then Gone(e.b.last) else e
  }

  function Admits(c: Config, e: Entry, v: Event): (n: nat)
    requires e.Present? ==> Earned(c, e.b, v.now) >= 0.0
  {
    if v.Use? && Ready(c, e, v.now).tokens > 0 then 1 else 0
  }

  predicate InOrder(events: seq<Event>, from: real) {
    events != [] ==> from <= events[0].now && InOrder(events[1..], events[0].now)
  }

  lemma {:induction false} AfterOk(c: Config, idle: real, e: Entry, v: Event, now: real)
    requires EntryOk(c, e, idle, now) && now <= v.now
    ensures EntryOk(c, e, idle, v.now) && (e.Present? ==> Earned(c, e.b, v.now) >= 0.0)
    ensures EntryOk(c, After(c, idle, e, v), idle, v.now)
  {
    if e.Present? {
      RefillConserves(c, e.b, v.now);
    }
  }

  /** Requests admitted over a run of events. */
  ghost function Admitted(c: Config, idle: real, e: Entry, events: seq<Event>, now: real): (n: nat)
    requires EntryOk(c, e, idle, now) && InOrder(events, now)
    decreases |events|
  {
    if events == [] then 0
    else
      AfterOk(c, idle, e, events[0], now);
      Admits(c, e, events[0]) + Admitted(c, idle, After(c, idle, e, events[0]), events[1..], events[0].now)
  }

  /** What may still be admitted by `end`. */
  function Potential(c: Config, e: Entry, end: real): (r: real) {
    match e
    case Never => c.capacity as real
    case Present(b) => Level(b) + Gain(c, b.last, end)
    case Gone(since) => Gain(c, since, end)
  }

  lemma {:induction false} SpendLevel(b: Bucket)
    ensures Level(Spend(b)) + (if b.tokens > 0 then 1.0 else 0.0) == Level(b)
  {
  }

  /** A limiter dropped after `idle` seconds would have been full again. */
  predicate RefillsWhileIdle(c: Config, idle: real) {
    idle >= 0.0 && c.capacity as real <= idle * Rate(c)
  }

  lemma {:induction false} IdleRefills(c: Config, idle: real, since: real, now: real)
    requires RefillsWhileIdle(c, idle) && now - since > idle
    ensures Gain(c, since, now) >= c.capacity as real
  {
    var r := Rate(c);
    Distributes(now - since, idle, r);
    ProductIsPositive(now - since - idle, r);
  }

  lemma {:induction false} UsePays(c: Config, idle: real, e: Entry, now: real, end: real)
    requires EntryOk(c, e, idle, now) && RefillsWhileIdle(c, idle) && now <= end
    requires e.Present? ==> Earned(c, e.b, now) >= 0.0
    ensures Admits(c, e, Use(now)) as real + Potential(c, After(c, idle, e, Use(now)), end) <=
            Level(Ready(c, e, now)) + Gain(c, now, end)
    ensures !e.Never? ==> Level(Ready(c, e, now)) + Gain(c, now, end) <= Potential(c, e, end)
  {
    hide Gain, RefillsWhileIdle;
    var b := Ready(c, e, now);
    SpendLevel(b);
    if e.Present? {
      RefillConserves(c, e.b, now);
      GainAdds(c, e.b.last, now, end);
    } else if e.Gone? {
      IdleRefills(c, idle, e.since, now);
      GainAdds(c, e.since, now, end);
    }
  }

  lemma {:induction false} CleanupPays(c: Config, idle: real, e: Entry, now: real, end: real)
    requires EntryOk(c, e, idle, now) && (e.Present? ==> Earned(c, e.b, now) >= 0.0)
    ensures Potential(c, After(c, idle, e, Cleanup(now)), end) <= Potential(c, e, end)
  {
    hide Gain;
  }

  predicate EndsBy(events: seq<Event>, end: real) {
    forall i :: 0 <= i < |events| ==> events[i].now <= end
  }

  /** Over any run, no more is admitted than the bucket holds and gains. */
  lemma {:induction false} AdmittedIsPaid(c: Config, idle: real, e: Entry, events: seq<Event>, now: real, end: real)
    requires EntryOk(c, e, idle, now) && InOrder(events, now) && EndsBy(events, end) && now <= end
    requires RefillsWhileIdle(c, idle) && !e.Never?
    ensures Admitted(c, idle, e, events, now) as real <= Potential(c, e, end)
    decreases |events|
  {
    hide Gain, RefillsWhileIdle, After, Admits, Ready, Level, Potential;
    if events == [] {
      PotentialIsPositive(c, idle, e, now, end);
    } else {
      var v := events[0];
      AfterOk(c, idle, e, v, now);
      NeverNoMore(c, idle, e, v);
      AdmittedIsPaid(c, idle, After(c, idle, e, v), events[1..], v.now, end);
      PaidStep(c, idle, e, v, end);
    }
  }

  lemma {:induction false} PaidStep(c: Config, idle: real, e: Entry, v: Event, end: real)
    requires EntryOk(c, e, idle, v.now) && (e.Present? ==> Earned(c, e.b, v.now) >= 0.0)
    requires RefillsWhileIdle(c, idle) && !e.Never? && v.now <= end
    ensures Admits(c, e, v) as real + Potential(c, After(c, idle, e, v), end) <= Potential(c, e, end)
  {
    hide Gain, RefillsWhileIdle, After, Ready, Level, Potential;
    match v {
      case Use(now) => UsePays(c, idle, e, now, end);
      case Cleanup(now) => CleanupPays(c, idle, e, now, end);
    }
  }

  lemma {:induction false} NeverNoMore(c: Config, idle: real, e: Entry, v: Event)
    requires EntryOk(c, e, idle, v.now) && (e.Present? ==> Earned(c, e.b, v.now) >= 0.0)
    ensures v.Use? || !e.Never? ==> !After(c, idle, e, v).Never?
    ensures v.Cleanup? ==> Admits(c, e, v) == 0
    ensures v.Cleanup? && e.Never? ==> After(c, idle, e, v) == e
  {
    hide Gain;
  }

  lemma {:induction false} PotentialIsPositive(c: Config, idle: real, e: Entry, now: real, end: real)
    requires EntryOk(c, e, idle, now) && now <= end && RefillsWhileIdle(c, idle)
    ensures Potential(c, e, end) >= 0.0
  {
    hide Gain;
    match e {
      case Never =>
      case Present(b) => GainGrows(c, b.last, end);
      case Gone(since) => GainGrows(c, since, end);
    }
  }

  lemma {:induction false} ReadyLevel(c: Config, idle: real, e: Entry, now: real)
    requires EntryOk(c, e, idle, now) && (e.Present? ==> Earned(c, e.b, now) >= 0.0)
    ensures Level(Ready(c, e, now)) < c.capacity as real + 1.0
  {
    hide Gain;
    if e.Present? {
      RefillConserves(c, e.b, now);
    }
  }

  /** A use is admitted exactly when there is a whole token. */
  lemma {:induction false} WholeToken(c: Config, idle: real, e: Entry, now: real)
    requires EntryOk(c, e, idle, now) && (e.Present? ==> Earned(c, e.b, now) >= 0.0)
    ensures Ready(c, e, now).tokens > 0 <==> Level(Ready(c, e, now)) >= 1.0
  {
    hide Gain;
    if e.Present? {
      RefillConserves(c, e.b, now);
    }
  }

  /** The bucket bound, over every run of uses and cleanups: in any window from
      `now` to `end` fewer than capacity + refill * length + 1 requests of the key
      are admitted, provided an idle limiter refills before it is dropped. */
  lemma {:induction false} WindowBound(c: Config, idle: real, e: Entry, events: seq<Event>, now: real, end: real)
    requires EntryOk(c, e, idle, now) && InOrder(events, now) && EndsBy(events, end) && now <= end
    requires idle >= 0.0 && c.capacity as real <= idle * (c.refill as real)
    ensures Admitted(c, idle, e, events, now) as real < c.capacity as real + (end - now) * (c.refill as real) + 1.0
  {
    hide Gain, Admitted;
    WindowGain(c, idle, e, events, now, end);
    GainIs(c, now, end);
  }

  lemma {:induction false} WindowGain(c: Config, idle: real, e: Entry, events: seq<Event>, now: real, end: real)
    requires EntryOk(c, e, idle, now) && InOrder(events, now) && EndsBy(events, end) && now <= end
    requires RefillsWhileIdle(c, idle)
    ensures Admitted(c, idle, e, events, now) as real < c.capacity as real + Gain(c, now, end) + 1.0
    decreases |events|
  {
    hide Gain, RefillsWhileIdle, After, Admits, Ready, Level, Potential;
    GainGrows(c, now, end);
    if events != [] {
      var v := events[0];
      AfterOk(c, idle, e, v, now);
      NeverNoMore(c, idle, e, v);
      GainAdds(c, now, v.now, end);
      GainGrows(c, now, v.now);
      if v.Use? {
        UsePays(c, idle, e, v.now, end);
        ReadyLevel(c, idle, e, v.now);
        AdmittedIsPaid(c, idle, After(c, idle, e, v), events[1..], v.now, end);
      } else {
        WindowGain(c, idle, After(c, idle, e, v), events[1..], v.now, end);
      }
    }
  }

  // ---------------------------------------------------------------- the manager

  /** All keys; a limiter keeps the configuration it was created with. `gone`
      remembers the last use of dropped ones. */
  class Manager {
    const idle: real
    var limiters: map<string, Bucket>
    var configs: map<string, Config>
    var lastUsed: map<string, real>
    ghost var gone: map<string, real>

    ghost function EntryOf(key: string): (e: Entry)
      reads this
    {
      if key in limiters then Present(limiters[key]) else if key in gone then Gone(gone[key]) else Never
    }

    /** The configuration that decides for `key` when it is used with `config`. */
    ghost function ConfigFor(key: string, config: Config): (c: Config)
      reads this
    {
      if key in configs then configs[key] else config
    }

    ghost predicate Valid(now: real)
      reads this
    {
      && limiters.Keys == lastUsed.Keys == configs.Keys
      && (forall k :: k in limiters ==> lastUsed[k] == limiters[k].last)
      && (forall k, c :: EntryOk(ConfigFor(k, c), EntryOf(k), idle, now))
    }

    constructor (idle: real, now: real)
      ensures Valid(now) && forall k :: EntryOf(k) == Never
    {
      this.idle := idle;
      limiters, configs, lastUsed, gone := map[], map[], map[], map[];
    }

    lemma {:induction false} StillValid(now: real, later: real)
      requires Valid(now) && now <= later
      ensures Valid(later)
      ensures forall k :: k in limiters ==> Earned(configs[k], limiters[k], later) >= 0.0
    {
      hide Gain;
      forall k, c
        ensures EntryOk(ConfigFor(k, c), EntryOf(k), idle, later)
      {
        assert EntryOk(ConfigFor(k, c), EntryOf(k), idle, now);
      }
      forall k | k in limiters
        ensures Earned(configs[k], limiters[k], later) >= 0.0
      {
        assert EntryOk(ConfigFor(k, configs[k]), EntryOf(k), idle, now);
        EarnedIsPositive(configs[k], limiters[k], later);
      }
    }

    /** `try_acquire_locked`. */
    method TryAcquire(key: string, config: Config, ghost before: real, now: real) returns (ok: bool)
      requires Valid(before) && before <= now
      modifies this
      ensures Valid(now)
      ensures var e, c := old(EntryOf(key)), old(ConfigFor(key, config));
              && (e.Present? ==> Earned(c, e.b, now) >= 0.0) && EntryOk(c, e, idle, now)
              && EntryOf(key) == After(c, idle, e, Use(now)) && configs == old(configs)[key := c]
              && (ok <==> Admits(c, e, Use(now)) == 1) && (ok <==> Level(Ready(c, e, now)) >= 1.0)
      ensures forall k :: k != key ==> EntryOf(k) == old(EntryOf(k))
    {
      hide Gain, Refill, Earned, BucketOk;
      StillValid(before, now);
      var c := if key in configs then configs[key] else config;
      ghost var e := EntryOf(key);
      assert EntryOk(ConfigFor(key, config), e, idle, before);
      AfterOk(c, idle, e, Use(now), before);
      var b := if key in limiters then Refill(c, limiters[key], now) else Fresh(c, now);
      ReadyIsNow(c, e, now);
      WholeToken(c, idle, e, now);
      ok := b.tokens > 0;
      limiters := limiters[key := Spend(b)];
      configs := configs[key := c];
      lastUsed := lastUsed[key := now];
      assert EntryOf(key) == After(c, idle, e, Use(now));
      forall k, d
        ensures EntryOk(ConfigFor(k, d), EntryOf(k), idle, now)
      {
        assert k != key ==> EntryOf(k) == old(EntryOf(k)) && EntryOk(old(ConfigFor(k, d)), EntryOf(k), idle, now);
      }
    }

    method Drop(key: string, now: real)
      requires Valid(now) && key in limiters && now - lastUsed[key] > idle
      modifies this
      ensures Valid(now) && limiters == old(limiters) - {key} && configs == old(configs) - {key}
      ensures EntryOf(key) == Gone(old(limiters)[key].last)
      ensures forall k :: k != key ==> EntryOf(k) == old(EntryOf(k))
    {
      hide BucketOk;
      gone := gone[key := lastUsed[key]];
      lastUsed := lastUsed - {key};
      limiters := limiters - {key};
      configs := configs - {key};
      forall k, c
        ensures EntryOk(ConfigFor(k, c), EntryOf(k), idle, now)
      {
        assert k != key ==> EntryOf(k) == old(EntryOf(k));
        assert EntryOk(old(ConfigFor(k, c)), old(EntryOf(k)), idle, now);
      }
    }

    method SweepOne(key: string, now: real)
      requires Valid(now) && key in limiters
      modifies this
      ensures Valid(now) && EntryOf(key) == Swept(old(EntryOf(key)), idle, now)
      ensures forall k :: k != key ==> EntryOf(k) == old(EntryOf(k))
      ensures limiters.Keys <= old(limiters).Keys <= limiters.Keys + {key}
      ensures forall k :: k in configs ==> k in old(configs) && configs[k] == old(configs)[k]
    {
      hide EntryOk, ConfigFor;
      if now - lastUsed[key] > idle {
        Drop(key, now);
      }
    }

    lemma {:induction false} NothingToSweep(now: real)
      ensures forall k :: k !in limiters ==> Swept(EntryOf(k), idle, now) == EntryOf(k)
    {
    }

    /** `cleanup`: limiters unused for longer than `idle` go. */
    method CleanUp(ghost before: real, now: real)
      requires Valid(before) && before <= now
      modifies this
      ensures Valid(now)
      ensures forall k :: EntryOf(k) == Swept(old(EntryOf(k)), idle, now)
      ensures forall k :: k in limiters <==> k in old(limiters) && now - old(limiters)[k].last <= idle
      ensures forall k :: k in configs ==> k in old(configs) && configs[k] == old(configs)[k]
    {
      hide Gain, Earned, Valid, EntryOf, Swept;
      StillValid(before, now);
      NothingToSweep(now);
      PresentAre();
      var todo := limiters.Keys;
      while todo != {}
        invariant todo <= limiters.Keys && Valid(now)
        invariant forall k :: EntryOf(k) == if k in todo then old(EntryOf(k)) else Swept(old(EntryOf(k)), idle, now)
        invariant forall k :: k in configs ==> k in old(configs) && configs[k] == old(configs)[k]
      {
        var k :| k in todo;
        todo := todo - {k};
        SweepOne(k, now);
      }
      PresentAre();
      SweptAre(idle, now);
    }

    lemma {:induction false} PresentAre()
      ensures forall k :: k in limiters <==> EntryOf(k).Present?
      ensures forall k :: k in limiters ==> EntryOf(k).b == limiters[k]
    {
    }
  }

  /** What a cleanup at `now` leaves of an entry. */
  function Swept(e: Entry, idle: real, now: real): (r: Entry) {
    if e.Present? && now - e.b.last > idle then Gone(e.b.last) else e
  }

  lemma {:induction false} SweptAre(idle: real, now: real)
    ensures forall e :: Swept(e, idle, now).Present? <==> e.Present? && now - e.b.last <= idle
  {
  }

  lemma {:induction false} ReadyIsNow(c: Config, e: Entry, now: real)
    requires e.Present? ==> Earned(c, e.b, now) >= 0.0
    ensures Ready(c, e, now).last == now && Spend(Ready(c, e, now)).last == now
  {
    hide Earned;
  }

  // ------------------------------------------------------- why idle must refill

  function Burst(n: nat, t: real): (events: seq<Event>) {
    if n == 0 then [] else [Use(t)] + Burst(n - 1, t)
  }

  /** Use up a whole bucket, wait until it is dropped, start again. */
  function Rounds(c: Config, k: nat, t: real, gap: real): (events: seq<Event>) {
    if k == 0 then [] else Burst(c.capacity, t) + ([Cleanup(t + gap)] + Rounds(c, k - 1, t + gap, gap))
  }

  lemma {:induction false} BurstInOrder(n: nat, t: real, rest: seq<Event>)
    requires InOrder(rest, t)
    ensures InOrder(Burst(n, t) + rest, t)
  {
    if n == 0 {
      assert Burst(n, t) + rest == rest;
    } else {
      BurstInOrder(n - 1, t, rest);
      assert (Burst(n, t) + rest)[1..] == Burst(n - 1, t) + rest;
    }
  }

  lemma {:induction false} AtOnce(c: Config, b: Bucket)
    requires BucketOk(c, b)
    ensures Earned(c, b, b.last) >= 0.0 && Refill(c, b, b.last) == b
  {
    assert Gain(c, b.last, b.last) == 0.0;
  }

  lemma {:induction false} BurstOn(c: Config, idle: real, b: Bucket, n: nat, rest: seq<Event>)
    requires BucketOk(c, b) && n <= b.tokens && InOrder(rest, b.last)
    ensures InOrder(Burst(n, b.last) + rest, b.last)
    ensures Admitted(c, idle, Present(b), Burst(n, b.last) + rest, b.last) ==
            n + Admitted(c, idle, Present(b.(tokens := b.tokens - n)), rest, b.last)
    decreases n
  {
    hide Earned, Refill;
    BurstInOrder(n, b.last, rest);
    if n == 0 {
      assert Burst(n, b.last) + rest == rest && b.(tokens := b.tokens - 0) == b;
    } else {
      AtOnce(c, b);
      BurstOn(c, idle, b.(tokens := b.tokens - 1), n - 1, rest);
      assert (Burst(n, b.last) + rest)[1..] == Burst(n - 1, b.last) + rest;
    }
  }

  lemma {:induction false} BurstFromNew(c: Config, idle: real, e: Entry, t: real, rest: seq<Event>)
    requires !e.Present? && EntryOk(c, e, idle, t) && c.capacity > 0 && InOrder(rest, t)
    ensures InOrder(Burst(c.capacity, t) + rest, t)
    ensures Admitted(c, idle, e, Burst(c.capacity, t) + rest, t) ==
            c.capacity + Admitted(c, idle, Present(Bucket(0, 0.0, t)), rest, t)
  {
    hide Earned, Refill;
    BurstInOrder(c.capacity, t, rest);
    BurstOn(c, idle, Bucket(c.capacity - 1, 0.0, t), c.capacity - 1, rest);
    assert (Burst(c.capacity, t) + rest)[1..] == Burst(c.capacity - 1, t) + rest;
  }

  lemma {:induction false} RoundsAdmit(c: Config, idle: real, e: Entry, k: nat, t: real, gap: real)
    requires !e.Present? && EntryOk(c, e, idle, t) && c.capacity > 0 && gap > idle >= 0.0
    ensures InOrder(Rounds(c, k, t, gap), t)
    ensures Admitted(c, idle, e, Rounds(c, k, t, gap), t) == k * c.capacity
    decreases k
  {
    hide Refill;
    if k > 0 {
      var rest := Rounds(c, k - 1, t + gap, gap);
      var more := [Cleanup(t + gap)] + rest;
      RoundsAdmit(c, idle, Gone(t), k - 1, t + gap, gap);
      assert more[1..] == rest;
      BurstFromNew(c, idle, e, t, more);
      AfterOk(c, idle, Present(Bucket(0, 0.0, t)), more[0], t);
      assert k * c.capacity == c.capacity + (k - 1) * c.capacity;
    }
  }

  lemma {:induction false} RoundsEnd(c: Config, k: nat, t: real, gap: real, end: real)
    requires gap >= 0.0 && t + (k as real) * gap <= end
    ensures EndsBy(Rounds(c, k, t, gap), end)
    decreases k
  {
    if k > 0 {
      Distributes(k as real, 1.0, gap);
      RoundsEnd(c, k - 1, t + gap, gap, end);
      BurstEnds(c.capacity, t, end);
      ProductIsPositive(k as real, gap);
      ProductIsPositive((k - 1) as real, gap);
    }
  }

  lemma {:induction false} BurstEnds(n: nat, t: real, end: real)
    requires t <= end
    ensures EndsBy(Burst(n, t), end)
  {
    if n > 0 {
      BurstEnds(n - 1, t, end);
    }
  }

  /** A gap just above `idle` in which the bucket gains too little. */
  lemma {:induction false} ShortGap(c: Config, idle: real) returns (gap: real, short: real)
    requires idle >= 0.0 && c.capacity as real > idle * Rate(c)
    ensures gap > idle && short > 0.0 && gap * Rate(c) + short <= c.capacity as real
  {
    var r := Rate(c);
    var missing := c.capacity as real - idle * r;
    var extra := missing / (2.0 * (r + 1.0));
    gap, short := idle + extra, missing / 2.0;
    assert extra * (2.0 * (r + 1.0)) == missing;
    assert extra > 0.0;
    assert extra * (2.0 * (r + 1.0)) == 2.0 * (extra * r) + 2.0 * extra;
    assert gap * r == idle * r + extra * r;
  }

  lemma {:induction false} EnoughRounds(short: real, need: real) returns (k: nat)
    requires short > 0.0 && need >= 0.0
    ensures (k as real) * short >= need
  {
    var q := need / short;
    assert q * short == need;
    k := q.Floor + 1;
    Distributes(k as real, q, short);
    ProductIsPositive(k as real - q, short);
  }

  /** Without that proviso the bound fails: dropping limiters that have not refilled
      admits more, for every such configuration. */
  lemma {:induction false} BoundFails(c: Config, idle: real) returns (events: seq<Event>, end: real)
    requires idle >= 0.0 && c.capacity as real > idle * (c.refill as real)
    ensures InOrder(events, 0.0) && EndsBy(events, end) && 0.0 <= end
    ensures Admitted(c, idle, Never, events, 0.0) as real >= c.capacity as real + end * (c.refill as real) + 1.0
  {
    ProductIsPositive(idle, Rate(c));
    var gap, short := ShortGap(c, idle);
    var k := EnoughRounds(short, c.capacity as real + 1.0);
    end := (k as real) * gap;
    events := Rounds(c, k, 0.0, gap);
    ProductIsPositive(k as real, gap);
    RoundsAdmit(c, idle, Never, k, 0.0, gap);
    RoundsEnd(c, k, 0.0, gap, end);
    RoundsPay(c, k, gap, short);
  }

  lemma {:induction false} RoundsPay(c: Config, k: nat, gap: real, short: real)
    requires gap * Rate(c) + short <= c.capacity as real
    ensures (k * c.capacity) as real >= Gain(c, 0.0, (k as real) * gap) + (k as real) * short
  {
    var n := k as real;
    assert (k * c.capacity) as real == n * c.capacity as real;
    Distributes(c.capacity as real, gap * Rate(c) + short, n);
    ProductIsPositive(c.capacity as real - (gap * Rate(c) + short), n);
    assert n * (gap * Rate(c) + short) == n * gap * Rate(c) + n * short;
  }
}
