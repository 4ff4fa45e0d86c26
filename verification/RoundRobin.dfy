/** Round-robin choice of a backend that skips unhealthy ones, and how often each
    backend is chosen. */
module RoundRobin {
  import opened Bytes

  /** A position at most one turn off a ring of `n`, brought back onto it. */
  function Wrap(x: int, n: nat): (r: int)
    requires 0 < n
  {
    if x < 0 then x + n else if x >= n then x - n else x
  }

  /** The first healthy backend at or after `idx`, or `idx` if there is none. */
  function Pick(healthy: seq<bool>, idx: nat): (r: nat)
    requires idx < |healthy|
    ensures r < |healthy|
  {
    PickFrom(healthy, idx, 0)
  }

  function PickFrom(healthy: seq<bool>, idx: nat, i: nat): (r: nat)
    requires idx < |healthy| && i <= |healthy|
    ensures r < |healthy|
    decreases |healthy| - i
  {
    if i == |healthy| then idx
    else if UpAfter(healthy, idx, i) then Wrap(idx + i, |healthy|)
    else PickFrom(healthy, idx, i + 1)
  }

  lemma {:induction false} ModIsWrap(idx: nat, i: nat, n: nat)
    requires idx < n && i < n
    ensures (idx + i) % n == Wrap(idx + i, n)
  {
    if idx + i < n {
      assert (idx + i) % n == idx + i;
    } else {
      ModShift(idx + i - n, n);
    }
  }

  lemma {:induction false} ModShift(x: nat, n: nat)
    requires 0 < n
    ensures (x + n) % n == x % n
  {
    var q := x / n;
    assert x + n == (q + 1) * n + x % n;
    ModUnique(x + n, n, q + 1, x % n);
  }

  lemma {:induction false} ModUnique(x: nat, n: nat, q: nat, r: nat)
    requires 0 < n && r < n && x == q * n + r
    ensures x % n == r
  {
    var q', r' := x / n, x % n;
    MulDistributes(q', q, n);
    if q < q' {
      MulAtLeast(q' - q, n);
    } else if q' < q {
      MulDistributes(q, q', n);
      MulAtLeast(q - q', n);
    }
  }

  lemma {:induction false} MulDistributes(a: int, b: int, n: nat)
    ensures (a - b) * n == a * n - b * n
  {
  }

  lemma {:induction false} MulAtLeast(k: int, n: nat)
    requires k >= 1
    ensures k * n >= n
  {
    assert k * n == (k - 1) * n + n;
  }

  /** The backend `e` steps on from `idx`, or back from `j`, is healthy. */
  predicate UpAfter(healthy: seq<bool>, idx: nat, e: nat)
    requires idx < |healthy| && e < |healthy|
  {
    healthy[Wrap(idx + e, |healthy|)]
  }

  predicate UpBefore(healthy: seq<bool>, j: nat, e: nat)
    requires j < |healthy| && e < |healthy|
  {
    healthy[Wrap(j - e, |healthy|)]
  }

  /** `d` backends right before `j`, going backwards, are unhealthy. */
  predicate DownBefore(healthy: seq<bool>, j: nat, d: nat)
    requires j < |healthy|
  {
    d < |healthy| && forall e :: 1 <= e <= d ==> !UpBefore(healthy, j, e)
  }

  /** How many backends right before `j` are unhealthy. */
  function Run(healthy: seq<bool>, j: nat, d: nat): (u: nat)
    requires j < |healthy| && healthy[j] && d < |healthy|
    decreases |healthy| - d
  {
    if d + 1 < |healthy| && !UpBefore(healthy, j, d + 1) then Run(healthy, j, d + 1) else d
  }

  lemma {:induction false} RunIsLongest(healthy: seq<bool>, j: nat, d: nat)
    requires j < |healthy| && healthy[j] && DownBefore(healthy, j, d)
    ensures var u := Run(healthy, j, d);
            DownBefore(healthy, j, u) && d <= u && (u + 1 == |healthy| || UpBefore(healthy, j, u + 1))
    decreases |healthy| - d
  {
    if d + 1 < |healthy| && !UpBefore(healthy, j, d + 1) {
      RunIsLongest(healthy, j, d + 1);
    }
  }

  /** The search from `idx` that has skipped `i` backends ends at the first
      healthy one. */
  lemma {:induction false} PickReaches(healthy: seq<bool>, idx: nat, i: nat, d: nat)
    requires idx < |healthy| && i <= d < |healthy| && UpAfter(healthy, idx, d)
    requires forall e :: i <= e < d ==> !UpAfter(healthy, idx, e)
    ensures PickFrom(healthy, idx, i) == Wrap(idx + d, |healthy|)
    decreases d - i
  {
    if i < d {
      PickReaches(healthy, idx, i + 1, d);
    }
  }

  /** Backend `j` is chosen from exactly the positions of its run. */
  lemma {:induction false} PickIff(healthy: seq<bool>, j: nat, d: nat)
    requires j < |healthy| && healthy[j] && d < |healthy|
    ensures Pick(healthy, Wrap(j - d, |healthy|)) == j <==> d <= Run(healthy, j, 0)
  {
    var n, u := |healthy|, Run(healthy, j, 0);
    RunIsLongest(healthy, j, 0);
    var idx := Wrap(j - d, n);
    if d <= u {
      forall e | 0 <= e < d
        ensures !UpAfter(healthy, idx, e)
      {
        assert !UpBefore(healthy, j, d - e);
      }
      PickReaches(healthy, idx, 0, d);
    } else {
      // the nearest healthy backend between the start and `j` is found first
      var h := FirstUp(healthy, idx, 0, d - (u + 1));
      PickReaches(healthy, idx, 0, h);
      assert Wrap(idx + h, n) != j;
    }
  }

  lemma {:induction false} FirstUp(healthy: seq<bool>, idx: nat, i: nat, d: nat) returns (h: nat)
    requires idx < |healthy| && i <= d < |healthy| && UpAfter(healthy, idx, d)
    ensures i <= h <= d && UpAfter(healthy, idx, h)
    ensures forall e :: i <= e < h ==> !UpAfter(healthy, idx, e)
    decreases d - i
  {
    if UpAfter(healthy, idx, i) {
      h := i;
    } else {
      h := FirstUp(healthy, idx, i + 1, d);
    }
  }

  // ----------------------------------------------------------------- counting

  /** The choices among `k` consecutive picks, from position `start` on. */
  function Count(healthy: seq<bool>, start: nat, k: nat, j: nat): (c: nat)
    requires start < |healthy| && k <= |healthy|
  {
    if k == 0 then 0
    else
      Count(healthy, start, k - 1, j) + (if Pick(healthy, Wrap(start + k - 1, |healthy|)) == j then 1 else 0)
  }

  /** Distance from `j` back to position `start + i`. */
  function Back(start: nat, i: nat, j: nat, n: nat): (d: int)
    requires 0 < n
  {
    Wrap(j - Wrap(start + i, n), n)
  }

  /** Going around once, the distances back from `j` take each value once. */
  lemma {:induction false} CountIsRun(healthy: seq<bool>, start: nat, j: nat, k: nat, first: nat)
    requires start < |healthy| && j < |healthy| && healthy[j] && k <= |healthy|
    requires first == Back(start, 0, j, |healthy|)
    ensures var u := Run(healthy, j, 0);
            Count(healthy, start, k, j) == Below(first, k, u, |healthy|)
  {
    var n, u := |healthy|, Run(healthy, j, 0);
    if k > 0 {
      CountIsRun(healthy, start, j, k - 1, first);
      var d := Back(start, k - 1, j, n);
      PickIff(healthy, j, d);
      assert Wrap(j - d, n) == Wrap(start + k - 1, n);
      assert d == Wrap(first - (k - 1), n);
    }
  }

  /** How many of `first, first - 1, ...` around the ring, `k` of them, are at
      most `u`. */
  function Below(first: nat, k: nat, u: nat, n: nat): (c: nat)
    requires first < n && k <= n
  {
    if k == 0 then 0
    else Below(first, k - 1, u, n) + (if Wrap(first - (k - 1), n) <= u then 1 else 0)
  }

  lemma {:induction false} BelowIs(first: nat, k: nat, u: nat, n: nat)
    requires first < n && k <= n && u < n
    ensures Below(first, k, u, n) ==
            (if k <= first + 1 then
               // first - k + 1 .. first
               (if first <= u then k else if first - k + 1 <= u then u - (first - k + 1) + 1 else 0)
             else
               // 0 .. first, then first + n - k + 1 .. n - 1
               (if first <= u then first + 1 else u + 1) +
               (if first + n - k + 1 <= u then u - (first + n - k + 1) + 1 else 0))
  {
    if k > 0 {
      BelowIs(first, k - 1, u, n);
    }
  }

  /** Over any `n` consecutive picks of an n-backend group, a healthy backend is
      chosen once, plus once for each unhealthy one right before it. */
  lemma {:induction false} PickCounts(healthy: seq<bool>, start: nat, j: nat)
    requires start < |healthy| && j < |healthy| && healthy[j]
    ensures Count(healthy, start, |healthy|, j) == 1 + Run(healthy, j, 0)
  {
    var n := |healthy|;
    var first := Back(start, 0, j, n);
    RunIsLongest(healthy, j, 0);
    CountIsRun(healthy, start, j, n, first);
    BelowIs(first, n, Run(healthy, j, 0), n);
  }

  /** An unhealthy backend is never chosen while there is a healthy one. */
  lemma {:induction false} PickIsHealthy(healthy: seq<bool>, idx: nat, j: nat)
    requires idx < |healthy| && j < |healthy| && healthy[j]
    ensures healthy[Pick(healthy, idx)]
  {
    var n := |healthy|;
    var d := Wrap(j - idx, n);
    assert Wrap(idx + d, n) == j;
    var h := FirstUp(healthy, idx, 0, d);
    PickReaches(healthy, idx, 0, h);
  }

  /** While there is none, the choice is round-robin as if all were. */
  lemma {:induction false} PickWithoutHealth(healthy: seq<bool>, idx: nat)
    requires idx < |healthy| && forall j :: 0 <= j < |healthy| ==> !healthy[j]
    ensures Pick(healthy, idx) == idx
  {
    NoneFrom(healthy, idx, 0);
  }

  lemma {:induction false} NoneFrom(healthy: seq<bool>, idx: nat, i: nat)
    requires idx < |healthy| && i <= |healthy| && forall j :: 0 <= j < |healthy| ==> !healthy[j]
    ensures PickFrom(healthy, idx, i) == idx
    decreases |healthy| - i
  {
    if i < |healthy| {
      NoneFrom(healthy, idx, i + 1);
    }
  }

  // ---------------------------------------------------------------- the picker

  method Search(healthy: seq<bool>, idx: nat) returns (r: nat)
    requires idx < |healthy|
    ensures r == Pick(healthy, idx)
  {
    var n := |healthy|;
    var i := 0;
    while i < n
      invariant 0 <= i <= n && Pick(healthy, idx) == PickFrom(healthy, idx, i)
    {
      ModIsWrap(idx, i, n);
      var candidate := (idx + i) % n;
      if healthy[candidate] {
        return candidate;
      }
      i := i + 1;
    }
    return idx;
  }

  /** One upstream group: its counter runs on, the health of its backends is set
      elsewhere. */
  class Group {
    var healthy: seq<bool>
    var index: nat

    constructor (healthy: seq<bool>)
      ensures this.healthy == healthy && index == 0
    {
      this.healthy, index := healthy, 0;
    }

    /** `pick_server`; an empty group has none. */
    method PickServer() returns (r: Option<nat>)
      modifies this`index
      ensures healthy == [] ==> r == None && index == old(index)
      ensures healthy != [] ==> index == old(index) + 1 && r == Some(Pick(healthy, old(index) % |healthy|))
    {
      if healthy == [] {
        return None;
      }
      var idx := index % |healthy|;
      index := index + 1;
      var found := Search(healthy, idx);
      return Some(found);
    }

    /** A whole round of picks: how often backend `j` comes up. */
    method Round(j: nat) returns (count: nat)
      requires j < |healthy| && healthy[j]
      modifies this`index
      ensures count == 1 + Run(healthy, j, 0) && index == old(index) + |healthy|
    {
      var n := |healthy|;
      ghost var start := index % n;
      count := 0;
      var k := 0;
      while k < n
        invariant 0 <= k <= n && index == old(index) + k && count == Count(healthy, start, k, j)
      {
        ModSteps(old(index), k, n);
        var r := PickServer();
        if r == Some(j) {
          count := count + 1;
        }
        k := k + 1;
      }
      PickCounts(healthy, start, j);
    }
  }

  lemma {:induction false} ModSteps(c: nat, k: nat, n: nat)
    requires k < n
    ensures (c + k) % n == Wrap(c % n + k, n)
  {
    var q := c / n;
    assert c + k == q * n + (c % n + k);
    if c % n + k < n {
      ModUnique(c + k, n, q, c % n + k);
    } else {
      assert c + k == (q + 1) * n + (c % n + k - n);
      ModUnique(c + k, n, q + 1, c % n + k - n);
    }
  }
}
