/** The process-wide pool of idle keep-alive connections, one queue per
    (scheme, host, port). */
module ConnectionPool {
  import opened Bytes

  const MAX_IDLE_PER_UPSTREAM := 16

  /** An idle connection with the bytes read past the end of its last response. */
  datatype Pooled = Pooled(conn: nat, leftover: string, lastUsed: int)

  // ----------------------------------------------------------------- identity

  /** How the peer of an upstream connection is verified. */
  datatype Policy = Plain | Insecure | Verified(caFile: string, serverName: string)

  function Scheme(p: Policy): (s: string) {
    match p
    case Plain => ""
    case Insecure => "tls/insecure|"
    case Verified(ca, name) => "tls/" + ca + "|" + name + "|"
  }

  /** `pool_key`. */
  function Key(host: string, port: nat, scheme: string): (s: string) {
    scheme + host + ":" + Decimal(port)
  }

  predicate Free(s: string, c: char) {
    forall i :: 0 <= i < |s| ==> s[i] != c
  }

  /** Two texts joined by a separator that neither tail holds split only one way. */
  lemma {:induction false} LastSeparator(a: string, b: string, x: string, y: string, c: char)
    requires a + [c] + b == x + [c] + y && Free(b, c) && Free(y, c)
    ensures a == x && b == y
  {
    var s := a + [c] + b;
    assert s[|a|] == c && s[|x|] == c;
    assert s[..|a|] == a && s[|a| + 1..] == b;
    assert s[..|x|] == x && s[|x| + 1..] == y;
  }

  lemma {:induction false} DigitsAreFree(n: nat)
    ensures Free(Decimal(n), ':') && Free(Decimal(n), '|')
  {
    forall i | 0 <= i < |Decimal(n)|
      ensures Decimal(n)[i] != ':' && Decimal(n)[i] != '|'
    {
      assert IsDigit(Decimal(n)[i]);
    }
  }

  lemma {:induction false} BarIsNotLost(p: Policy, host: string, other: string)
    requires Scheme(p) != "" && Free(other, '|')
    ensures Scheme(p) + host != other
  {
    var s := Scheme(p);
    assert (s + host)[|s| - 1] == '|';
  }

  /** The scheme and the host part of a key: the scheme ends with its last '|'. */
  lemma {:induction false} SchemeAndHost(p: Policy, q: Policy, host: string, host': string)
    requires Scheme(p) + host == Scheme(q) + host' && Free(host, '|') && Free(host', '|')
    ensures Scheme(p) == Scheme(q) && host == host'
  {
    var s, t := Scheme(p), Scheme(q);
    if s != "" && t != "" {
      var a, x := s[..|s| - 1], t[..|t| - 1];
      assert s == a + "|" && t == x + "|";
      LastSeparator(a, host, x, host', '|');
    } else {
      if s != "" {
        BarIsNotLost(p, host, host');
      }
      if t != "" {
        BarIsNotLost(q, host', host);
      }
      assert "" + host == host && "" + host' == host';
    }
  }

  /** A text with one separator only splits there. */
  lemma {:induction false} OnlySeparator(a: string, b: string, x: string, y: string, c: char)
    requires a + [c] + b == x + [c] + y && Free(a, c) && Free(b, c)
    ensures a == x && b == y
  {
    var s := a + [c] + b;
    assert s[|a|] == c && s[|x|] == c;
    assert s[..|a|] == a && s[|a| + 1..] == b;
    assert s[..|x|] == x && s[|x| + 1..] == y;
  }

  /** No '|' in the strings of the policy. */
  predicate BarFree(p: Policy) {
    p.Verified? ==> Free(p.caFile, '|') && Free(p.serverName, '|')
  }

  lemma {:induction false} SchemeIsInjective(p: Policy, q: Policy)
    requires Scheme(p) == Scheme(q) && BarFree(p)
    ensures p == q
  {
    match (p, q) {
      case (Verified(ca, name), Verified(ca', name')) =>
        var s := Scheme(p);
        var a, x := "tls/" + ca, "tls/" + ca';
        assert s[..|s| - 1] == a + "|" + name && s[..|s| - 1] == x + "|" + name';
        OnlySeparator(a, name, x, name', '|');
        assert a[4..] == ca && x[4..] == ca';
      case (Insecure, Verified(ca, name)) => InsecureIsApart(ca, name);
      case (Verified(ca, name), Insecure) => InsecureIsApart(ca, name);
      case _ =>
    }
  }

  lemma {:induction false} InsecureIsApart(ca: string, name: string)
    ensures Scheme(Insecure) != Scheme(Verified(ca, name))
  {
    var s, t := Scheme(Insecure), Scheme(Verified(ca, name));
    if s == t {
      assert t[4 + |ca|] == '|' && |t| == 4 + |ca| + 1 + |name| + 1;
      assert s[|s| - 1] == '|' && forall i :: 0 <= i < |s| - 1 ==> s[i] != '|';
      assert false;
    }
  }

  /** Two upstreams with one key have the same scheme, host and port. */
  lemma {:induction false} KeyParts(host: string, port: nat, p: Policy, host': string, port': nat, q: Policy)
    requires Key(host, port, Scheme(p)) == Key(host', port', Scheme(q)) && Free(host, '|') && Free(host', '|')
    ensures Scheme(p) == Scheme(q) && host == host' && port == port'
  {
    DigitsAreFree(port);
    DigitsAreFree(port');
    LastSeparator(Scheme(p) + host, Decimal(port), Scheme(q) + host', Decimal(port'), ':');
    DecimalRoundTrip(port);
    DecimalRoundTrip(port');
    SchemeAndHost(p, q, host, host');
  }

  /** A policy without '|' shares its key with no other upstream at all. */
  lemma {:induction false} KeyIsInjective(host: string, port: nat, p: Policy, host': string, port': nat, q: Policy)
    requires Key(host, port, Scheme(p)) == Key(host', port', Scheme(q))
    requires Free(host, '|') && Free(host', '|') && BarFree(p)
    ensures host == host' && port == port' && p == q
  {
    KeyParts(host, port, p, host', port', q);
    SchemeIsInjective(p, q);
  }

  /** A '|' may belong to either string. */
  lemma {:induction false} BarMoves(a: string, b: string, c: string)
    ensures Scheme(Verified(a + "|" + b, c)) == Scheme(Verified(a, b + "|" + c))
    ensures Verified(a + "|" + b, c) != Verified(a, b + "|" + c)
  {
    assert "tls/" + (a + "|" + b) == "tls/" + a + "|" + b;
    assert |a + "|" + b| > |a|;
  }

  /** Every policy with a '|' in a string has another with the same scheme. */
  lemma {:induction false} BarCollides(p: Policy) returns (q: Policy)
    requires !BarFree(p)
    ensures q != p && Scheme(q) == Scheme(p)
  {
    hide Scheme;
    var ca, name := p.caFile, p.serverName;
    if !Free(ca, '|') {
      var i :| 0 <= i < |ca| && ca[i] == '|';
      q := Verified(ca[..i], ca[i + 1..] + "|" + name);
      assert ca == ca[..i] + "|" + ca[i + 1..];
      BarMoves(ca[..i], ca[i + 1..], name);
    } else {
      var i :| 0 <= i < |name| && name[i] == '|';
      q := Verified(ca + "|" + name[..i], name[i + 1..]);
      assert name == name[..i] + "|" + name[i + 1..];
      BarMoves(ca, name[..i], name[i + 1..]);
    }
  }

  predicate SameUpstream(host: string, port: nat, p: Policy, host': string, port': nat, q: Policy) {
    host == host' && port == port' && p == q
  }

  /** An upstream has its queue for itself if and only if no string of its policy
      holds a '|' (host names never do). */
  lemma {:induction false} KeyIsOwnIff(host: string, port: nat, p: Policy)
    requires Free(host, '|')
    ensures BarFree(p) <==>
            forall host', port', q :: Free(host', '|') && Key(host, port, Scheme(p)) == Key(host', port', Scheme(q)) ==>
              SameUpstream(host, port, p, host', port', q)
  {
    if BarFree(p) {
      forall host', port', q | Free(host', '|') && Key(host, port, Scheme(p)) == Key(host', port', Scheme(q))
        ensures SameUpstream(host, port, p, host', port', q)
      {
        KeyIsInjective(host, port, p, host', port', q);
      }
    } else {
      var q := BarCollides(p);
      assert Key(host, port, Scheme(p)) == Key(host, port, Scheme(q)) && !SameUpstream(host, port, p, host, port, q);
    }
  }

  // ------------------------------------------------------------------ queues

  /** The queue behind expired entries; checkout drops those. */
  function Unexpired(q: seq<Pooled>, expiry: int): (r: seq<Pooled>) {
    if q != [] && q[0].lastUsed < expiry then Unexpired(q[1..], expiry) else q
  }

  /** Those dropped have expired, and the first that stays has not. */
  lemma {:induction false} ExpiredGo(q: seq<Pooled>, expiry: int) returns (k: nat)
    ensures k <= |q| && Unexpired(q, expiry) == q[k..]
    ensures (forall j :: 0 <= j < k ==> q[j].lastUsed < expiry) && (k < |q| ==> q[k].lastUsed >= expiry)
    decreases |q|
  {
    if q != [] && q[0].lastUsed < expiry {
      k := ExpiredGo(q[1..], expiry);
      k := k + 1;
    } else {
      k := 0;
    }
  }

  /** The queues after `key` has been given the queue `q`; empty queues are erased. */
  function WithQueue(idle: map<string, seq<Pooled>>, key: string, q: seq<Pooled>): (r: map<string, seq<Pooled>>) {
    if q == [] then idle - {key} else idle[key := q]
  }

  class Pool {
    var idle: map<string, seq<Pooled>>
    const idleTimeout: int

    constructor (timeout: int)
      ensures idle == map[] && idleTimeout == timeout
    {
      idle, idleTimeout := map[], timeout;
    }

    /** The oldest idle connection of the key that has not expired. */
    method Checkout(key: string, now: int) returns (r: Option<Pooled>)
      modifies this
      ensures key !in old(idle) ==> r == None && idle == old(idle)
      ensures key in old(idle) ==>
                var live := Unexpired(old(idle)[key], now - idleTimeout);
                if live == [] then r == None && idle == old(idle) - {key}
                else r == Some(live[0]) && idle == WithQueue(old(idle), key, live[1..])
      ensures forall k :: k in idle ==> k in old(idle) && (k == key ==> idle[k] != []) && (k != key ==> idle[k] == old(idle)[k])
      ensures forall k :: k in old(idle) && k != key ==> k in idle
    {
      if key !in idle {
        return None;
      }
      var q, expiry := idle[key], now - idleTimeout;
      while q != []
        invariant Unexpired(q, expiry) == Unexpired(old(idle)[key], expiry)
        invariant idle == old(idle)
        decreases |q|
      {
        var conn := q[0];
        q := q[1..];
        if conn.lastUsed >= expiry {
          idle := WithQueue(idle, key, q);
          return Some(conn);
        }
      }
      idle := idle - {key};
      return None;
    }

    /** Returns a connection; a full queue drops it. */
    method Checkin(key: string, conn: Pooled, now: int)
      modifies this
      ensures var q := if key in old(idle) then old(idle)[key] else [];
              idle == old(idle)[key := if |q| >= MAX_IDLE_PER_UPSTREAM then q else q + [conn.(lastUsed := now)]]
    {
      if key !in idle {
        idle := idle[key := []];
      }
      var q := idle[key];
      if |q| >= MAX_IDLE_PER_UPSTREAM {
        return;
      }
      idle := idle[key := q + [conn.(lastUsed := now)]];
    }

    method Invalidate(key: string)
      modifies this
      ensures idle == old(idle) - {key}
    {
      idle := idle - {key};
    }
  }
}
