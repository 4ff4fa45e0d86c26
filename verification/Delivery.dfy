/** Sending responses: `finalize_response` queues them, `handle_write` drains the
    queue and then the file, through partial writes and would-blocks. Nothing is
    lost, repeated or reordered, and the size on record is what was sent, unless a
    response is queued while an earlier large file is unsent. */
module Delivery {
  import opened Bytes

  const MAX_IOV := 64
  const MAX_COALESCE := 64 * 1024
  const FILE_BUFFER := 65536

  /** The answer to one write (or file read): how much, or not at all. */
  datatype Io = Took(n: nat) | WouldBlock | Broken

  datatype Outcome = Sent | Waiting | Closed

  /** A response ready to be queued; `file` is what a large file holds. */
  datatype Reply = Reply(header: string, body: string, status: int, head: bool, file: Option<string>)

  /** The bytes a reply puts on the connection. */
  function Wire(r: Reply): (s: string) {
    if r.head then r.header
    else r.header + r.body + (if r.file.Some? then r.file.value else "")
  }

  /** `resp_size_`: what is recorded as the size of the response while `file` is the
      large file on record. */
  function SizeWith(r: Reply, file: Option<string>): (n: nat) {
    |r.header| +
    if r.head then 0
    else if r.body != "" then |r.body|
    else if r.status == 200 && file.Some? then |file.value|
    else 0
  }

  function Size(r: Reply): (n: nat) {
    SizeWith(r, r.file)
  }

  /** The recorded size is what is sent, except for a file next to a body or under
      a status other than 200. */
  lemma {:induction false} SizeIsExact(r: Reply)
    ensures Size(r) == |Wire(r)| <==>
            r.head || r.file.None? || r.file.value == "" || (r.body == "" && r.status == 200)
  {
    assert !r.head && r.file.Some? ==> |Wire(r)| == |r.header| + |r.body| + |r.file.value|;
  }

  /** What a reply adds to the queue. */
  function Head(r: Reply): (s: string) {
    if r.head then r.header else r.header + r.body
  }

  function FileAfter(file: Option<string>, r: Reply): (f: Option<string>) {
    if r.head then None else if r.file.Some? then r.file else file
  }

  function OffsetAfter(offset: nat, r: Reply): (n: nat) {
    if r.head || r.file.Some? then 0 else offset
  }

  /** What is unsent once `r` is queued, too. */
  function UnsentAfter(queue: seq<string>, file: Option<string>, offset: nat, r: Reply): (s: string) {
    Concat(queue) + Head(r) + Rest(FileAfter(file, r), OffsetAfter(offset, r))
  }

  /** Responses stay in order if and only if nothing is unsent of an earlier file
      (or the new reply happens to read the same in front of it as behind it). */
  lemma {:induction false} OrderIff(queue: seq<string>, file: Option<string>, offset: nat, r: Reply)
    ensures UnsentAfter(queue, file, offset, r) == Unsent(queue, file, offset) + Wire(r) <==>
            Rest(file, offset) == "" || (!r.head && r.file.None? && Head(r) + Rest(file, offset) == Rest(file, offset) + Head(r))
  {
    var q, h, rest := Concat(queue), Head(r), Rest(file, offset);
    if r.head || r.file.Some? {
      assert |UnsentAfter(queue, file, offset, r)| == |q| + |Wire(r)|;
      if rest == "" {
        Assoc(q, h, Rest(FileAfter(file, r), 0));
      }
    } else {
      Assoc(q, h, rest);
      Assoc(q, rest, h);
      assert Wire(r) == h;
      assert (q + (h + rest))[|q|..] == h + rest && (q + (rest + h))[|q|..] == rest + h;
    }
  }

  /** Two large files asked for in one go: the first one is never sent. */
  lemma {:induction false} FirstFileIsLost(first: Reply, second: Reply)
    requires !first.head && first.body == "" && first.file.Some? && first.file.value != ""
    requires !second.head && second.body == "" && second.file.Some?
    ensures UnsentAfter([first.header], first.file, 0, second) == first.header + second.header + second.file.value
    ensures UnsentAfter([first.header], first.file, 0, second) != Wire(first) + Wire(second)
  {
    assert Concat([first.header]) == first.header;
    assert Unsent([first.header], first.file, 0) == Wire(first);
    OrderIff([first.header], first.file, 0, second);
  }

  /** Behind nothing, a reply is next. */
  lemma {:induction false} BehindNothing(queue: seq<string>, file: Option<string>, offset: nat, buffer: string, r: Reply)
    requires BufferOk(file, offset, buffer)
    ensures Rest(file, offset) == "" ==>
              && UnsentAfter(queue, file, offset, r) == Unsent(queue, file, offset) + Wire(r)
              && BufferOk(FileAfter(file, r), OffsetAfter(offset, r), buffer)
  {
    OrderIff(queue, file, offset, r);
  }

  /** What happens to a connection: a response is ready, or it may be written to. */
  datatype Event = Respond(reply: Reply) | Writable

  /** The responses, in order. */
  function Wires(events: seq<Event>): (s: string) {
    if events == [] then ""
    else
      var last := events[|events| - 1];
      Wires(events[..|events| - 1]) + if last.Respond? then Wire(last.reply) else ""
  }

  function Clamp(n: nat, max: nat): (k: nat) {
    if n == 0 then if max == 0 then 0 else 1 else if n > max then max else n
  }

  lemma {:induction false} ConcatSplit(parts: seq<string>, k: nat)
    requires k <= |parts|
    ensures Concat(parts) == Concat(parts[..k]) + Concat(parts[k..])
  {
    if k == 0 {
      assert parts[..0] == [] && parts[0..] == parts;
    } else {
      ConcatSplit(parts[1..], k - 1);
      assert parts[..k][1..] == parts[1..][..k - 1];
      Assoc(parts[0], Concat(parts[1..][..k - 1]), Concat(parts[k..]));
    }
  }

  /** No chunk of the queue is empty: a write always has payload. */
  predicate Full(queue: seq<string>) {
    forall i :: 0 <= i < |queue| ==> queue[i] != ""
  }

  function Rest(file: Option<string>, offset: nat): (s: string) {
    if file.Some? && offset <= |file.value| then file.value[offset..] else ""
  }

  /** What has not been written yet. */
  function Unsent(queue: seq<string>, file: Option<string>, offset: nat): (s: string) {
    Concat(queue) + Rest(file, offset)
  }

  /** The TLS buffer holds the file's bytes at the current offset. */
  predicate BufferOk(file: Option<string>, offset: nat, buffer: string) {
    match file
    case None => buffer == ""
    case Some(data) => offset + |buffer| <= |data| && data[offset..offset + |buffer|] == buffer
  }

  lemma {:induction false} FileMoves(data: string, offset: nat, n: nat, buffer: string)
    requires offset + n <= |data| && BufferOk(Some(data), offset, buffer) && (buffer == "" || n <= |buffer|)
    ensures Unsent([], Some(data), offset) == data[offset..offset + n] + Unsent([], Some(data), offset + n)
    ensures BufferOk(Some(data), offset + n, if buffer == "" then "" else buffer[n..])
  {
    assert data[offset..] == data[offset..offset + n] + data[offset + n..];
    if buffer != "" {
      assert data[offset + n..offset + |buffer|] == data[offset..offset + |buffer|][n..];
    }
  }

  lemma {:induction false} BufferInFile(file: Option<string>, offset: nat, buffer: string)
    requires BufferOk(file, offset, buffer) && file.Some?
    ensures offset <= |file.value|
  {
  }

  /** The socket takes something, at least `n` times in a row. */
  predicate Willing(io: seq<Io>, n: int) {
    n <= |io| && forall i :: 0 <= i < n ==> io[i].Took?
  }

  /** Drops `n` bytes from the front of the queue. */
  method Consume(queue: seq<string>, n: nat) returns (rest: seq<string>)
    requires n <= |Concat(queue)| && Full(queue)
    ensures Full(rest) && Concat(rest) == Concat(queue)[n..]
  {
    rest := queue;
    var left := n;
    while left > 0 && rest != []
      invariant Full(rest) && 0 <= left <= |Concat(rest)|
      invariant Concat(rest)[left..] == Concat(queue)[n..]
      decreases left
    {
      var front := rest[0];
      if left >= |front| {
        assert Concat(rest)[left..] == Concat(rest[1..])[left - |front|..];
        left := left - |front|;
        rest := rest[1..];
      } else {
        assert Concat(rest)[left..] == front[left..] + Concat(rest[1..]);
        var cut := [front[left..]] + rest[1..];
        assert cut[1..] == rest[1..];
        rest := cut;
        left := 0;
      }
    }
  }

  class Sender {
    const tls: bool
    var queue: seq<string>
    var file: Option<string>
    var offset: nat
    var buffer: string
    var size: nat
    var sent: string
    var io: seq<Io>

    ghost predicate Valid()
      reads this
    {
      Full(queue) && BufferOk(file, offset, buffer)
    }

    ghost function Pending(): (s: string)
      reads this
    {
      Unsent(queue, file, offset)
    }

    constructor (tls: bool, io: seq<Io>)
      ensures Valid() && queue == [] && file == None && sent == "" && this.tls == tls
    {
      this.tls, this.io := tls, io;
      queue, file, offset, buffer, size, sent := [], None, 0, "", 0, "";
    }

    method Next() returns (o: Io)
      modifies this`io
      ensures if old(io) == [] then o == WouldBlock && io == [] else o == old(io)[0] && io == old(io)[1..]
    {
      if io == [] {
        return WouldBlock;
      }
      o := io[0];
      io := io[1..];
    }

    /** `finalize_response`: header and body join the queue, coalesced for TLS up to
        a limit, whatever is still unsent. A large file replaces the one on record,
        a HEAD request drops it, any other reply leaves it. */
    method Finalize(r: Reply)
      requires Valid() && r.header != ""
      modifies this`queue, this`file, this`offset, this`size
      ensures Full(queue) && Concat(queue) == old(Concat(queue)) + Head(r)
      ensures file == FileAfter(old(file), r) && offset == OffsetAfter(old(offset), r)
      ensures size == SizeWith(r, file) && (old(file).None? ==> size == Size(r))
      ensures old(Rest(file, offset)) == "" ==> Valid() && Pending() == old(Pending()) + Wire(r)
    {
      BehindNothing(queue, file, offset, buffer, r);
      file, offset := FileAfter(file, r), OffsetAfter(offset, r);
      size := |r.header|;
      var hasBody := !r.head && r.body != "";
      if hasBody {
        size := size + |r.body|;
      } else if !r.head && r.status == 200 && file.Some? {
        size := size + |file.value|;
      }
      var chunks := if hasBody && tls && |r.body| <= MAX_COALESCE then [r.header + r.body]
                    else if hasBody then [r.header, r.body]
                    else [r.header];
      assert Concat(chunks) == Head(r) by {
        assert Concat([r.body]) == r.body && [r.header, r.body][1..] == [r.body];
      }
      ConcatSplit(queue + chunks, |queue|);
      assert (queue + chunks)[..|queue|] == queue && (queue + chunks)[|queue|..] == chunks;
      queue := queue + chunks;
    }

    /** Bytes handed to the socket. */
    method Emit(bytes: string, ghost more: string)
      requires Pending() == bytes + more
      modifies this`sent
      ensures sent == old(sent) + bytes && sent + more == old(sent + Pending())
    {
      Assoc(sent, bytes, more);
      sent := sent + bytes;
    }

    /** Plaintext: one gathered write of at most 64 chunks. */
    method WriteGathered() returns (r: Outcome)
      requires Valid() && queue != []
      modifies this`queue, this`sent, this`io
      ensures Valid() && sent + Pending() == old(sent + Pending()) && old(sent) <= sent
      ensures r.Sent? ==> |Concat(queue)| < |old(Concat(queue))|
      ensures forall n :: n > 0 && Willing(old(io), n) ==> Willing(io, n - 1) && |Pending()| < |old(Pending())|
      ensures !tls && Willing(old(io), 1) ==> r.Sent?
    {
      var o := Next();
      match o {
        case Took(n) =>
          var k := if |queue| < MAX_IOV then |queue| else MAX_IOV;
          var gathered := Concat(queue[..k]);
          ConcatSplit(queue, k);
          assert |gathered| > 0 by {
            assert queue[..k][0] == queue[0];
          }
          r := WriteFront(Clamp(n, |gathered|));
        case WouldBlock => return Waiting;
        case Broken => return Closed;
      }
    }

    /** The first `n` queued bytes are written. */
    method WriteFront(n: nat) returns (r: Outcome)
      requires Valid() && 0 < n <= |Concat(queue)|
      modifies this`queue, this`sent
      ensures Valid() && sent + Pending() == old(sent + Pending()) && old(sent) <= sent
      ensures r == Sent && |Concat(queue)| == |old(Concat(queue))| - n
    {
      var all := Concat(queue);
      var rest := Consume(queue, n);
      assert all == all[..n] + all[n..];
      Assoc(all[..n], all[n..], Rest(file, offset));
      Emit(all[..n], all[n..] + Rest(file, offset));
      queue := rest;
      return Sent;
    }

    /** TLS: one record from the front chunk. */
    method WriteRecord() returns (r: Outcome)
      requires Valid() && queue != []
      modifies this`queue, this`sent, this`io
      ensures Valid() && sent + Pending() == old(sent + Pending()) && old(sent) <= sent
      ensures r.Sent? ==> |Concat(queue)| < |old(Concat(queue))|
      ensures forall n :: n > 0 && Willing(old(io), n) ==> Willing(io, n - 1) && |Pending()| < |old(Pending())|
      ensures Willing(old(io), 1) ==> !r.Closed?
    {
      var o := Next();
      match o {
        case Took(n) =>
          var front := queue[0];
          var k := Clamp(n, |front|);
          r := WriteFront(k);
          if k < |front| {
            return Waiting;
          }
        case WouldBlock => return Waiting;
        case Broken => return Closed;
      }
    }

    /** The user-space queue is drained first. */
    method DrainQueue() returns (r: Outcome)
      requires Valid()
      modifies this`queue, this`sent, this`io
      ensures Valid() && sent + Pending() == old(sent + Pending()) && old(sent) <= sent
      ensures r.Sent? ==> queue == []
      ensures old(Willing(io, 2 * |Pending()|)) ==>
                Willing(io, 2 * |Pending()|) && (r.Sent? || (tls && r.Waiting? && |Pending()| < |old(Pending())|))
    {
      while queue != []
        invariant Valid() && sent + Pending() == old(sent + Pending()) && old(sent) <= sent
        invariant old(Willing(io, 2 * |Pending()|)) ==> Willing(io, 2 * |Pending()|)
        invariant |Pending()| <= |old(Pending())|
        decreases |Concat(queue)|
      {
        ghost var n := 2 * |Pending()|;
        assert queue[0] != "" && n > 0;
        if tls {
          r := WriteRecord();
        } else {
          r := WriteGathered();
        }
        if !r.Sent? {
          return;
        }
      }
      return Sent;
    }

    /** Plaintext file: the kernel copies from the offset on. */
    method SendFile() returns (r: Outcome)
      requires Valid() && queue == [] && file.Some?
      modifies this`offset, this`buffer, this`sent, this`io
      ensures Valid() && sent + Pending() == old(sent + Pending()) && old(sent) <= sent
      ensures r.Sent? ==> offset == |file.value|
      ensures old(Willing(io, 2 * |Pending()|)) ==> Willing(io, 2 * |Pending()|) && r.Sent?
    {
      buffer := "";
      while offset < |file.value|
        invariant Valid() && buffer == "" && sent + Pending() == old(sent + Pending()) && old(sent) <= sent
        invariant old(Willing(io, 2 * |Pending()|)) ==> Willing(io, 2 * |Pending()|)
        invariant |Pending()| <= |old(Pending())|
        decreases |file.value| - offset
      {
        var o := Next();
        match o {
          case Took(n) =>
            Skip(Clamp(n, |file.value| - offset));
          case WouldBlock => return Waiting;
          case Broken => return Closed;
        }
      }
      return Sent;
    }

    /** The next `n` bytes of the file are written; what is buffered beyond them
        stays buffered. */
    method Skip(n: nat)
      requires Valid() && queue == [] && file.Some? && offset + n <= |file.value|
      requires buffer == "" || n <= |buffer|
      modifies this`offset, this`buffer, this`sent
      ensures Valid() && sent + Pending() == old(sent + Pending()) && old(sent) <= sent
      ensures offset == old(offset) + n && buffer == if old(buffer) == "" then "" else old(buffer)[n..]
      ensures |Pending()| == |old(Pending())| - n
    {
      hide Rest, BufferOk, Unsent;
      var data := file.value;
      FileMoves(data, offset, n, buffer);
      Emit(data[offset..offset + n], Unsent([], file, offset + n));
      if buffer != "" {
        buffer := buffer[n..];
      }
      offset := offset + n;
    }

    method Fill(n: nat)
      requires Valid() && file.Some? && buffer == "" && queue == [] && offset < |file.value|
      modifies this`buffer
      ensures Valid() && buffer != ""
    {
      var left := |file.value| - offset;
      var k := Clamp(n, if FILE_BUFFER < left then FILE_BUFFER else left);
      buffer := file.value[offset..offset + k];
    }

    /** TLS file: a buffer is filled at the offset and kept until it is written. */
    method WriteFileRecord() returns (r: Outcome)
      requires Valid() && queue == [] && file.Some? && offset < |file.value|
      modifies this`offset, this`buffer, this`sent, this`io
      ensures Valid() && sent + Pending() == old(sent + Pending()) && old(sent) <= sent
      ensures r.Sent? ==> offset > old(offset)
      ensures forall n :: n > 1 && Willing(old(io), n) ==> Willing(io, n - 2) && |Pending()| < |old(Pending())|
      ensures Willing(old(io), 2) ==> !r.Closed?
    {
      hide Rest, Unsent;
      if buffer == "" {
        var got := Next();
        if !got.Took? {
          return Closed;
        }
        Fill(got.n);
      }
      var o := Next();
      match o {
        case Took(n) =>
          Skip(Clamp(n, |buffer|));
          return if buffer != "" then Waiting else Sent;
        case WouldBlock => return Waiting;
        case Broken => return Closed;
      }
    }

    method SendFileRecords() returns (r: Outcome)
      requires Valid() && queue == [] && file.Some? && tls
      modifies this`offset, this`buffer, this`sent, this`io
      ensures Valid() && sent + Pending() == old(sent + Pending()) && old(sent) <= sent
      ensures r.Sent? ==> offset == |file.value|
      ensures old(Willing(io, 2 * |Pending()|)) ==>
                Willing(io, 2 * |Pending()|) && (r.Sent? || (tls && r.Waiting? && |Pending()| < |old(Pending())|))
    {
      hide BufferOk;
      BufferInFile(file, offset, buffer);
      while offset < |file.value|
        invariant Valid() && sent + Pending() == old(sent + Pending()) && old(sent) <= sent
        invariant offset <= |file.value|
        invariant old(Willing(io, 2 * |Pending()|)) ==> Willing(io, 2 * |Pending()|)
        invariant |Pending()| <= |old(Pending())|
        decreases |file.value| - offset
      {
        ghost var n := 2 * |Pending()|;
        assert n > 1;
        r := WriteFileRecord();
        BufferInFile(file, offset, buffer);
        if !r.Sent? {
          return;
        }
      }
      return Sent;
    }

    /** Then the file, if there is one, and its bookkeeping is dropped. */
    method DrainFile() returns (r: Outcome)
      requires Valid() && queue == []
      modifies this`file, this`offset, this`buffer, this`sent, this`io
      ensures Valid() && sent + Pending() == old(sent + Pending()) && old(sent) <= sent
      ensures r.Sent? ==> Pending() == "" && file.None?
      ensures old(Willing(io, 2 * |Pending()|)) ==>
                Willing(io, 2 * |Pending()|) && (r.Sent? || (tls && r.Waiting? && |Pending()| < |old(Pending())|))
    {
      hide Willing;
      if file.None? {
        return Sent;
      }
      if tls {
        r := SendFileRecords();
      } else {
        r := SendFile();
      }
      if r.Sent? {
        file, offset, buffer := None, 0, "";
      }
    }

    /** `handle_write` up to the end of one response. */
    method HandleWrite() returns (r: Outcome)
      requires Valid()
      modifies this`queue, this`file, this`offset, this`buffer, this`sent, this`io
      ensures Valid() && sent + Pending() == old(sent + Pending()) && old(sent) <= sent
      ensures r.Sent? ==> Pending() == "" && file.None?
      ensures old(Willing(io, 2 * |Pending()|)) ==>
                Willing(io, 2 * |Pending()|) && (r.Sent? || (tls && r.Waiting? && |Pending()| < |old(Pending())|))
    {
      hide Willing, Unsent, BufferOk;
      r := DrainQueue();
      if r.Sent? {
        assert |sent + Pending()| == |old(sent + Pending())|;
        r := DrainFile();
      }
    }

    /** One response over any number of write events: what is on the wire is always
        a prefix of it, and all of it, of the recorded size, once it is sent. */
    method Deliver(reply: Reply, events: nat) returns (r: Outcome)
      requires Valid() && Pending() == "" && file.None? && reply.header != ""
      requires reply.head || reply.file.None? || (reply.body == "" && reply.status == 200)
      modifies this
      ensures sent <= old(sent) + Wire(reply) && old(sent) <= sent
      ensures r.Sent? ==> sent == old(sent) + Wire(reply) && |sent| - |old(sent)| == size
      ensures Willing(old(io), 2 * |Wire(reply)|) && events > |Wire(reply)| ==> r.Sent?
    {
      hide Unsent, Full, BufferOk, Wire, Size, Willing;
      Finalize(reply);
      SizeIsExact(reply);
      r := Waiting;
      var k := 0;
      while k < events && r.Waiting?
        invariant Valid() && sent + Pending() == old(sent) + Wire(reply) && old(sent) <= sent && size == Size(reply)
        invariant r.Sent? ==> Pending() == ""
        invariant Willing(old(io), 2 * |Wire(reply)|) ==>
                    !r.Closed? && Willing(io, 2 * |Pending()|) && (r.Waiting? ==> |Pending()| + k <= |Wire(reply)|)
      {
        r := HandleWrite();
        k := k + 1;
      }
    }

    /** Any run of responses and write events, up to the first response that is
        queued while an earlier file is unsent: written and unsent bytes together are
        all responses in order. */
    method Serve(events: seq<Event>) returns (k: nat, r: Outcome)
      requires Valid() && forall i :: 0 <= i < |events| && events[i].Respond? ==> events[i].reply.header != ""
      modifies this
      ensures k <= |events| && old(sent) <= sent
      ensures sent + Pending() == old(sent + Pending()) + Wires(events[..k])
      ensures k == |events| || r.Closed? || (events[k].Respond? && Rest(file, offset) != "")
    {
      hide Unsent, Full, BufferOk, Wire, Rest;
      k, r := 0, Waiting;
      assert events[..0] == [];
      while k < |events| && !r.Closed?
        invariant k <= |events| && Valid() && old(sent) <= sent
        invariant sent + Pending() == old(sent + Pending()) + Wires(events[..k])
      {
        ghost var base, done := old(sent + Pending()), Wires(events[..k]);
        assert events[..k + 1][..k] == events[..k];
        if events[k].Respond? {
          Assoc(sent, Pending(), Wire(events[k].reply));
          Assoc(base, done, Wire(events[k].reply));
          if Rest(file, offset) != "" {
            return;
          }
          Finalize(events[k].reply);
        } else {
          r := HandleWrite();
        }
        k := k + 1;
      }
    }
  }
}
