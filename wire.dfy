/** Length-prefixed message framing over a stream socket (the `Helper` class).

    A message on the wire is a 4-byte big-endian length followed by the payload.
    The socket is modelled by the sequence of events the receiving side observes:
    packets of bytes as `socket.recv` hands them out, and the two connection
    errors the code distinguishes.  An empty packet, or running out of events,
    is the peer closing the stream (`recv` returning `b''`). */
module Wire {

  type byte = b: int | 0 <= b < 256
  type Bytes = seq<byte>

  /** One more than the largest length `struct.pack('>I', ...)` accepts. */
  const Two32: int := 0x1_0000_0000

  /** `struct.pack('>I', n)`: the big-endian 32-bit encoding of `n`. */
  function Be32(n: int): (r: Bytes)
    requires 0 <= n < Two32
    ensures |r| == 4
    ensures n < 0x100 ==> r == [0, 0, 0, n]
  {
    [n / 0x100_0000, n / 0x1_0000 % 0x100, n / 0x100 % 0x100, n % 0x100]
  }

  /** `struct.unpack('>I', h)[0]`: the value of four big-endian bytes. */
  function Unbe32(h: Bytes): (n: int)
    requires |h| == 4
    ensures 0 <= n < Two32
    ensures h[0] == 0 && h[1] == 0 && h[2] == 0 ==> n == h[3]
  {
    ((h[0] as int * 0x100 + h[1]) * 0x100 + h[2]) * 0x100 + h[3]
  }

  lemma Be32RoundTrip(n: int)
    requires 0 <= n < Two32
    ensures Unbe32(Be32(n)) == n
  {
    var b := Be32(n);
    assert b[0] as int * 0x100 + b[1] == n / 0x1_0000;
    assert (b[0] as int * 0x100 + b[1]) * 0x100 + b[2] == n / 0x100;
  }

  lemma Unbe32RoundTrip(h: Bytes)
    requires |h| == 4
    ensures Be32(Unbe32(h)) == h
  {
    var n := Unbe32(h);
    var hi := (h[0] as int * 0x100 + h[1]) * 0x100 + h[2];
    assert n == hi * 0x100 + h[3] as int;
    assert n / 0x100 == hi && n % 0x100 == h[3];
    assert hi / 0x100 == h[0] as int * 0x100 + h[1] && hi % 0x100 == h[2] as int;
    assert n / 0x1_0000 == hi / 0x100;
    assert n / 0x100_0000 == (h[0] as int * 0x100 + h[1]) / 0x100;
  }

  /** What `Helper.send` hands to `sendall`, or the `struct.error` that escapes it
      when the payload is too long for a 32-bit length. */
  datatype Sent = Wire(bytes: Bytes) | PackError

  /** `Helper.send`: prefix the payload with its length. */
  function Send(msg: Bytes): (r: Sent)
    ensures r.Wire? <==> |msg| < Two32
    ensures r.Wire? ==> |r.bytes| == 4 + |msg| && Unbe32(r.bytes[..4]) == |msg| && r.bytes[4..] == msg
  {
    if |msg| < Two32 then
      Be32RoundTrip(|msg|);
      assert (Be32(|msg|) + msg)[..4] == Be32(|msg|);
      Wire(Be32(|msg|) + msg)
    else PackError
  }

  /** What one `socket.recv` call observes. */
  datatype Event =
    | Packet(data: Bytes)   // the bytes returned; empty means the peer closed the stream
    | Aborted               // ConnectionAbortedError
    | Reset                 // ConnectionResetError

  type Stream = seq<Event>

  /** Outcome of `Helper.recvall(n)`: the bytes it returns, `None` (stream closed),
      or the ConnectionResetError it lets through to `recv`. */
  datatype Chunk = Data(bytes: Bytes) | Closed | ResetByPeer

  function Prepend(d: Bytes, c: Chunk): Chunk
  {
    if c.Data? then Data(d + c.bytes) else c
  }

  /** `Helper.recvall(n)` on stream `s`: the outcome and what is left unread.
      A packet longer than the bytes still wanted is split, as `recv(n - len(data))`
      never returns more than asked.  An abort returns whatever was gathered so far. */
  function RecvAllSpec(s: Stream, n: nat): (r: (Chunk, Stream))
    ensures r.0.Data? ==> |r.0.bytes| <= n
    decreases |s|
  {
    if n == 0 then (Data([]), s)
    else if |s| == 0 then (Closed, s)
    else match s[0]
      case Aborted => (Data([]), s[1..])
      case Reset => (ResetByPeer, s[1..])
      case Packet(d) =>
        if |d| == 0 then (Closed, s[1..])
        else if n < |d| then (Data(d[..n]), [Packet(d[n..])] + s[1..])
        else
          var (c, rest) := RecvAllSpec(s[1..], n - |d|);
          (Prepend(d, c), rest)
  }

  function Lift(d: Bytes, r: (Chunk, Stream)): (Chunk, Stream)
  {
    (Prepend(d, r.0), r.1)
  }

  lemma LiftTwice(a: Bytes, b: Bytes, r: (Chunk, Stream))
    ensures Lift(a, Lift(b, r)) == Lift(a + b, r)
  {
    if r.0.Data? {
      assert a + (b + r.0.bytes) == (a + b) + r.0.bytes;
    }
  }

  /** `Helper.recvall`: grow `data` packet by packet until it holds `n` bytes. */
  method RecvAll(s: Stream, n: nat) returns (c: Chunk, rest: Stream)
    ensures (c, rest) == RecvAllSpec(s, n)
  {
    var data: Bytes := [];
    rest := s;
    assert Lift([], RecvAllSpec(s, n)) == RecvAllSpec(s, n) by {
      assert forall b: Bytes :: [] + b == b;
    }
    while |data| < n
      invariant |data| <= n
      invariant RecvAllSpec(s, n) == Lift(data, RecvAllSpec(rest, n - |data|))
      decreases n - |data|
    {
      if |rest| == 0 {
        return Closed, rest;
      }
      var want := n - |data|;
      if rest[0].Aborted? {
        assert data + [] == data;
        return Data(data), rest[1..];
      } else if rest[0].Reset? {
        return ResetByPeer, rest[1..];
      }
      var d := rest[0].data;
      if |d| == 0 {
        return Closed, rest[1..];
      }
      if want < |d| {
        var after := [Packet(d[want..])] + rest[1..];
        assert RecvAllSpec(rest, want) == (Data(d[..want]), after);
        assert RecvAllSpec(after, 0) == (Data([]), after);
        assert d[..want] + [] == d[..want];
        LiftTwice(data, d[..want], RecvAllSpec(after, 0));
        data := data + d[..want];
        rest := after;
      } else {
        assert RecvAllSpec(rest, want) == Lift(d, RecvAllSpec(rest[1..], want - |d|));
        LiftTwice(data, d, RecvAllSpec(rest[1..], want - |d|));
        data := data + d;
        rest := rest[1..];
      }
    }
    assert data + [] == data;
    c := Data(data);
  }

  /** Outcome of `Helper.recv`: a payload, `None`, or an exception escaping it
      (`struct.error` on a header cut short by an abort). */
  datatype Received = Message(payload: Bytes) | NoMessage | Crashed

  /** `Helper.recv` on stream `s`: the outcome and what is left unread. */
  function RecvSpec(s: Stream): (Received, Stream)
  {
    var (h, r1) := RecvAllSpec(s, 4);
    if !h.Data? || |h.bytes| == 0 then (NoMessage, r1)
    else if |h.bytes| != 4 then (Crashed, r1)
    else
      var (p, r2) := RecvAllSpec(r1, Unbe32(h.bytes));
      if p.Data? then (Message(p.bytes), r2) else (NoMessage, r2)
  }

  /** `Helper.recv`: read the length, then the payload. */
  method Recv(s: Stream) returns (r: Received, rest: Stream)
    ensures (r, rest) == RecvSpec(s)
  {
    var h, r1 := RecvAll(s, 4);
    if !h.Data? || |h.bytes| == 0 {
      return NoMessage, r1;
    }
    if |h.bytes| != 4 {
      return Crashed, r1;
    }
    var p, r2 := RecvAll(r1, Unbe32(h.bytes));
    if p.Data? {
      r, rest := Message(p.bytes), r2;
    } else {
      r, rest := NoMessage, r2;
    }
  }

  /** A stream of non-empty packets with no error: an arbitrary chunking of a byte string. */
  ghost predicate Chunked(s: Stream)
  {
    forall i :: 0 <= i < |s| ==> s[i].Packet? && |s[i].data| > 0
  }

  /** The bytes a stream carries, in order. */
  function Flatten(s: Stream): Bytes
  {
    if |s| == 0 then [] else (if s[0].Packet? then s[0].data else []) + Flatten(s[1..])
  }

  /** Whatever the chunking, `recvall(n)` returns the first `n` bytes of the stream
      and leaves exactly the rest, still a chunked stream. */
  lemma {:induction false} RecvAllChunked(s: Stream, n: nat)
    requires Chunked(s) && n <= |Flatten(s)|
    ensures RecvAllSpec(s, n).0 == Data(Flatten(s)[..n])
    ensures Chunked(RecvAllSpec(s, n).1) && Flatten(RecvAllSpec(s, n).1) == Flatten(s)[n..]
    decreases |s|
  {
    if n == 0 {
    } else {
      var d := s[0].data;
      assert Flatten(s) == d + Flatten(s[1..]);
      if n < |d| {
        var rest := [Packet(d[n..])] + s[1..];
        assert rest[1..] == s[1..];
        assert Flatten(rest) == d[n..] + Flatten(s[1..]);
      } else {
        assert Chunked(s[1..]);
        RecvAllChunked(s[1..], n - |d|);
        assert Flatten(s)[..n] == d + Flatten(s[1..])[..n - |d|];
        assert Flatten(s)[n..] == Flatten(s[1..])[n - |d|..];
      }
    }
  }

  /** A chunked stream shorter than `n` bytes makes `recvall(n)` return `None`. */
  lemma {:induction false} RecvAllShort(s: Stream, n: nat)
    requires Chunked(s) && |Flatten(s)| < n
    ensures RecvAllSpec(s, n).0 == Closed
    decreases |s|
  {
    if |s| > 0 {
      var d := s[0].data;
      assert Flatten(s) == d + Flatten(s[1..]);
      assert Chunked(s[1..]);
      RecvAllShort(s[1..], n - |d|);
    }
  }

  /** Round trip: whatever the chunking, `recv` returns exactly the payload `send`
      framed, and leaves the bytes after it for the next `recv`. */
  lemma RecvRoundTrip(msg: Bytes, s: Stream, tail: Bytes)
    requires Send(msg).Wire?
    requires Chunked(s) && Flatten(s) == Send(msg).bytes + tail
    ensures RecvSpec(s).0 == Message(msg)
    ensures Chunked(RecvSpec(s).1) && Flatten(RecvSpec(s).1) == tail
  {
    var wire := Send(msg).bytes;
    RecvAllChunked(s, 4);
    var r1 := RecvAllSpec(s, 4).1;
    assert Flatten(s)[..4] == wire[..4];
    assert Flatten(r1) == msg + tail;
    RecvAllChunked(r1, |msg|);
    assert (msg + tail)[..|msg|] == msg;
  }

  /** A stream that ends before the 4 length bytes, or before the announced number
      of payload bytes, yields `None`. */
  lemma RecvEndsEarly(s: Stream)
    requires Chunked(s)
    requires |Flatten(s)| < 4 || |Flatten(s)| < 4 + Unbe32(Flatten(s)[..4])
    ensures RecvSpec(s).0 == NoMessage
  {
    if |Flatten(s)| < 4 {
      RecvAllShort(s, 4);
    } else {
      RecvAllChunked(s, 4);
      var r1 := RecvAllSpec(s, 4).1;
      RecvAllShort(r1, Unbe32(Flatten(s)[..4]));
    }
  }

  /** An abort in the middle of the payload is not an error for `recv`: it returns
      the truncated payload gathered so far. */
  lemma AbortTruncatesPayload(msg: Bytes, k: nat)
    requires Send(msg).Wire? && 0 < k < |msg|
    ensures RecvSpec([Packet(Send(msg).bytes[..4 + k]), Aborted]).0 == Message(msg[..k])
  {
    var wire := Send(msg).bytes;
    var s := [Packet(wire[..4 + k]), Aborted];
    assert wire[..4 + k][..4] == wire[..4];
    assert wire[..4 + k][4..] == msg[..k];
    var r1 := RecvAllSpec(s, 4).1;
    assert r1 == [Packet(msg[..k]), Aborted];
    assert RecvAllSpec([Aborted], |msg| - k).0 == Data([]);
    assert msg[..k] + [] == msg[..k];
  }

  /** An abort after one to three length bytes makes `struct.unpack` raise out of `recv`. */
  lemma AbortInHeaderCrashes(h: Bytes)
    requires 0 < |h| < 4
    ensures RecvSpec([Packet(h), Aborted]).0 == Crashed
  {
    assert RecvAllSpec([Aborted], 4 - |h|).0 == Data([]);
    assert h + [] == h;
  }

  /** A reset before a whole message has arrived is caught by `recv`, which then
      returns `None`, exactly as for a stream that ends early. */
  lemma ResetMeansNoMessage(s: Stream)
    requires Chunked(s)
    requires |Flatten(s)| < 4 || |Flatten(s)| < 4 + Unbe32(Flatten(s)[..4])
    ensures RecvSpec(s + [Reset]).0 == NoMessage
  {
    if |Flatten(s)| < 4 {
      ResetAfterShort(s, 4);
    } else {
      RecvAllChunked(s, 4);
      RecvAllChunkedAppend(s, 4);
      var r1 := RecvAllSpec(s, 4).1;
      ResetAfterShort(r1, Unbe32(Flatten(s)[..4]));
    }
  }

  /** Appending events after a chunked stream does not change what `recvall(n)` reads
      when the chunked part already holds `n` bytes. */
  lemma {:induction false} RecvAllChunkedAppend(s: Stream, n: nat)
    requires Chunked(s) && n <= |Flatten(s)|
    ensures RecvAllSpec(s + [Reset], n).0 == RecvAllSpec(s, n).0
    ensures RecvAllSpec(s + [Reset], n).1 == RecvAllSpec(s, n).1 + [Reset]
    decreases |s|
  {
    if n > 0 {
      var d := s[0].data;
      assert Flatten(s) == d + Flatten(s[1..]);
      assert (s + [Reset])[1..] == s[1..] + [Reset];
      if n < |d| {
      } else {
        assert Chunked(s[1..]);
        RecvAllChunkedAppend(s[1..], n - |d|);
      }
    }
  }

  /** A reset met before `n` bytes arrived makes `recvall(n)` raise. */
  lemma {:induction false} ResetAfterShort(s: Stream, n: nat)
    requires Chunked(s) && |Flatten(s)| < n
    ensures RecvAllSpec(s + [Reset], n).0 == ResetByPeer
    decreases |s|
  {
    if |s| > 0 {
      var d := s[0].data;
      assert Flatten(s) == d + Flatten(s[1..]);
      assert (s + [Reset])[1..] == s[1..] + [Reset];
      assert Chunked(s[1..]);
      ResetAfterShort(s[1..], n - |d|);
    }
  }
}
