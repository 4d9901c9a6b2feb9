/**
 Line framing of the NetECI server (ecasound/eca-neteci-server.cpp:391-463): bytes
 arrive in reads of any size, are collected in a per-client buffer that doubles when
 full, and every CRLF turns the bytes before it into a command.
 */
module NetEci {
  import opened Sequences

  newtype byte = x: int | 0 <= x < 256

  const CR: byte := 13
  const LF: byte := 10
  const START_BUFFER_SIZE: nat := 128
  const MAX_BUFFER_SIZE: nat := 65536

  type Bytes = seq<byte>

  // --- What a stream means ---------------------------------------------------

  /** Commands as they travel: each followed by CRLF. */
  function Join(cmds: seq<Bytes>): Bytes {
    if cmds == [] then [] else cmds[0] + [CR, LF] + Join(cmds[1..])
  }

  predicate EndsLine(tail: Bytes, b: byte) {
    b == LF && |tail| > 0 && tail[|tail| - 1] == CR
  }

  /** No CRLF anywhere inside. */
  predicate Plain(s: Bytes) {
    forall i :: 0 <= i < |s| - 1 ==> !(s[i] == CR && s[i + 1] == LF)
  }

  datatype Framed = Framed(cmds: seq<Bytes>, tail: Bytes)

  /** The commands in a stream and the unterminated rest. */
  function Frame(stream: Bytes): Framed {
    if stream == [] then Framed([], [])
    else
      var f, b := Frame(stream[..|stream| - 1]), stream[|stream| - 1];
      if EndsLine(f.tail, b) then Framed(f.cmds + [f.tail[..|f.tail| - 1]], [])
      else f.(tail := f.tail + [b])
  }

  lemma FrameStep(s: Bytes, b: byte)
    ensures var f := Frame(s);
            Frame(s + [b]) == if EndsLine(f.tail, b) then Framed(f.cmds + [f.tail[..|f.tail| - 1]], [])
                              else f.(tail := f.tail + [b])
  {
    assert (s + [b])[..|s + [b]| - 1] == s;
  }

  lemma {:induction false} JoinAppend(cmds: seq<Bytes>, c: Bytes)
    ensures Join(cmds + [c]) == Join(cmds) + c + [CR, LF]
  {
    if cmds == [] {
      assert cmds + [c] == [c] && [c][1..] == [];
      assert Join([c]) == c + [CR, LF] + Join([]);
    } else {
      assert (cmds + [c])[1..] == cmds[1..] + [c];
      JoinAppend(cmds[1..], c);
      assert cmds[0] + [CR, LF] + (Join(cmds[1..]) + c + [CR, LF]) == cmds[0] + [CR, LF] + Join(cmds[1..]) + c + [CR, LF];
    }
  }

  /** Framing loses nothing. */
  lemma {:induction false} FrameKeepsBytes(stream: Bytes)
    ensures Join(Frame(stream).cmds) + Frame(stream).tail == stream
  {
    if stream != [] {
      var before, b := stream[..|stream| - 1], stream[|stream| - 1];
      assert stream == before + [b];
      FrameKeepsBytes(before);
      FrameStep(before, b);
      var f := Frame(before);
      if EndsLine(f.tail, b) {
        LineKeepsBytes(f.cmds, f.tail);
      } else {
        ConcatAssoc(Join(f.cmds), f.tail, [b]);
      }
    }
  }

  lemma LineKeepsBytes(cmds: seq<Bytes>, tail: Bytes)
    requires EndsLine(tail, LF)
    ensures Join(cmds + [tail[..|tail| - 1]]) + [] == Join(cmds) + tail + [LF]
  {
    var c := tail[..|tail| - 1];
    JoinAppend(cmds, c);
    assert tail == c + [CR];
    ConcatAssoc(Join(cmds), c, [CR]);
    ConcatAssoc(Join(cmds) + c, [CR], [LF]);
    assert [CR] + [LF] == [CR, LF];
  }

  /** Framing cuts at every CRLF: none is left inside a command or the tail. */
  lemma {:induction false} FrameCutsEverywhere(stream: Bytes)
    ensures Plain(Frame(stream).tail)
    ensures forall i :: 0 <= i < |Frame(stream).cmds| ==> Plain(Frame(stream).cmds[i])
  {
    if stream != [] {
      var before, b := stream[..|stream| - 1], stream[|stream| - 1];
      assert stream == before + [b];
      FrameCutsEverywhere(before);
      FrameStep(before, b);
    }
  }

  /** Bytes without a CRLF stay in the tail. */
  lemma {:induction false} FramePlain(s: Bytes, t: Bytes)
    requires Frame(s).tail == [] && Plain(t)
    ensures Frame(s + t) == Framed(Frame(s).cmds, t)
  {
    if t == [] {
      assert s + t == s;
    } else {
      var t', b := t[..|t| - 1], t[|t| - 1];
      FramePlain(s, t');
      assert s + t == (s + t') + [b];
      FrameStep(s + t', b);
      assert t == t' + [b];
    }
  }

  /** Any commands without a CRLF come out as they were sent. */
  lemma {:induction false} FrameOfJoin(cmds: seq<Bytes>)
    requires forall i :: 0 <= i < |cmds| ==> Plain(cmds[i])
    ensures Frame(Join(cmds)) == Framed(cmds, [])
  {
    if cmds != [] {
      var before, c := cmds[..|cmds| - 1], cmds[|cmds| - 1];
      assert cmds == before + [c];
      FrameOfJoin(before);
      JoinAppend(before, c);
      var s := Join(before);
      FramePlain(s, c);
      FrameStep(s + c, CR);
      FrameStep(s + c + [CR], LF);
      assert Join(cmds) == s + c + [CR] + [LF];
      assert (c + [CR])[..|c|] == c;
    }
  }

  // --- What fits the buffer --------------------------------------------------

  /** Whenever another byte comes, the unterminated tail leaves room for it. */
  predicate Fits(stream: Bytes) {
    forall i :: 0 <= i < |stream| ==> |Frame(stream[..i]).tail| < MAX_BUFFER_SIZE
  }

  lemma FitsStep(s: Bytes, b: byte)
    ensures Fits(s + [b]) <==> Fits(s) && |Frame(s).tail| < MAX_BUFFER_SIZE
  {
    var t := s + [b];
    assert t[..|s|] == s;
    if Fits(t) {
      forall i | 0 <= i < |s| ensures |Frame(s[..i]).tail| < MAX_BUFFER_SIZE {
        assert s[..i] == t[..i];
      }
    }
    if Fits(s) && |Frame(s).tail| < MAX_BUFFER_SIZE {
      forall i | 0 <= i < |t| ensures |Frame(t[..i]).tail| < MAX_BUFFER_SIZE {
        if i < |s| { assert s[..i] == t[..i]; }
      }
    }
  }

  predicate ShortLines(f: Framed) {
    && |f.tail| <= MAX_BUFFER_SIZE
    && AllShort(f.cmds)
  }

  predicate AllShort(cmds: seq<Bytes>) {
    forall i :: 0 <= i < |cmds| ==> |cmds[i]| <= MAX_BUFFER_SIZE - 2
  }

  lemma AllShortSnoc(cmds: seq<Bytes>, c: Bytes)
    ensures AllShort(cmds + [c]) <==> AllShort(cmds) && |c| <= MAX_BUFFER_SIZE - 2
  {
    assert (cmds + [c])[|cmds|] == c;
    if AllShort(cmds + [c]) {
      forall i | 0 <= i < |cmds| ensures |cmds[i]| <= MAX_BUFFER_SIZE - 2 {
        assert (cmds + [c])[i] == cmds[i];
      }
    }
  }

  /** A stream fits exactly if no line has more than 65534 bytes and the tail no more than 65536. */
  lemma {:induction false} FitsMeaning(stream: Bytes)
    ensures Fits(stream) <==> ShortLines(Frame(stream))
  {
    if stream != [] {
      var before, b := stream[..|stream| - 1], stream[|stream| - 1];
      assert stream == before + [b];
      FitsMeaning(before);
      FitsStep(before, b);
      FrameStep(before, b);
      var f := Frame(before);
      if EndsLine(f.tail, b) {
        AllShortSnoc(f.cmds, f.tail[..|f.tail| - 1]);
      }
    }
  }

  predicate BufferSize(n: nat) {
    n in {128, 256, 512, 1024, 2048, 4096, 8192, 16384, 32768, 65536}
  }

  /** What one byte does to the queue and the buffered bytes: a full buffer is thrown away first. */
  function Taken(f: Framed, b: byte): Framed {
    var tail := if |f.tail| == MAX_BUFFER_SIZE then [] else f.tail;
    if EndsLine(tail, b) then Framed(f.cmds + [tail[..|tail| - 1]], []) else Framed(f.cmds, tail + [b])
  }

  /** What a stream leaves in the queue and in the buffer, whatever its lines are like. */
  function Received(stream: Bytes): Framed {
    if stream == [] then Framed([], [])
    else Taken(Received(stream[..|stream| - 1]), stream[|stream| - 1])
  }

  lemma ReceivedStep(s: Bytes, b: byte)
    ensures Received(s + [b]) == Taken(Received(s), b)
  {
    assert (s + [b])[..|s + [b]| - 1] == s;
  }

  /** A line feed that comes when the buffer is full ends no line, even behind a carriage return. */
  lemma FullBufferSplitsEnd(s: Bytes)
    requires |Received(s).tail| == MAX_BUFFER_SIZE
    ensures Received(s + [LF]) == Framed(Received(s).cmds, [LF])
  {
    ReceivedStep(s, LF);
  }

  /** How many bytes are buffered after `n` more that complete no command. */
  function Buffered(ptr: nat, n: nat): nat {
    if n == 0 then ptr else (ptr + n - 1) % MAX_BUFFER_SIZE + 1
  }

  lemma BufferedStep(ptr: nat, n: nat)
    requires ptr <= MAX_BUFFER_SIZE
    ensures Buffered(ptr, n) <= MAX_BUFFER_SIZE
    ensures Buffered(ptr, n + 1) == if Buffered(ptr, n) == MAX_BUFFER_SIZE then 1 else Buffered(ptr, n) + 1
  {
  }

  /** A read of up to 65536 bytes adds to the buffer exactly if it is not empty and does not overflow it. */
  lemma ReadAdvances(ptr: nat, n: nat)
    requires ptr <= MAX_BUFFER_SIZE && n <= MAX_BUFFER_SIZE
    ensures Buffered(ptr, n) > ptr <==> 0 < n <= MAX_BUFFER_SIZE - ptr
  {
  }

  /** Commands are only added, and between two of them the buffer fills, flushes and fills again. */
  lemma {:induction false} ReceivedMore(s: Bytes, more: Bytes)
    ensures |Received(s).tail| <= MAX_BUFFER_SIZE && |Received(s + more).tail| <= MAX_BUFFER_SIZE
    ensures Received(s).cmds <= Received(s + more).cmds
    ensures Received(s + more).cmds == Received(s).cmds ==> |Received(s + more).tail| == Buffered(|Received(s).tail|, |more|)
    decreases |more|
  {
    ReceivedFits(s);
    if more == [] {
      assert s + more == s;
    } else {
      var some, b := more[..|more| - 1], more[|more| - 1];
      ReceivedMore(s, some);
      assert s + more == (s + some) + [b];
      ReceivedStep(s + some, b);
      BufferedStep(|Received(s).tail|, |some|);
    }
  }

  lemma ReadGrows(s: Bytes, bytes: Bytes, parsed: seq<Bytes>, ptr: nat)
    requires Received(s).cmds == parsed && |Received(s).tail| == ptr
    ensures var f := Received(s + bytes);
            && parsed <= f.cmds
            && (f.cmds == parsed ==> |f.tail| == Buffered(ptr, |bytes|))
            && (|f.tail| > ptr || |f.cmds| > |parsed| <==> |f.cmds| > |parsed| || Buffered(ptr, |bytes|) > ptr)
  {
    ReceivedMore(s, bytes);
    var f := Received(s + bytes);
    assert |f.cmds| == |parsed| ==> f.cmds == parsed;
  }

  lemma {:induction false} ReceivedFits(s: Bytes)
    ensures |Received(s).tail| <= MAX_BUFFER_SIZE
  {
    if s != [] {
      ReceivedFits(s[..|s| - 1]);
    }
  }

  function Zeros(n: nat): (s: Bytes)
    ensures |s| == n
  {
    if n == 0 then [] else Zeros(n - 1) + [0]
  }

  lemma {:induction false} ZerosReceived(n: nat)
    requires n <= MAX_BUFFER_SIZE
    ensures Received(Zeros(n)) == Framed([], Zeros(n))
  {
    if n > 0 {
      ZerosReceived(n - 1);
      ReceivedStep(Zeros(n - 1), 0);
    }
  }

  /** Such a stream: 65535 bytes and CRLF leave no command, and the line feed in the buffer. */
  lemma LongLineLosesEnd()
    ensures Received(Zeros(MAX_BUFFER_SIZE - 1) + [CR] + [LF]) == Framed([], [LF])
  {
    var line := Zeros(MAX_BUFFER_SIZE - 1);
    ZerosReceived(MAX_BUFFER_SIZE - 1);
    ReceivedStep(line, CR);
    FullBufferSplitsEnd(line + [CR]);
  }

  /**
   As long as a stream fits, the queue and the buffered bytes are its framing; once it
   does not, bytes are gone for good.
   */
  ghost predicate Consistent(stream: Bytes, parsed: seq<Bytes>, tail: Bytes, lost: nat) {
    && |Join(parsed)| + |tail| + lost == |stream|
    && (Fits(stream) <==> lost == 0)
    && (lost == 0 ==> Frame(stream) == Framed(parsed, tail))
    && Received(stream) == Framed(parsed, tail)
  }

  /** A byte that found room, or for which a full buffer was thrown away. */
  lemma ConsistentStep(stream: Bytes, parsed: seq<Bytes>, tail: Bytes, lost: nat, b: byte, flushed: bool)
    requires Consistent(stream, parsed, tail, lost)
    requires flushed <==> |tail| == MAX_BUFFER_SIZE
    requires |tail| <= MAX_BUFFER_SIZE
    ensures var t := if flushed then [] else tail;
            var l := if flushed then lost + |tail| else lost;
            if EndsLine(t, b) then Consistent(stream + [b], parsed + [t[..|t| - 1]], [], l)
            else Consistent(stream + [b], parsed, t + [b], l)
  {
    FrameStep(stream, b);
    FitsStep(stream, b);
    ReceivedStep(stream, b);
    var t := if flushed then [] else tail;
    if EndsLine(t, b) { JoinAppend(parsed, t[..|t| - 1]); }
  }

  class Client {
    var buffer: array<byte>
    var ptr: nat
    /** Commands queued for this client since it connected. */
    var parsed: seq<Bytes>
    /** Everything received, and how many bytes were flushed away. */
    ghost var stream: Bytes
    ghost var lost: nat

    ghost predicate Valid()
      reads this, buffer
    {
      && BufferSize(buffer.Length) && ptr <= buffer.Length
      && Consistent(stream, parsed, buffer[..ptr], lost)
    }

    constructor ()
      ensures Valid() && fresh(buffer) && stream == [] && parsed == [] && buffer.Length == START_BUFFER_SIZE
    {
      buffer := new byte[START_BUFFER_SIZE](_ => 0);
      ptr, parsed, stream, lost := 0, [], [], 0;
    }

    /** Make room for one byte: double the buffer, or throw its contents away. */
    method MakeRoom()
      requires Valid() && ptr == buffer.Length
      modifies this`buffer, this`ptr, this`lost
      ensures BufferSize(buffer.Length) && ptr < buffer.Length && (buffer == old(buffer) || fresh(buffer))
      ensures parsed == old(parsed) && stream == old(stream)
      ensures if old(ptr) == MAX_BUFFER_SIZE then buffer == old(buffer) && ptr == 0 && lost == old(lost) + MAX_BUFFER_SIZE
              else ptr == old(ptr) && lost == old(lost) && buffer[..ptr] == old(buffer[..ptr])
    {
      var newLength := buffer.Length * 2;
      if newLength > MAX_BUFFER_SIZE {
        lost := lost + ptr;
        ptr := 0;
      } else {
        var newBuffer := new byte[newLength](_ => 0);
        for i := 0 to buffer.Length
          modifies newBuffer
          invariant newBuffer[..i] == buffer[..i]
        {
          newBuffer[i] := buffer[i];
        }
        buffer := newBuffer;
      }
    }
  
    /** Put the byte in the buffer, and if it completes a CRLF, queue what is before that. */
    method Store(b: byte)
      requires ptr < buffer.Length
      modifies this`ptr, this`parsed, buffer
      ensures ptr <= buffer.Length
      ensures var t := old(buffer[..ptr]);
              if EndsLine(t, b) then parsed == old(parsed) + [t[..|t| - 1]] && buffer[..ptr] == []
              else parsed == old(parsed) && buffer[..ptr] == t + [b]
    {
      ghost var t := buffer[..ptr];
      buffer[ptr] := b;
      assert buffer[..ptr] == t && buffer[..ptr + 1] == t + [b];
      if ptr > 0 && buffer[ptr] == LF && buffer[ptr - 1] == CR {
        assert t[..|t| - 1] == buffer[..ptr - 1];
        parsed := parsed + [buffer[..ptr - 1]];
        ptr := 0;
      } else {
        ptr := ptr + 1;
      }
    }

    /** The loop body on one byte. */
    method Accept(b: byte)
      requires Valid()
      modifies this, buffer
      ensures Valid() && stream == old(stream) + [b]
      ensures old(parsed) <= parsed && (buffer == old(buffer) || fresh(buffer))
    {
      ConsistentStep(stream, parsed, buffer[..ptr], lost, b, ptr == MAX_BUFFER_SIZE);
      if ptr == buffer.Length {
        MakeRoom();
      }
      assert buffer[..ptr] == if old(ptr) == MAX_BUFFER_SIZE then [] else old(buffer[..ptr]);
      Store(b);
      stream := stream + [b];
    }

    /** The byte loop. */
    method AcceptAll(bytes: Bytes)
      requires Valid()
      modifies this, buffer
      ensures Valid() && stream == old(stream) + bytes
      ensures buffer == old(buffer) || fresh(buffer)
    {
      for n := 0 to |bytes|
        invariant Valid() && stream == old(stream) + bytes[..n]
        invariant buffer == old(buffer) || fresh(buffer)
      {
        Accept(bytes[n]);
        assert bytes[..n + 1] == bytes[..n] + [bytes[n]];
      }
      assert bytes[..|bytes|] == bytes;
    }

    /**
     `parse_raw_incoming_data`: one read, of any size, continues the stream. What the source
     promises of it, that the buffer or the queue grows, holds exactly if a command was
     completed or the bytes buffered without one are more than before.
     */
    method Parse(bytes: Bytes)
      requires Valid()
      modifies this, buffer
      ensures Valid() && stream == old(stream) + bytes
      ensures Framed(parsed, buffer[..ptr]) == Received(old(stream) + bytes)
      ensures old(parsed) <= parsed && (buffer == old(buffer) || fresh(buffer))
      ensures parsed == old(parsed) ==> ptr == Buffered(old(ptr), |bytes|)
      ensures (ptr > old(ptr) || |parsed| > |old(parsed)|)
              <==> |parsed| > |old(parsed)| || Buffered(old(ptr), |bytes|) > old(ptr)
    {
      ReadGrows(stream, bytes, parsed, ptr);
      AcceptAll(bytes);
      assert |buffer[..ptr]| == ptr;
    }

    /**
     What the server knows after any reads: with lines of at most 65534 bytes and a tail of
     at most 65536, the queue is exactly the terminated lines and the buffer the tail; with
     anything longer it is not. Either way it depends on the bytes alone, not on how they were cut.
     */
    lemma QueueMeaning()
      requires Valid()
      ensures Framed(parsed, buffer[..ptr]) == Received(stream)
      ensures ShortLines(Frame(stream)) <==> Frame(stream) == Framed(parsed, buffer[..ptr])
      ensures ShortLines(Frame(stream)) ==> Join(parsed) + buffer[..ptr] == stream
      ensures ptr <= buffer.Length <= MAX_BUFFER_SIZE && BufferSize(buffer.Length)
    {
      FitsMeaning(stream);
      FrameKeepsBytes(stream);
    }

    /** Commands joined with CRLF and received in one piece are queued as they were. */
    method ReceiveCommands(cmds: seq<Bytes>)
      requires Valid() && stream == []
      requires forall i :: 0 <= i < |cmds| ==> Plain(cmds[i]) && |cmds[i]| <= MAX_BUFFER_SIZE - 2
      modifies this, buffer
      ensures Valid() && parsed == cmds && ptr == 0
    {
      Parse(Join(cmds));
      assert stream == Join(cmds);
      FrameOfJoin(cmds);
      FitsMeaning(stream);
    }
  }
}
