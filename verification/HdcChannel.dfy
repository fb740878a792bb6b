/** HDC frames and the byte channel over them (src/internal/hdcserver/channel.go). */
module HdcChannel {
  import opened Bytes
  import opened Streams

  const MAX_HDC_FRAME_SIZE := 16 * 0x10_0000

  datatype FrameFault = Io(error: IoError) | TooLarge

  datatype FrameResult = Frame(payload: seq<byte>) | Fault(fault: FrameFault)

  /** A frame as it is written: a big-endian length, truncated to 32 bits, and the payload. */
  function EncodeFrame(payload: seq<byte>): seq<byte>
  {
    Be32(|payload| % 0x1_0000_0000) + payload
  }

  /** What reading one frame yields, and the bytes it leaves. */
  function ReadFrame(s: seq<byte>, end: IoError): (FrameResult, seq<byte>)
  {
    if |s| < 4 then (Fault(Io(Shortfall(s, 4, end).value)), [])
    else ReadPayload(FromBe32(s[..4]), s[4..], end)
  }

  function ReadPayload(length: uint32, body: seq<byte>, end: IoError): (FrameResult, seq<byte>)
  {
    if length > MAX_HDC_FRAME_SIZE then (Fault(TooLarge), body)
    else if |body| < length then (Fault(Io(Shortfall(body, length, end).value)), [])
    else (Frame(body[..length]), body[length..])
  }

  /** The payload bytes of the complete frames a stream starts with. */
  function Payloads(s: seq<byte>): seq<byte>
    decreases |s|
  {
    match ReadFrame(s, Eof)
    case (Frame(payload), rest) => if |rest| < |s| then payload + Payloads(rest) else []
    case _ => []
  }

  /** The bytes after those frames, with which no complete frame starts. */
  function Leftover(s: seq<byte>): seq<byte>
    decreases |s|
  {
    match ReadFrame(s, Eof)
    case (Frame(payload), rest) => if |rest| < |s| then Leftover(rest) else s
    case _ => s
  }

  /** The error a reader of the frames finally meets. */
  function EndOf(s: seq<byte>, end: IoError): FrameFault
  {
    match ReadFrame(Leftover(s), end) case (Fault(fault), _) => fault case _ => TooLarge
  }

  method ReadHdcFrame(r: ByteReader) returns (result: FrameResult)
    modifies r`data
    ensures (result, r.data) == ReadFrame(old(r.data), r.end)
  {
    ghost var s := r.data;
    var lengthBuf := new byte[4];
    var err := r.ReadFull(lengthBuf);
    if err.Some? {
      return Fault(Io(err.value));
    }
    var length := FromBe32(lengthBuf[..]);
    if length > MAX_HDC_FRAME_SIZE {
      return Fault(TooLarge);
    }
    var payload := new byte[length];
    if length > 0 {
      err := r.ReadFull(payload);
      if err.Some? {
        return Fault(Io(err.value));
      }
    }
    assert payload[..] == s[4..][..length] && r.data == s[4..][length..];
    return Frame(payload[..]);
  }

  method WriteHdcFrame(w: ByteWriter, payload: seq<byte>) returns (ok: bool)
    modifies w
    ensures ok == (|EncodeFrame(payload)| <= old(w.room)) && w.room <= old(w.room) && (!ok ==> w.room == 0)
    ensures ok ==> w.written == old(w.written) + EncodeFrame(payload)
    ensures old(w.written) <= w.written
  {
    ghost var before := w.written;
    var header := Be32(|payload| % 0x1_0000_0000);
    ok := w.Write(header);
    if !ok || |payload| == 0 {
      assert ok ==> header + payload == header;
      return;
    }
    ok := w.Write(payload);
    Assoc(before, header, payload);
  }

  /** A written frame is read back with whatever follows left over, unless it is over the reader's limit. */
  lemma FrameRoundTrip(payload: seq<byte>, rest: seq<byte>, end: IoError)
    requires |payload| < 0x1_0000_0000
    ensures ReadFrame(EncodeFrame(payload) + rest, end) ==
              if |payload| <= MAX_HDC_FRAME_SIZE then (Frame(payload), rest) else (Fault(TooLarge), payload + rest)
  {
    WordRoundTrip(|payload|);
    FrameParts(Be32(|payload|), payload, rest);
    assert EncodeFrame(payload) == Be32(|payload|) + payload;
  }

  lemma FrameParts(head: seq<byte>, payload: seq<byte>, rest: seq<byte>)
    ensures var s := head + payload + rest; s[..|head|] == head && s[|head|..] == payload + rest
    ensures (payload + rest)[..|payload|] == payload && (payload + rest)[|payload|..] == rest
  {
  }

  function EncodeFrames(payloads: seq<seq<byte>>): seq<byte>
  {
    if payloads == [] then [] else EncodeFrames(payloads[..|payloads| - 1]) + EncodeFrame(payloads[|payloads| - 1])
  }

  /** However the sender cuts its bytes into frames, the same bytes come out. */
  lemma {:induction false} FramingIsTransparent(payloads: seq<seq<byte>>, rest: seq<byte>)
    requires forall k :: 0 <= k < |payloads| ==> |payloads[k]| <= MAX_HDC_FRAME_SIZE
    ensures Payloads(EncodeFrames(payloads) + rest) == Concat(payloads) + Payloads(rest)
    ensures Leftover(EncodeFrames(payloads) + rest) == Leftover(rest)
  {
    if payloads == [] {
      assert EncodeFrames(payloads) + rest == rest && Concat(payloads) + Payloads(rest) == Payloads(rest);
    } else {
      var init, last := payloads[..|payloads| - 1], payloads[|payloads| - 1];
      FramingIsTransparent(init, EncodeFrame(last) + rest);
      FrameRoundTrip(last, rest, Eof);
      Assoc(EncodeFrames(init), EncodeFrame(last), rest);
      Assoc(Concat(init), last, Payloads(rest));
    }
  }

  /** A stream that ends cleanly between two frames, or, unnoticed, right after a frame's length. */
  lemma CleanEnd(s: seq<byte>)
    ensures EndOf(s, Eof) == Io(Eof) <==>
              || Leftover(s) == []
              || (|Leftover(s)| == 4 && 0 < FromBe32(Leftover(s)) <= MAX_HDC_FRAME_SIZE)
  {
    LeftoverHasNoFrame(s);
  }

  lemma LengthAlone(n: uint32)
    requires 0 < n <= MAX_HDC_FRAME_SIZE
    ensures Payloads(Be32(n)) == [] && Leftover(Be32(n)) == Be32(n) && FromBe32(Be32(n)) == n
  {
    var head := Be32(n);
    WordRoundTrip(n);
    assert head[..4] == head && head[4..] == [];
    assert ReadFrame(head, Eof).0.Fault?;
  }

  /**
   Frames of which the last is cut right after its length look like a whole stream without the last: its bytes are
   missing, and nothing says so.
   */
  lemma CutAfterLengthLooksClean(payloads: seq<seq<byte>>, lost: seq<byte>)
    requires 0 < |lost| <= MAX_HDC_FRAME_SIZE && forall k :: 0 <= k < |payloads| ==> |payloads[k]| <= MAX_HDC_FRAME_SIZE
    ensures var cut := EncodeFrames(payloads) + Be32(|lost|);
            && cut < EncodeFrames(payloads + [lost])
            && Payloads(cut) == Concat(payloads) && EndOf(cut, Eof) == Io(Eof)
  {
    CutIsShorter(payloads, lost);
    CutIsClean(payloads, |lost|);
  }

  lemma CutIsShorter(payloads: seq<seq<byte>>, lost: seq<byte>)
    requires 0 < |lost| <= MAX_HDC_FRAME_SIZE
    ensures EncodeFrames(payloads) + Be32(|lost|) < EncodeFrames(payloads + [lost])
  {
    var frames, longer := EncodeFrames(payloads), payloads + [lost];
    assert longer[..|payloads|] == payloads && longer[|payloads|] == lost;
    assert EncodeFrames(longer) == frames + (Be32(|lost|) + lost);
    Longer(frames, Be32(|lost|), lost);
  }

  lemma Longer(a: seq<byte>, b: seq<byte>, c: seq<byte>)
    requires c != []
    ensures a + b < a + (b + c)
  {
    Assoc(a, b, c);
  }

  lemma CutIsClean(payloads: seq<seq<byte>>, n: uint32)
    requires 0 < n <= MAX_HDC_FRAME_SIZE && forall k :: 0 <= k < |payloads| ==> |payloads[k]| <= MAX_HDC_FRAME_SIZE
    ensures var cut := EncodeFrames(payloads) + Be32(n); Payloads(cut) == Concat(payloads) && EndOf(cut, Eof) == Io(Eof)
  {
    LengthAlone(n);
    FramingIsTransparent(payloads, Be32(n));
    CleanEnd(EncodeFrames(payloads) + Be32(n));
    assert Concat(payloads) + [] == Concat(payloads);
  }

  lemma {:induction false} LeftoverHasNoFrame(s: seq<byte>)
    ensures ReadFrame(Leftover(s), Eof).0.Fault?
    decreases |s|
  {
    var (result, rest) := ReadFrame(s, Eof);
    if result.Frame? {
      LeftoverHasNoFrame(rest);
    }
  }

  /** How far a frame reader gets does not depend on how the stream ends. */
  lemma FrameWhateverEnd(s: seq<byte>, end: IoError)
    ensures ReadFrame(s, end).0.Frame? == ReadFrame(s, Eof).0.Frame?
    ensures ReadFrame(s, end).0.Frame? ==> ReadFrame(s, end) == ReadFrame(s, Eof) && |ReadFrame(s, end).1| < |s|
  {
  }

  lemma FrameConsumed(s: seq<byte>, end: IoError)
    requires ReadFrame(s, end).0.Frame?
    ensures |ReadFrame(s, end).1| + |ReadFrame(s, end).0.payload| < |s|
    ensures Payloads(s) == ReadFrame(s, end).0.payload + Payloads(ReadFrame(s, end).1)
    ensures EndOf(s, end) == EndOf(ReadFrame(s, end).1, end)
  {
    FrameWhateverEnd(s, end);
  }

  lemma NothingLeft(s: seq<byte>, end: IoError)
    requires ReadFrame(s, end).0.Fault?
    ensures Payloads(s) == [] && EndOf(s, end) == ReadFrame(s, end).0.fault
  {
    FrameWhateverEnd(s, end);
  }

  // ---- Commands

  datatype Command = Command(code: uint16, payload: seq<byte>)

  function EncodeCommand(c: Command): seq<byte>
  {
    EncodeFrame(Le16(c.code) + c.payload)
  }

  function EncodeCommands(cs: seq<Command>): seq<byte>
  {
    if cs == [] then [] else EncodeCommands(cs[..|cs| - 1]) + EncodeCommand(cs[|cs| - 1])
  }

  datatype CommandResult = Received(command: Command) | NoCommand(fault: FrameFault) | ShortCommand

  function CommandOf(frame: FrameResult): CommandResult
  {
    match frame
    case Fault(fault) => NoCommand(fault)
    case Frame(payload) =>
      if |payload| < 2 then ShortCommand else Received(Command(FromLe16(payload[..2]), payload[2..]))
  }

  lemma CommandRoundTrip(c: Command, rest: seq<byte>, end: IoError)
    requires |c.payload| + 2 <= MAX_HDC_FRAME_SIZE
    ensures ReadFrame(EncodeCommand(c) + rest, end).1 == rest
    ensures CommandOf(ReadFrame(EncodeCommand(c) + rest, end).0) == Received(c)
  {
    var payload := Le16(c.code) + c.payload;
    FrameRoundTrip(payload, rest, end);
    assert payload[..2] == Le16(c.code) && payload[2..] == c.payload;
  }

  lemma EncodeCommandsSnoc(cs: seq<Command>, c: Command)
    ensures EncodeCommands(cs + [c]) == EncodeCommands(cs) + EncodeCommand(c)
  {
    assert (cs + [c])[..|cs|] == cs;
  }

  /** The commands a stream starts with. */
  function ReadCommands(s: seq<byte>): seq<Command>
    decreases |s|
  {
    var (frame, rest) := ReadFrame(s, Eof);
    match CommandOf(frame)
    case Received(c) => if |rest| < |s| then [c] + ReadCommands(rest) else []
    case _ => []
  }

  lemma {:induction false} CommandsRoundTrip(cs: seq<Command>, rest: seq<byte>)
    requires forall k :: 0 <= k < |cs| ==> |cs[k].payload| + 2 <= MAX_HDC_FRAME_SIZE
    ensures ReadCommands(EncodeCommands(cs) + rest) == cs + ReadCommands(rest)
  {
    if cs == [] {
      assert EncodeCommands(cs) + rest == rest && cs + ReadCommands(rest) == ReadCommands(rest);
    } else {
      var init, last := cs[..|cs| - 1], cs[|cs| - 1];
      CommandsRoundTrip(init, EncodeCommand(last) + rest);
      CommandRoundTrip(last, rest, Eof);
      Assoc(EncodeCommands(init), EncodeCommand(last), rest);
      Assoc(init, [last], ReadCommands(rest));
      assert cs == init + [last];
    }
  }

  // ---- channelConn

  lemma {:induction false} EncodeCommandsAppend(cs: seq<Command>, ds: seq<Command>)
    ensures EncodeCommands(cs + ds) == EncodeCommands(cs) + EncodeCommands(ds)
  {
    if ds == [] {
      assert cs + ds == cs && EncodeCommands(cs) + [] == EncodeCommands(cs);
    } else {
      var init, last := ds[..|ds| - 1], ds[|ds| - 1];
      EncodeCommandsAppend(cs, init);
      EncodeCommandsSnoc(cs + init, last);
      assert cs + ds == cs + init + [last];
      Assoc(EncodeCommands(cs), EncodeCommands(init), EncodeCommand(last));
    }
  }

  /** A command over the frame limit is not read back as itself: its length is refused, or was cut to 32 bits. */
  lemma TooLongIsNotRead(c: Command, rest: seq<byte>)
    requires |c.payload| + 2 > MAX_HDC_FRAME_SIZE
    ensures var cs := ReadCommands(EncodeCommand(c) + rest); cs == [] || cs[0] != c
  {
    var payload := Le16(c.code) + c.payload;
    var length, s := |payload| % 0x1_0000_0000, EncodeFrame(payload) + rest;
    WordRoundTrip(length);
    assert s[..4] == Be32(length) && s[4..] == payload + rest;
    assert length <= MAX_HDC_FRAME_SIZE ==> ReadFrame(s, Eof).0 == Frame((payload + rest)[..length]);
  }

  lemma CutAt(a: seq<byte>, n: nat, b: seq<byte>)
    requires n <= |a|
    ensures a + b == a[..n] + (a[n..] + b)
  {
  }

  class ChannelConn {
    const r: ByteReader
    const w: ByteWriter
    var buf: seq<byte>

    constructor (r: ByteReader, w: ByteWriter)
      ensures this.r == r && this.w == w && buf == []
    {
      this.r, this.w, buf := r, w, [];
    }

    /** The bytes its reader is still to be given: the rest of the last frame, then all complete frames to come. */
    ghost function Pending(): seq<byte>
      reads this, r
    {
      buf + Payloads(r.data)
    }

    /** The error it is given after them. */
    ghost function End(): FrameFault
      reads r
    {
      EndOf(r.data, r.end)
    }

    /** The next frame, once the last one has been given out. */
    method Refill() returns (err: Option<FrameFault>)
      modifies this`buf, r`data
      ensures err.None? ==> Pending() == old(Pending()) && End() == old(End())
      ensures err.None? ==>
                && |r.data| + |buf| <= old(|r.data| + |buf|)
                && (|r.data| + |buf| < old(|r.data| + |buf|) || buf != [])
      ensures err.Some? ==> old(Pending()) == [] && err.value == old(End())
    {
      err := None;
      if |buf| == 0 {
        ghost var s := r.data;
        var frame := ReadHdcFrame(r);
        if frame.Fault? {
          NothingLeft(s, r.end);
          return Some(frame.fault);
        }
        buf := frame.payload;
        FrameConsumed(s, r.end);
      }
    }

    /** Fills p from `from` with the next bytes; gives the error only when there are none left. */
    method Read(p: array<byte>, from: nat) returns (n: nat, err: Option<FrameFault>)
      requires from <= p.Length
      modifies this`buf, r`data, p
      ensures from + n <= p.Length && p[..from] == old(p[..from])
      ensures err.None? ==> old(Pending()) == p[from..from + n] + Pending() && End() == old(End())
      ensures err.Some? ==> n == 0 && old(Pending()) == [] && err.value == old(End())
      ensures err.None? && from < p.Length ==> |r.data| + |buf| < old(|r.data| + |buf|)
    {
      err := Refill();
      if err.Some? {
        return 0, err;
      }
      n := if |buf| < p.Length - from then |buf| else p.Length - from;
      ghost var had := buf;
      forall i | 0 <= i < n { p[from + i] := buf[i]; }
      buf := buf[n..];
      assert p[from..from + n] == had[..n];
      CutAt(had, n, Payloads(r.data));
    }

    /** io.ReadFull: the next |p| bytes, or an error if fewer than that are still to come. */
    method ReadFull(p: array<byte>) returns (err: Option<FrameFault>)
      modifies this`buf, r`data, p
      ensures err.None? <==> p.Length <= |old(Pending())|
      ensures err.None? ==> old(Pending()) == p[..] + Pending() && End() == old(End())
      ensures err.Some? ==>
                err.value == if old(Pending()) != [] && old(End()) == Io(Eof) then Io(UnexpectedEof) else old(End())
    {
      var got := 0;
      err := None;
      while got < p.Length && err.None?
        invariant 0 <= got <= p.Length
        invariant err.None? ==> old(Pending()) == p[..got] + Pending() && End() == old(End())
        invariant err.Some? ==> got < p.Length && old(Pending()) == p[..got] && err.value == old(End())
        decreases err.None?, |r.data| + |buf|
      {
        ghost var before, read := Pending(), p[..got];
        var n;
        n, err := Read(p, got);
        assert p[..got + n] == read + p[got..got + n];
        if err.None? {
          Assoc(read, p[got..got + n], Pending());
        } else {
          assert read + [] == read;
        }
        got := got + n;
      }
      assert got == p.Length ==> p[..got] == p[..];
      if err == Some(Io(Eof)) && got > 0 {
        err := Some(Io(UnexpectedEof));
      }
    }

    method ReadCommand() returns (result: CommandResult)
      modifies r`data
      ensures result == CommandOf(ReadFrame(old(r.data), r.end).0) && r.data == ReadFrame(old(r.data), r.end).1
    {
      var frame := ReadHdcFrame(r);
      if frame.Fault? {
        return NoCommand(frame.fault);
      }
      if |frame.payload| < 2 {
        return ShortCommand;
      }
      return Received(Command(FromLe16(frame.payload[..2]), frame.payload[2..]));
    }

    method WriteCommand(code: uint16, payload: seq<byte>) returns (ok: bool)
      modifies w
      ensures ok ==> w.written == old(w.written) + EncodeCommand(Command(code, payload))
      ensures w.room <= old(w.room) && (!ok ==> w.room == 0)
      ensures old(w.written) <= w.written
    {
      ok := WriteHdcFrame(w, Le16(code) + payload);
    }
  }
}
