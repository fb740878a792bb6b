/** Pushing one file to an HDC device (src/internal/hdcserver/file_transfer.go). */
module FilePush {
  import opened Bytes
  import opened Streams
  import opened Protobuf
  import opened HdcChannel

  const HDC_FILE_CHUNK_SIZE := 49152

  const CHANNEL_CLOSE: uint16 := 2
  const WAKEUP_SLAVE_TASK: uint16 := 12
  const FILE_INIT: uint16 := 3000
  const FILE_CHECK: uint16 := 3001
  const FILE_BEGIN: uint16 := 3002
  const FILE_DATA: uint16 := 3003
  const FILE_FINISH: uint16 := 3004

  datatype Target = Target(size: uint64, mtime: uint64, remote: seq<byte>, base: seq<byte>)

  /** Command k of the data phase carries chunk k, under the number of bytes sent before it. */
  predicate DataAt(data: seq<Command>, chunks: seq<seq<byte>>, k: nat)
    requires k < |data| && k < |chunks|
  {
    && data[k].code == FILE_DATA && 1 <= |chunks[k]| <= HDC_FILE_CHUNK_SIZE
    && |Concat(chunks[..k])| < 0x1_0000_0000_0000_0000
    && CarriesChunk(data[k].payload, |Concat(chunks[..k])|, chunks[k])
  }

  ghost predicate DataPhase(data: seq<Command>, chunks: seq<seq<byte>>)
  {
    |data| == |chunks| && forall k :: 0 <= k < |chunks| ==> DataAt(data, chunks, k)
  }

  predicate Opening(sent: seq<Command>, target: Target)
  {
    && |sent| == 2 && sent[0] == Command(WAKEUP_SLAVE_TASK, []) && sent[1].code == FILE_CHECK
    && IsTransferConfig(ReadFields(sent[1].payload).0, target.size, target.remote, target.base, target.mtime)
    && ReadFields(sent[1].payload).1 == []
  }

  predicate Closing(sent: seq<Command>)
  {
    || sent == [Command(CHANNEL_CLOSE, [1])]
    || sent == [Command(FILE_FINISH, [0]), Command(CHANNEL_CLOSE, [1])]
  }

  /** The next frame of the device is the command of that code. */
  predicate NextIs(s: seq<byte>, end: IoError, code: uint16)
  {
    var c := CommandOf(ReadFrame(s, end).0);
    c.Received? && c.command.code == code
  }

  predicate Answers(s: seq<byte>, end: IoError)
  {
    && NextIs(s, end, FILE_INIT)
    && NextIs(ReadFrame(s, end).1, end, FILE_BEGIN)
    && NextIs(ReadFrame(ReadFrame(s, end).1, end).1, end, FILE_FINISH)
  }

  /** What the device's side has been sent so far, beyond `base`. */
  predicate Sent(w: ByteWriter, base: seq<byte>, sent: seq<Command>)
    reads w
  {
    w.written == base + EncodeCommands(sent)
  }

  /** writeCommand, and the channel close that follows a failing one. */
  method Send(channel: ChannelConn, code: uint16, payload: seq<byte>, ghost base: seq<byte>, ghost sent: seq<Command>)
    returns (ok: bool)
    requires Sent(channel.w, base, sent)
    modifies channel.w
    ensures ok ==> Sent(channel.w, base, sent + [Command(code, payload)])
    ensures !ok ==> channel.w.room == 0
    ensures old(channel.w.written) <= channel.w.written
  {
    EncodeCommandsSnoc(sent, Command(code, payload));
    Assoc(base, EncodeCommands(sent), EncodeCommand(Command(code, payload)));
    ok := channel.WriteCommand(code, payload);
    if !ok {
      var _ := channel.WriteCommand(CHANNEL_CLOSE, [1]);
    }
  }

  /** readCommand, and the channel close if it is not the one awaited. */
  method Await(channel: ChannelConn, code: uint16) returns (ok: bool, payload: seq<byte>)
    modifies channel.r`data, channel.w
    ensures channel.r.data == ReadFrame(old(channel.r.data), channel.r.end).1
    ensures ok <==> NextIs(old(channel.r.data), channel.r.end, code)
    ensures ok ==> channel.w.written == old(channel.w.written)
    ensures old(channel.w.written) <= channel.w.written
  {
    var result := channel.ReadCommand();
    ok := result.Received? && result.command.code == code;
    if ok {
      payload := result.command.payload;
    } else {
      payload := [];
      var _ := channel.WriteCommand(CHANNEL_CLOSE, [1]);
    }
  }

  lemma DataPhaseSnoc(data: seq<Command>, chunks: seq<seq<byte>>, payload: seq<byte>, chunk: seq<byte>)
    requires DataPhase(data, chunks) && 1 <= |chunk| <= HDC_FILE_CHUNK_SIZE
    requires |Concat(chunks)| < 0x1_0000_0000_0000_0000 && CarriesChunk(payload, |Concat(chunks)|, chunk)
    ensures DataPhase(data + [Command(FILE_DATA, payload)], chunks + [chunk])
  {
    var more, cut := data + [Command(FILE_DATA, payload)], chunks + [chunk];
    forall k | 0 <= k < |cut| ensures DataAt(more, cut, k) {
      assert cut[..k] == chunks[..k];
      assert chunks[..|chunks|] == chunks;
      assert k < |chunks| ==> DataAt(data, chunks, k);
    }
  }

  /** The chunk loop after some rounds: what is sent and what is left make up the file. */
  ghost predicate Pushed(written: seq<byte>, base: seq<byte>, sent: seq<Command>, data: seq<Command>,
                         chunks: seq<seq<byte>>, index: nat, rest: seq<byte>, file: seq<byte>)
  {
    && written == base + EncodeCommands(sent + data) && DataPhase(data, chunks)
    && index == |Concat(chunks)| && Concat(chunks) + rest == file
  }

  lemma PushedNext(base: seq<byte>, sent: seq<Command>, data: seq<Command>, chunks: seq<seq<byte>>, index: nat,
                   payload: seq<byte>, chunk: seq<byte>, rest: seq<byte>, file: seq<byte>)
    requires Pushed(base + EncodeCommands(sent + data), base, sent, data, chunks, index, chunk + rest, file)
    requires |file| < 0x8000_0000_0000_0000 && 1 <= |chunk| <= HDC_FILE_CHUNK_SIZE
    requires CarriesChunk(payload, index, chunk)
    ensures Pushed(base + EncodeCommands(sent + data + [Command(FILE_DATA, payload)]), base, sent,
                   data + [Command(FILE_DATA, payload)], chunks + [chunk], index + |chunk|, rest, file)
  {
    DataPhaseSnoc(data, chunks, payload, chunk);
    ConcatSnoc(chunks, chunk);
    Assoc(sent, data, [Command(FILE_DATA, payload)]);
    Assoc(Concat(chunks), chunk, rest);
  }

  /** The chunk loop: one buffer, one index, until the file ends. */
  method SendChunks(file: ByteReader, channel: ChannelConn, ghost base: seq<byte>, ghost sent: seq<Command>)
    returns (ok: bool, ghost data: seq<Command>, ghost chunks: seq<seq<byte>>)
    requires file != channel.r && |file.data| < 0x8000_0000_0000_0000
    requires Sent(channel.w, base, sent)
    modifies file`data, channel.w
    ensures ok ==> Sent(channel.w, base, sent + data) && DataPhase(data, chunks)
    ensures ok ==> file.end == Eof && Concat(chunks) == old(file.data)
    ensures !ok ==> file.end != Eof || channel.w.room == 0
    ensures old(channel.w.written) <= channel.w.written
  {
    ghost var whole := file.data;
    var buf := new byte[HDC_FILE_CHUNK_SIZE];
    var index: nat := 0;
    data, chunks := [], [];
    assert sent + data == sent && Concat(chunks) + file.data == file.data;
    while true
      invariant fresh(buf) && old(channel.w.written) <= channel.w.written
      invariant Pushed(channel.w.written, base, sent, data, chunks, index, file.data, whole)
      decreases |file.data|
    {
      ghost var rest := file.data;
      var n, err := file.Read(buf);
      if n > 0 {
        var payload := EncodeTransferPayload(index, buf[..n]);
        assert rest == buf[..n] + file.data;
        PushedNext(base, sent, data, chunks, index, payload, buf[..n], file.data, whole);
        ok := Send(channel, FILE_DATA, payload, base, sent + data);
        if !ok {
          return;
        }
        data, chunks := data + [Command(FILE_DATA, payload)], chunks + [buf[..n]];
        index := index + n;
      }
      if err == Some(Eof) {
        assert Concat(chunks) + [] == Concat(chunks);
        ok := true;
        return;
      }
      if err.Some? {
        var _ := channel.WriteCommand(CHANNEL_CLOSE, [1]);
        ok := false;
        return;
      }
    }
  }

  /**
   A push that succeeds has told the device the target, then sent it the whole file, then closed the channel, with
   the device's three answers in between. One that fails lacked an answer, could not read its file, or was cut off.
   */
  method PushFile(file: ByteReader, target: Target, channel: ChannelConn)
    returns (ok: bool, ghost opening: seq<Command>, ghost data: seq<Command>, ghost closing: seq<Command>,
             ghost chunks: seq<seq<byte>>)
    requires file != channel.r && |file.data| < 0x8000_0000_0000_0000
    requires |target.remote| < 0x8000_0000_0000_0000 && |target.base| < 0x8000_0000_0000_0000
    modifies file`data, channel.r`data, channel.w
    ensures ok ==> Sent(channel.w, old(channel.w.written), opening + data + closing)
    ensures ok ==> Opening(opening, target) && DataPhase(data, chunks) && Closing(closing)
    ensures ok ==> file.end == Eof && Concat(chunks) == old(file.data)
    ensures ok ==> Answers(old(channel.r.data), channel.r.end)
    ensures !ok ==> !Answers(old(channel.r.data), channel.r.end) || file.end != Eof || channel.w.room == 0
    ensures old(channel.w.written) <= channel.w.written
  {
    ghost var base := channel.w.written;
    opening, data, closing, chunks := [], [], [], [];
    var payload;
    ok, payload := Await(channel, FILE_INIT);
    if !ok {
      return;
    }
    ok, opening := Announce(target, channel, base);
    if !ok {
      return;
    }
    ok, payload := Await(channel, FILE_BEGIN);
    if !ok {
      return;
    }
    ok, data, chunks := SendChunks(file, channel, base, opening);
    if !ok {
      return;
    }
    ok, payload := Await(channel, FILE_FINISH);
    if !ok {
      return;
    }
    ok, closing := Conclude(channel, payload, base, opening + data);
  }

  /** The wake-up and the transfer configuration. */
  method Announce(target: Target, channel: ChannelConn, ghost base: seq<byte>)
    returns (ok: bool, ghost opening: seq<Command>)
    requires channel.w.written == base
    requires |target.remote| < 0x8000_0000_0000_0000 && |target.base| < 0x8000_0000_0000_0000
    modifies channel.w
    ensures ok ==> Sent(channel.w, base, opening) && Opening(opening, target)
    ensures !ok ==> channel.w.room == 0
    ensures base <= channel.w.written
  {
    opening := [];
    assert base + EncodeCommands([]) == base;
    ok := Send(channel, WAKEUP_SLAVE_TASK, [], base, []);
    if !ok {
      return;
    }
    var config := EncodeTransferConfig(target.size, target.remote, target.base, target.mtime);
    assert [] + [Command(WAKEUP_SLAVE_TASK, [])] == [Command(WAKEUP_SLAVE_TASK, [])];
    ok := Send(channel, FILE_CHECK, config, base, [Command(WAKEUP_SLAVE_TASK, [])]);
    opening := [Command(WAKEUP_SLAVE_TASK, [])] + [Command(FILE_CHECK, config)];
  }

  /** The acknowledgement, if the device asks for one, and the close. */
  method Conclude(channel: ChannelConn, payload: seq<byte>, ghost base: seq<byte>, ghost sent: seq<Command>)
    returns (ok: bool, ghost closing: seq<Command>)
    requires Sent(channel.w, base, sent)
    modifies channel.w
    ensures ok ==> Sent(channel.w, base, sent + closing) && Closing(closing)
    ensures !ok ==> channel.w.room == 0
    ensures old(channel.w.written) <= channel.w.written
  {
    closing := [];
    if |payload| > 0 && payload[0] != 0 {
      ok := Send(channel, FILE_FINISH, [0], base, sent);
      if !ok {
        return;
      }
      closing := [Command(FILE_FINISH, [0])];
    }
    ghost var all := sent + closing;
    assert sent + [] == sent;
    EncodeCommandsSnoc(all, Command(CHANNEL_CLOSE, [1]));
    Assoc(base, EncodeCommands(all), EncodeCommand(Command(CHANNEL_CLOSE, [1])));
    Assoc(sent, closing, [Command(CHANNEL_CLOSE, [1])]);
    closing := closing + [Command(CHANNEL_CLOSE, [1])];
    ok := channel.WriteCommand(CHANNEL_CLOSE, [1]);
  }

  // ---- The device's view

  /** The device's file: what follows the 64-byte head in each data command. */
  function Stripped(cs: seq<Command>): seq<byte>
  {
    if cs == [] then []
    else
      var last := cs[|cs| - 1];
      Stripped(cs[..|cs| - 1]) +
      if last.code == FILE_DATA && |last.payload| >= HDC_FILE_HEADER_SIZE then last.payload[HDC_FILE_HEADER_SIZE..]
      else []
  }

  lemma StrippedSnoc(cs: seq<Command>, c: Command)
    ensures Stripped(cs + [c]) == Stripped(cs) +
              if c.code == FILE_DATA && |c.payload| >= HDC_FILE_HEADER_SIZE then c.payload[HDC_FILE_HEADER_SIZE..]
              else []
  {
    assert (cs + [c])[..|cs|] == cs;
  }

  lemma {:induction false} StrippedData(opening: seq<Command>, data: seq<Command>, chunks: seq<seq<byte>>, n: nat)
    requires DataPhase(data, chunks) && n <= |chunks| && Stripped(opening) == []
    ensures Stripped(opening + data[..n]) == Concat(chunks[..n])
  {
    if n == 0 {
      assert opening + data[..0] == opening;
    } else {
      StrippedData(opening, data, chunks, n - 1);
      assert opening + data[..n] == opening + data[..n - 1] + [data[n - 1]];
      assert chunks[..n] == chunks[..n - 1] + [chunks[n - 1]];
      assert DataAt(data, chunks, n - 1);
      StrippedSnoc(opening + data[..n - 1], data[n - 1]);
      ConcatSnoc(chunks[..n - 1], chunks[n - 1]);
    }
  }

  lemma OpeningHasNoData(opening: seq<Command>, target: Target)
    requires Opening(opening, target)
    ensures Stripped(opening) == []
  {
    StrippedSnoc([], opening[0]);
    assert [] + [opening[0]] == [opening[0]];
    StrippedSnoc([opening[0]], opening[1]);
    assert opening == [opening[0]] + [opening[1]];
  }

  lemma ClosingHasNoData(sent: seq<Command>, closing: seq<Command>)
    requires Closing(closing)
    ensures Stripped(sent + closing) == Stripped(sent)
  {
    if |closing| == 2 {
      StrippedSnoc(sent, closing[0]);
      StrippedSnoc(sent + [closing[0]], closing[1]);
      assert sent + closing == sent + [closing[0]] + [closing[1]];
    } else {
      StrippedSnoc(sent, closing[0]);
      assert sent + closing == sent + [closing[0]];
    }
  }

  /** The device's file is what the chunks held. */
  lemma DeviceGetsTheFile(opening: seq<Command>, data: seq<Command>, closing: seq<Command>, chunks: seq<seq<byte>>,
                          target: Target)
    requires Opening(opening, target) && DataPhase(data, chunks) && Closing(closing)
    ensures Stripped(opening + data + closing) == Concat(chunks)
  {
    OpeningHasNoData(opening, target);
    StrippedData(opening, data, chunks, |chunks|);
    assert data[..|chunks|] == data && chunks[..|chunks|] == chunks;
    ClosingHasNoData(opening + data, closing);
  }

  lemma CommandFits(opening: seq<Command>, data: seq<Command>, closing: seq<Command>, chunks: seq<seq<byte>>,
                    target: Target, k: nat)
    requires Opening(opening, target) && DataPhase(data, chunks) && Closing(closing)
    requires |opening[1].payload| + 2 <= MAX_HDC_FRAME_SIZE && k < |opening + data + closing|
    ensures |(opening + data + closing)[k].payload| + 2 <= MAX_HDC_FRAME_SIZE
  {
    if 2 <= k < 2 + |data| {
      assert DataAt(data, chunks, k - 2);
    }
  }

  lemma DeviceDecodesAll(opening: seq<Command>, data: seq<Command>, closing: seq<Command>, chunks: seq<seq<byte>>,
                         target: Target)
    requires Opening(opening, target) && DataPhase(data, chunks) && Closing(closing)
    requires |opening[1].payload| + 2 <= MAX_HDC_FRAME_SIZE
    ensures ReadCommands(EncodeCommands(opening + data + closing)) == opening + data + closing
  {
    var all := opening + data + closing;
    forall k: nat | k < |all| ensures |all[k].payload| + 2 <= MAX_HDC_FRAME_SIZE {
      CommandFits(opening, data, closing, chunks, target, k);
    }
    CommandsRoundTrip(all, []);
    assert EncodeCommands(all) + [] == EncodeCommands(all) && all + ReadCommands([]) == all;
  }

  lemma TwoFirst(first: Command, config: Command, more: seq<Command>)
    ensures EncodeCommands([first, config] + more) ==
              EncodeCommands([first]) + (EncodeCommand(config) + EncodeCommands(more))
  {
    assert [first, config] == [first] + [config];
    EncodeCommandsAppend([first, config], more);
    EncodeCommandsSnoc([first], config);
    Assoc(EncodeCommands([first]), EncodeCommand(config), EncodeCommands(more));
  }

  lemma LongSecondIsNotRead(first: Command, config: Command, rest: seq<byte>)
    requires |first.payload| + 2 <= MAX_HDC_FRAME_SIZE < |config.payload| + 2
    ensures var cs := ReadCommands(EncodeCommands([first]) + (EncodeCommand(config) + rest));
            |cs| < 2 || cs[1] != config
  {
    var cs := ReadCommands(EncodeCommand(config) + rest);
    CommandsRoundTrip([first], EncodeCommand(config) + rest);
    TooLongIsNotRead(config, rest);
    assert cs != [] ==> ([first] + cs)[1] == cs[0];
  }

  lemma LongConfigIsNotRead(first: Command, config: Command, more: seq<Command>)
    requires |first.payload| + 2 <= MAX_HDC_FRAME_SIZE < |config.payload| + 2
    ensures ReadCommands(EncodeCommands([first, config] + more)) != [first, config] + more
  {
    TwoFirst(first, config, more);
    LongSecondIsNotRead(first, config, EncodeCommands(more));
    assert ([first, config] + more)[1] == config;
  }

  /** The device decodes exactly the commands sent if and only if the configuration, with its paths, fits a frame. */
  lemma DeviceDecodes(opening: seq<Command>, data: seq<Command>, closing: seq<Command>, chunks: seq<seq<byte>>,
                      target: Target)
    requires Opening(opening, target) && DataPhase(data, chunks) && Closing(closing)
    ensures ReadCommands(EncodeCommands(opening + data + closing)) == opening + data + closing <==>
              |opening[1].payload| + 2 <= MAX_HDC_FRAME_SIZE
  {
    if |opening[1].payload| + 2 <= MAX_HDC_FRAME_SIZE {
      DeviceDecodesAll(opening, data, closing, chunks, target);
    } else {
      LongConfigIsNotRead(opening[0], opening[1], data + closing);
      assert opening == [opening[0], opening[1]];
      Assoc(opening, data, closing);
    }
  }
}
