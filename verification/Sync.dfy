/** The sync protocol's SEND and RECV on an HDC device (src/internal/hdcserver/sync.go). */
module Sync {
  import opened Bytes
  import opened Streams
  import opened HdcChannel
  import opened FilePush

  const MAX_SYNC_PAYLOAD_SIZE := 16 * 0x10_0000
  const SYNC_CHUNK_SIZE := 64 * 1024

  const DATA: seq<byte> := [0x44, 0x41, 0x54, 0x41]
  const DONE: seq<byte> := [0x44, 0x4f, 0x4e, 0x45]
  const OKAY: seq<byte> := [0x4f, 0x4b, 0x41, 0x59]
  const FAIL: seq<byte> := [0x46, 0x41, 0x49, 0x4c]

  /** \001OK\002, which the device's shell prints in front of a readable file. */
  const PULL_OK_MARKER: seq<byte> := [1, 0x4f, 0x4b, 2]

  function SyncHeader(id: seq<byte>, length: uint32): seq<byte>
  {
    id + Le32(length)
  }

  function DataRequest(chunk: seq<byte>): seq<byte>
  {
    SyncHeader(DATA, |chunk| % 0x1_0000_0000) + chunk
  }

  /** DATA requests, one per chunk. */
  function DataRequests(chunks: seq<seq<byte>>): seq<byte>
  {
    if chunks == [] then [] else DataRequests(chunks[..|chunks| - 1]) + DataRequest(chunks[|chunks| - 1])
  }

  lemma DataRequestsSnoc(chunks: seq<seq<byte>>, chunk: seq<byte>)
    ensures DataRequests(chunks + [chunk]) == DataRequests(chunks) + DataRequest(chunk)
  {
    assert (chunks + [chunk])[..|chunks|] == chunks;
  }

  // ---- Requests

  datatype RequestResult = Request(id: seq<byte>, payload: seq<byte>) | NoRequest

  /** One request off a stream. The length of a DONE is not a length (it holds the file's time). */
  function ReadRequest(s: seq<byte>): (RequestResult, seq<byte>)
  {
    if |s| < 8 then (NoRequest, [])
    else ReadBody(s[..4], FromLe32(s[4..8]), s[8..])
  }

  function ReadBody(id: seq<byte>, length: uint32, body: seq<byte>): (RequestResult, seq<byte>)
  {
    if id == DONE then (Request(id, []), body)
    else if length > MAX_SYNC_PAYLOAD_SIZE then (NoRequest, body)
    else if |body| < length then (NoRequest, [])
    else (Request(id, body[..length]), body[length..])
  }

  method ReadSyncRequest(r: ByteReader) returns (result: RequestResult)
    modifies r`data
    ensures (result, r.data) == ReadRequest(old(r.data))
  {
    ghost var s := r.data;
    var header := new byte[8];
    var err := r.ReadFull(header);
    if err.Some? {
      return NoRequest;
    }
    assert header[..4] == s[..4] && header[4..8] == s[4..8];
    var id, length := header[..4], FromLe32(header[4..8]);
    if id == DONE {
      return Request(id, []);
    }
    if length > MAX_SYNC_PAYLOAD_SIZE {
      return NoRequest;
    }
    var payload := new byte[length];
    if length > 0 {
      err := r.ReadFull(payload);
      if err.Some? {
        return NoRequest;
      }
    }
    assert payload[..] == s[8..][..length] && r.data == s[8..][length..];
    return Request(id, payload[..]);
  }

  lemma RequestRoundTrip(id: seq<byte>, payload: seq<byte>, rest: seq<byte>)
    requires |id| == 4 && id != DONE && |payload| <= MAX_SYNC_PAYLOAD_SIZE
    ensures ReadRequest(SyncHeader(id, |payload|) + payload + rest) == (Request(id, payload), rest)
  {
    var s := SyncHeader(id, |payload|) + payload + rest;
    WordRoundTrip(|payload|);
    assert s[..4] == id && s[4..8] == Le32(|payload|) && s[8..] == payload + rest;
    assert (payload + rest)[..|payload|] == payload && (payload + rest)[|payload|..] == rest;
  }

  lemma DoneRoundTrip(mtime: uint32, rest: seq<byte>)
    ensures ReadRequest(SyncHeader(DONE, mtime) + rest) == (Request(DONE, []), rest)
  {
    var s := SyncHeader(DONE, mtime) + rest;
    assert s[..4] == DONE && s[8..] == rest;
  }

  // ---- SEND

  datatype SendBody = Whole(content: seq<byte>, rest: seq<byte>) | Unexpected | Ended

  /** What a stream of DATA requests up to a DONE holds, unless another request comes, or none, before the DONE. */
  function ReadSendBody(s: seq<byte>): SendBody
    decreases |s|
  {
    match ReadRequest(s)
    case (Request(id, payload), rest) =>
      if id == DONE then Whole([], rest)
      else if id == DATA && |rest| < |s| then
        match ReadSendBody(rest)
        case Whole(content, left) => Whole(payload + content, left)
        case other => other
      else Unexpected
    case _ => Ended
  }

  lemma BodyStep(s: seq<byte>, chunk: seq<byte>, tail: seq<byte>)
    requires ReadRequest(s) == (Request(DATA, chunk), tail) && |tail| < |s| && ReadSendBody(tail).Whole?
    ensures ReadSendBody(s) == Whole(chunk + ReadSendBody(tail).content, ReadSendBody(tail).rest)
  {
    assert DATA[1] != DONE[1];
  }

  lemma DataRequestRoundTrip(chunk: seq<byte>, tail: seq<byte>)
    requires |chunk| <= MAX_SYNC_PAYLOAD_SIZE
    ensures ReadRequest(DataRequest(chunk) + tail) == (Request(DATA, chunk), tail)
  {
    assert DATA[1] != DONE[1] && |chunk| % 0x1_0000_0000 == |chunk|;
    RequestRoundTrip(DATA, chunk, tail);
  }

  lemma DataThen(chunk: seq<byte>, tail: seq<byte>)
    requires |chunk| <= MAX_SYNC_PAYLOAD_SIZE && ReadSendBody(tail).Whole?
    ensures ReadSendBody(DataRequest(chunk) + tail) ==
              Whole(chunk + ReadSendBody(tail).content, ReadSendBody(tail).rest)
  {
    var s := DataRequest(chunk) + tail;
    assert |s| > |tail|;
    DataRequestRoundTrip(chunk, tail);
    BodyStep(s, chunk, tail);
  }

  /** Chunks sent as DATA requests and a DONE, whatever its time, are read back as their concatenation. */
  lemma {:induction false} SendBodyRoundTrip(chunks: seq<seq<byte>>, tail: seq<byte>)
    requires forall k :: 0 <= k < |chunks| ==> |chunks[k]| <= MAX_SYNC_PAYLOAD_SIZE
    requires ReadSendBody(tail).Whole?
    ensures ReadSendBody(DataRequests(chunks) + tail) ==
              Whole(Concat(chunks) + ReadSendBody(tail).content, ReadSendBody(tail).rest)
  {
    if chunks == [] {
      assert DataRequests(chunks) + tail == tail &&
        Concat(chunks) + ReadSendBody(tail).content == ReadSendBody(tail).content;
    } else {
      var init, last, body := chunks[..|chunks| - 1], chunks[|chunks| - 1], ReadSendBody(tail);
      DataThen(last, tail);
      SendBodyRoundTrip(init, DataRequest(last) + tail);
      Assoc(DataRequests(init), DataRequest(last), tail);
      Assoc(Concat(init), last, body.content);
    }
  }

  /** For every DATA* DONE sequence the content is the concatenation of the payloads, and the rest is left alone. */
  lemma SentChunksAreTheFile(chunks: seq<seq<byte>>, mtime: uint32, rest: seq<byte>)
    requires forall k :: 0 <= k < |chunks| ==> |chunks[k]| <= MAX_SYNC_PAYLOAD_SIZE
    ensures ReadSendBody(DataRequests(chunks) + (SyncHeader(DONE, mtime) + rest)) == Whole(Concat(chunks), rest)
  {
    DoneRoundTrip(mtime, rest);
    SendBodyRoundTrip(chunks, SyncHeader(DONE, mtime) + rest);
    assert Concat(chunks) + [] == Concat(chunks);
  }

  lemma {:induction false} DataRequestsCons(chunk: seq<byte>, chunks: seq<seq<byte>>)
    ensures DataRequests([chunk] + chunks) == DataRequest(chunk) + DataRequests(chunks)
    ensures Concat([chunk] + chunks) == chunk + Concat(chunks)
  {
    if chunks == [] {
      DataRequestsSnoc([], chunk);
      ConcatSnoc([], chunk);
      assert [chunk] + chunks == [] + [chunk] && DataRequest(chunk) + [] == [] + DataRequest(chunk);
      assert chunk + [] == [] + chunk;
    } else {
      var init, last := chunks[..|chunks| - 1], chunks[|chunks| - 1];
      DataRequestsCons(chunk, init);
      assert [chunk] + chunks == ([chunk] + init) + [last] && chunks == init + [last];
      DataRequestsSnoc([chunk] + init, last);
      ConcatSnoc([chunk] + init, last);
      Assoc(DataRequest(chunk), DataRequests(init), DataRequest(last));
      Assoc(chunk, Concat(init), last);
    }
  }

  lemma HeaderOf(s: seq<byte>)
    requires |s| >= 8
    ensures s == SyncHeader(s[..4], FromLe32(s[4..8])) + s[8..]
  {
    var a: int, b: int, c: int, d: int := s[4], s[5], s[6], s[7];
    var x: int := FromLe32(s[4..8]);
    assert x == a + 0x100 * b + 0x1_0000 * c + 0x100_0000 * d;
    assert x / 0x100 == b + 0x100 * c + 0x1_0000 * d && x / 0x1_0000 == c + 0x100 * d;
    assert Le32(x) == s[4..8];
  }

  lemma BodyMeans(length: uint32, body: seq<byte>)
    requires ReadBody(DATA, length, body).0.Request?
    ensures var (request, rest) := ReadBody(DATA, length, body);
            && |request.payload| == length <= MAX_SYNC_PAYLOAD_SIZE && body == request.payload + rest
  {
    assert DATA[1] != DONE[1];
  }

  lemma RequestMeans(s: seq<byte>)
    requires ReadRequest(s).0.Request? && ReadRequest(s).0.id == DATA
    ensures |ReadRequest(s).0.payload| <= MAX_SYNC_PAYLOAD_SIZE
    ensures s == DataRequest(ReadRequest(s).0.payload) + ReadRequest(s).1
  {
    var n := FromLe32(s[4..8]);
    assert ReadRequest(s) == ReadBody(DATA, n, s[8..]);
    BodyMeans(n, s[8..]);
    HeaderOf(s);
    Assoc(SyncHeader(DATA, n), ReadRequest(s).0.payload, ReadRequest(s).1);
  }

  /** Only DATA* DONE has a content: whatever is read as whole consists of such requests, with that content. */
  lemma {:induction false} WholeIsDataDone(s: seq<byte>) returns (chunks: seq<seq<byte>>, mtime: uint32)
    requires ReadSendBody(s).Whole?
    ensures forall k :: 0 <= k < |chunks| ==> |chunks[k]| <= MAX_SYNC_PAYLOAD_SIZE
    ensures s == DataRequests(chunks) + (SyncHeader(DONE, mtime) + ReadSendBody(s).rest)
    ensures ReadSendBody(s).content == Concat(chunks)
    decreases |s|
  {
    var (request, rest) := ReadRequest(s);
    if request.id == DONE {
      chunks, mtime := [], FromLe32(s[4..8]);
      HeaderOf(s);
      assert DataRequests([]) + s == s;
    } else {
      var more;
      more, mtime := WholeIsDataDone(rest);
      chunks := [request.payload] + more;
      RequestMeans(s);
      DataRequestsCons(request.payload, more);
      Assoc(DataRequest(request.payload), DataRequests(more), SyncHeader(DONE, mtime) + ReadSendBody(s).rest);
    }
  }

  /** What was pushed to the device: the commands it was sent, which carry the content in these chunks. */
  datatype Push = Push(opening: seq<Command>, data: seq<Command>, closing: seq<Command>, chunks: seq<seq<byte>>)

  ghost predicate PushOf(p: Push, target: Target, content: seq<byte>)
  {
    Opening(p.opening, target) && DataPhase(p.data, p.chunks) && Closing(p.closing) && Concat(p.chunks) == content
  }

  /** The temporary file: the payloads of the DATA requests, in order. */
  method ReceiveFile(conn: ByteReader) returns (tmp: seq<byte>, result: SendBody)
    modifies conn`data
    ensures result == ReadSendBody(old(conn.data)) && (result.Whole? ==> result == Whole(tmp, conn.data))
  {
    tmp := [];
    while true
      invariant ReadSendBody(old(conn.data)) ==
                  match ReadSendBody(conn.data)
                  case Whole(content, rest) => Whole(tmp + content, rest)
                  case other => other
      decreases |conn.data|
    {
      ghost var had := tmp;
      var request := ReadSyncRequest(conn);
      if request.NoRequest? {
        return tmp, Ended;
      }
      if request.id == DATA {
        tmp := tmp + request.payload;
        if ReadSendBody(conn.data).Whole? {
          Assoc(had, request.payload, ReadSendBody(conn.data).content);
        }
      } else if request.id == DONE {
        assert tmp + [] == tmp;
        return tmp, Whole(tmp, conn.data);
      } else {
        return tmp, Unexpected;
      }
    }
  }

  /**
   A regular-file SEND. OKAY is answered unless the requests, the device or its channel fail, and only if the requests
   were DATA* DONE and a device that gave its three answers was sent exactly their content: decoding what the channel
   took and stripping the heads gives it back, if the paths fit a frame. Bytes after the DONE are left for the next
   request.
   */
  method HandleSend(conn: ByteReader, reply: ByteWriter, channel: ChannelConn, mtime: uint64, remote: seq<byte>,
                    base: seq<byte>)
    returns (okay: bool, ghost push: Push)
    requires conn != channel.r && reply != channel.w
    requires |conn.data| < 0x8000_0000_0000_0000 && |remote| < 0x8000_0000_0000_0000 && |base| < 0x8000_0000_0000_0000
    modifies conn`data, reply, channel.r`data, channel.w
    ensures okay ==> ReadSendBody(old(conn.data)).Whole? && ReadSendBody(old(conn.data)).rest == conn.data
    ensures !okay ==>
              !ReadSendBody(old(conn.data)).Whole? || !Answers(old(channel.r.data), channel.r.end) ||
                channel.w.room == 0
    ensures okay ==>
              var content := ReadSendBody(old(conn.data)).content;
              && |content| < 0x8000_0000_0000_0000 && PushOf(push, Target(|content|, mtime, remote, base), content)
              && Sent(channel.w, old(channel.w.written), push.opening + push.data + push.closing)
              && Answers(old(channel.r.data), channel.r.end)
    ensures okay ==> old(channel.w.written) <= channel.w.written && |push.opening| == 2
    ensures okay && |push.opening[1].payload| + 2 <= MAX_HDC_FRAME_SIZE ==>
              Stripped(ReadCommands(channel.w.written[|old(channel.w.written)|..])) ==
                ReadSendBody(old(conn.data)).content
    ensures okay && old(reply.room) >= 8 ==> reply.written == old(reply.written) + SyncHeader(OKAY, 0)
    ensures !okay && ReadSendBody(old(conn.data)).Ended? ==> reply.written == old(reply.written)
    ensures !okay && !ReadSendBody(old(conn.data)).Ended? ==>
              old(reply.written) + FAIL <= reply.written || reply.room == 0
  {
    push := Push([], [], [], []);
    var tmp, body := ReceiveFile(conn);
    if !body.Whole? {
      okay := false;
      if body.Unexpected? {
        WriteFail(reply);
      }
      return;
    }
    ContentFits(old(conn.data));
    var file := new ByteReader(tmp, Eof);
    ghost var opening, data, closing, chunks;
    okay, opening, data, closing, chunks := PushFile(file, Target(|tmp|, mtime, remote, base), channel);
    push := Push(opening, data, closing, chunks);
    if okay {
      DeviceGetsTheFile(opening, data, closing, chunks, Target(|tmp|, mtime, remote, base));
      DeviceDecodes(opening, data, closing, chunks, Target(|tmp|, mtime, remote, base));
      assert channel.w.written[|old(channel.w.written)|..] == EncodeCommands(opening + data + closing);
      var _ := reply.Write(SyncHeader(OKAY, 0));
    } else {
      WriteFail(reply);
    }
  }

  lemma {:induction false} ContentFits(s: seq<byte>)
    requires ReadSendBody(s).Whole?
    ensures |ReadSendBody(s).content| + |ReadSendBody(s).rest| <= |s|
    decreases |s|
  {
    var (request, rest) := ReadRequest(s);
    if request.id != DONE {
      ContentFits(rest);
    }
  }

  /** writeSyncFail with some message of at most 0xffff bytes. */
  method WriteFail(w: ByteWriter)
    modifies w
    ensures old(w.written) + FAIL <= w.written || w.room == 0
    ensures old(w.written) <= w.written
  {
    var message: seq<byte> := *;
    if |message| > 0xffff {
      message := message[..0xffff];
    }
    ghost var before := w.written;
    var ok := w.Write(SyncHeader(FAIL, |message|));
    if ok {
      assert w.written == before + FAIL + Le32(|message|);
      ok := w.Write(message);
    }
  }

  // ---- RECV

  /** A reply that ended in DONE, one that ended in FAIL, and one cut short by its own connection. */
  datatype Pull = Done | Refused | Cut

  ghost predicate PullChunks(chunks: seq<seq<byte>>, content: seq<byte>)
  {
    Concat(chunks) == content && forall k :: 0 <= k < |chunks| ==> 1 <= |chunks[k]| <= SYNC_CHUNK_SIZE
  }

  method WriteData(w: ByteWriter, payload: seq<byte>) returns (ok: bool)
    modifies w
    ensures ok ==> w.written == old(w.written) + DataRequest(payload)
    ensures !ok ==> w.room == 0
  {
    Assoc(w.written, SyncHeader(DATA, |payload| % 0x1_0000_0000), payload);
    ok := w.Write(SyncHeader(DATA, |payload| % 0x1_0000_0000));
    if ok {
      ok := w.Write(payload);
    }
  }

  /** The copy loop: one buffer, a DATA per read, until the channel ends. */
  method CopyChunks(channel: ChannelConn, w: ByteWriter) returns (outcome: Pull, ghost chunks: seq<seq<byte>>)
    requires w != channel.w
    modifies channel`buf, channel.r`data, w
    ensures outcome.Done? ==> old(channel.End()) == Io(Eof) && PullChunks(chunks, old(channel.Pending()))
    ensures outcome.Done? ==> w.written == old(w.written) + DataRequests(chunks) + SyncHeader(DONE, 0)
    ensures outcome.Refused? ==> old(channel.End()) != Io(Eof) && PullChunks(chunks, old(channel.Pending()))
    ensures outcome.Refused? ==> w.room == 0 || old(w.written) + DataRequests(chunks) + FAIL <= w.written
    ensures outcome.Cut? ==> w.room == 0
  {
    var buf := new byte[SYNC_CHUNK_SIZE];
    chunks := [];
    ghost var content := channel.Pending();
    assert w.written + DataRequests([]) == w.written && [] + channel.Pending() == content;
    while true
      invariant fresh(buf) && channel.End() == old(channel.End())
      invariant w.written == old(w.written) + DataRequests(chunks)
      invariant forall k :: 0 <= k < |chunks| ==> 1 <= |chunks[k]| <= SYNC_CHUNK_SIZE
      invariant Concat(chunks) + channel.Pending() == content
      decreases |channel.r.data| + |channel.buf|
    {
      ghost var written := w.written;
      var n, err := channel.Read(buf, 0);
      if n > 0 {
        var ok := WriteData(w, buf[..n]);
        if !ok {
          return Cut, chunks;
        }
        CopiedOne(old(w.written), chunks, buf[..n], channel.Pending());
        chunks := chunks + [buf[..n]];
      }
      if err == Some(Io(Eof)) {
        assert Concat(chunks) + [] == Concat(chunks);
        var ok := w.Write(SyncHeader(DONE, 0));
        return if ok then Done else Cut, chunks;
      }
      if err.Some? {
        assert Concat(chunks) + [] == Concat(chunks);
        WriteFail(w);
        return Refused, chunks;
      }
      assert n == 0 ==> [] + channel.Pending() == channel.Pending();
    }
  }

  lemma CopiedOne(before: seq<byte>, chunks: seq<seq<byte>>, chunk: seq<byte>, rest: seq<byte>)
    ensures before + DataRequests(chunks + [chunk]) == before + DataRequests(chunks) + DataRequest(chunk)
    ensures Concat(chunks + [chunk]) + rest == Concat(chunks) + (chunk + rest)
  {
    DataRequestsSnoc(chunks, chunk);
    ConcatSnoc(chunks, chunk);
    Assoc(before, DataRequests(chunks), DataRequest(chunk));
    Assoc(Concat(chunks), chunk, rest);
  }

  /**
   A RECV whose channel is open. It ends in DONE just when the bytes of the channel's complete frames start with the
   OK marker, wherever the frames cut it, and the channel ends in EOF (and the reply is not cut short); the DATA
   payloads, of 1 to 65536 bytes, are then exactly the bytes after the marker.
   */
  method HandleRecv(channel: ChannelConn, w: ByteWriter) returns (outcome: Pull, ghost chunks: seq<seq<byte>>)
    requires w != channel.w
    modifies channel`buf, channel.r`data, w
    ensures !outcome.Cut? ==>
              (outcome.Done? <==> PULL_OK_MARKER <= old(channel.Pending()) && old(channel.End()) == Io(Eof))
    ensures outcome.Done? ==> PullChunks(chunks, old(channel.Pending())[4..])
    ensures outcome.Done? ==> w.written == old(w.written) + DataRequests(chunks) + SyncHeader(DONE, 0)
    ensures outcome.Refused? ==> w.room == 0 || old(w.written) + DataRequests(chunks) + FAIL <= w.written
    ensures outcome.Refused? && PULL_OK_MARKER <= old(channel.Pending()) ==>
              PullChunks(chunks, old(channel.Pending())[4..])
    ensures outcome.Cut? ==> w.room == 0
  {
    assert w.written + DataRequests([]) == w.written;
    var marker := new byte[4];
    ghost var content := channel.Pending();
    var err := channel.ReadFull(marker);
    if err.Some? {
      WriteFail(w);
      return Refused, [];
    }
    assert content == marker[..] + channel.Pending() && content[..4] == marker[..] && content[4..] == channel.Pending();
    if marker[..] != PULL_OK_MARKER {
      WriteFail(w);
      return Refused, [];
    }
    outcome, chunks := CopyChunks(channel, w);
  }

  /** What the client reads back from a successful pull's reply: the file, and nothing after the DONE. */
  lemma PulledFileArrives(chunks: seq<seq<byte>>, content: seq<byte>)
    requires PullChunks(chunks, content)
    ensures ReadSendBody(DataRequests(chunks) + SyncHeader(DONE, 0)) == Whole(content, [])
  {
    SentChunksAreTheFile(chunks, 0, []);
    assert SyncHeader(DONE, 0) + [] == SyncHeader(DONE, 0);
  }

  /** However the device's HDC server frames the marker and the file, the pending bytes are marker and file. */
  lemma AnyFramingPulls(payloads: seq<seq<byte>>, content: seq<byte>)
    requires forall k :: 0 <= k < |payloads| ==> |payloads[k]| <= MAX_HDC_FRAME_SIZE
    requires Concat(payloads) == PULL_OK_MARKER + content
    ensures Payloads(EncodeFrames(payloads)) == PULL_OK_MARKER + content
    ensures EndOf(EncodeFrames(payloads), Eof) == Io(Eof)
  {
    FramingIsTransparent(payloads, []);
    assert EncodeFrames(payloads) + [] == EncodeFrames(payloads) && Concat(payloads) + [] == Concat(payloads);
    CleanEnd(EncodeFrames(payloads));
  }
}
