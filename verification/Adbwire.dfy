/** The ADB packet codec (src/internal/adbwire/packet.go). */
module Adbwire {
  import opened Bytes
  import opened Streams

  const HEADER_SIZE := 24
  const MAX_PAYLOAD_SIZE := 16 * 0x10_0000

  const CMD_SYNC: uint32 := 0x434e5953
  const CMD_CNXN: uint32 := 0x4e584e43
  const CMD_OPEN: uint32 := 0x4e45504f
  const CMD_OKAY: uint32 := 0x59414b4f
  const CMD_CLSE: uint32 := 0x45534c43
  const CMD_WRTE: uint32 := 0x45545257
  const CMD_AUTH: uint32 := 0x48545541

  const AUTH_TOKEN: uint32 := 1
  const AUTH_SIGNATURE: uint32 := 2
  const AUTH_RSA_PUBLIC_KEY: uint32 := 3

  datatype Packet = Packet(command: uint32, arg0: uint32, arg1: uint32, payload: seq<byte>)

  datatype ReadError = Io(error: IoError) | BadMagic | TooLarge | BadChecksum

  datatype ReadResult = Read(packet: Packet) | Failed(error: ReadError)

  /** The integer sum of the bytes: what the checksum is meant to be. */
  function ByteSum(payload: seq<byte>): nat
  {
    if payload == [] then 0 else ByteSum(payload[..|payload| - 1]) + payload[|payload| - 1]
  }

  /** uint32(command) ^ 0xffffffff: the complement of every bit. */
  function Magic(command: uint32): uint32
  {
    0xffff_ffff - command
  }

  /** The bytes of one packet on the wire. The length field is a truncating uint32 conversion. */
  function Encode(p: Packet): seq<byte>
  {
    Header(p) + p.payload
  }

  function Header(p: Packet): (h: seq<byte>)
    ensures |h| == HEADER_SIZE
  {
    Words(HeaderWords(p))
  }

  function HeaderWords(p: Packet): (ws: seq<uint32>)
    ensures |ws| == 6
  {
    [p.command, p.arg0, p.arg1, |p.payload| % 0x1_0000_0000, ByteSum(p.payload) % 0x1_0000_0000, Magic(p.command)]
  }

  function EncodeAll(ps: seq<Packet>): seq<byte>
  {
    if ps == [] then [] else EncodeAll(ps[..|ps| - 1]) + Encode(ps[|ps| - 1])
  }

  datatype Head = Head(command: uint32, arg0: uint32, arg1: uint32, length: uint32, check: uint32, magic: uint32)

  function ParseHeader(h: seq<byte>): Head
    requires |h| == HEADER_SIZE
  {
    Head(FromLe32(h[0..4]), FromLe32(h[4..8]), FromLe32(h[8..12]),
         FromLe32(h[12..16]), FromLe32(h[16..20]), FromLe32(h[20..24]))
  }

  /** The header fields a packet is written with. */
  function HeadOf(p: Packet): Head
  {
    Head(p.command, p.arg0, p.arg1, |p.payload| % 0x1_0000_0000, ByteSum(p.payload) % 0x1_0000_0000, Magic(p.command))
  }

  /** What reading one packet from a stream yields, and the bytes it leaves. */
  function Decode(s: seq<byte>, end: IoError): (ReadResult, seq<byte>)
  {
    if |s| < HEADER_SIZE then (Failed(Io(Shortfall(s, HEADER_SIZE, end).value)), [])
    else DecodeBody(ParseHeader(s[..HEADER_SIZE]), s[HEADER_SIZE..], end)
  }

  function DecodeBody(h: Head, body: seq<byte>, end: IoError): (ReadResult, seq<byte>)
  {
    if h.magic != Magic(h.command) then (Failed(BadMagic), body)
    else if h.length > MAX_PAYLOAD_SIZE then (Failed(TooLarge), body)
    else if |body| < h.length then (Failed(Io(Shortfall(body, h.length, end).value)), [])
    else
      var payload, rest := body[..h.length], body[h.length..];
      if h.check != 0 && h.check != ByteSum(payload) % 0x1_0000_0000 then (Failed(BadChecksum), rest)
      else (Read(Packet(h.command, h.arg0, h.arg1, payload)), rest)
  }

  /** Reads packets until one cannot be read: the packets, and the bytes that made no packet. */
  function DecodeAll(s: seq<byte>): (seq<Packet>, seq<byte>)
    decreases |s|
  {
    var (r, rest) := Decode(s, Eof);
    if r.Read? && |rest| < |s| then
      var (ps, left) := DecodeAll(rest);
      ([r.packet] + ps, left)
    else
      ([], s)
  }

  method Checksum(payload: seq<byte>) returns (sum: uint32)
    ensures sum == ByteSum(payload) % 0x1_0000_0000
  {
    sum := 0;
    for i := 0 to |payload|
      invariant sum == ByteSum(payload[..i]) % 0x1_0000_0000
    {
      assert payload[..i + 1][..i] == payload[..i];
      sum := (sum + payload[i]) % 0x1_0000_0000;
    }
    assert payload[..|payload|] == payload;
  }

  method ReadPacket(r: ByteReader) returns (result: ReadResult)
    modifies r`data
    ensures (result, r.data) == Decode(old(r.data), r.end)
  {
    var header := new byte[HEADER_SIZE];
    ghost var s := r.data;
    var err := r.ReadFull(header);
    if err.Some? {
      return Failed(Io(err.value));
    }
    assert header[..] == s[..HEADER_SIZE];
    var h := ParseHeader(header[..]);
    if h.magic != Magic(h.command) {
      return Failed(BadMagic);
    }
    if h.length > MAX_PAYLOAD_SIZE {
      return Failed(TooLarge);
    }
    var payload := new byte[h.length];
    if h.length > 0 {
      err := r.ReadFull(payload);
      if err.Some? {
        return Failed(Io(err.value));
      }
    }
    var sum := Checksum(payload[..]);
    if h.check != 0 && h.check != sum {
      return Failed(BadChecksum);
    }
    return Read(Packet(h.command, h.arg0, h.arg1, payload[..]));
  }

  method FillHeader(packet: Packet) returns (header: array<byte>)
    ensures fresh(header) && header[..] == Header(packet)
  {
    header := new byte[HEADER_SIZE];
    assert header[..0] == [];
    PutLe32(header, 0, packet.command);
    assert header[..4] == Le32(packet.command);
    PutLe32(header, 4, packet.arg0);
    PutLe32(header, 8, packet.arg1);
    PutLe32(header, 12, |packet.payload| % 0x1_0000_0000);
    var sum := Checksum(packet.payload);
    PutLe32(header, 16, sum);
    PutLe32(header, 20, Magic(packet.command));
    HeaderLayout(packet);
    assert header[..] == header[..HEADER_SIZE];
  }

  lemma EncodeCut(p: Packet, n: nat)
    requires n <= |Encode(p)|
    ensures Encode(p)[..n] == if n <= HEADER_SIZE then Header(p)[..n] else Header(p) + p.payload[..n - HEADER_SIZE]
  {
  }

  /** Two writes, header then payload: what reaches the wire is the packet, cut where the wire gave up. */
  method WritePacket(w: ByteWriter, packet: Packet) returns (ok: bool)
    modifies w
    ensures ok == (|Encode(packet)| <= old(w.room))
    ensures ok ==> w.written == old(w.written) + Encode(packet) && w.room == old(w.room) - |Encode(packet)|
    ensures !ok ==> w.written == old(w.written) + Encode(packet)[..old(w.room)] && w.room == 0
  {
    ghost var before, room := w.written, w.room;
    var header := FillHeader(packet);
    if room < |Encode(packet)| {
      EncodeCut(packet, room);
    }
    ok := w.Write(header[..]);
    if !ok {
      return;
    }
    if |packet.payload| == 0 {
      assert Encode(packet) == Header(packet);
      return;
    }
    ok := w.Write(packet.payload);
    Assoc(before, Header(packet), packet.payload);
    if !ok {
      Assoc(before, Header(packet), packet.payload[..room - HEADER_SIZE]);
    }
  }

  method PutLe32(a: array<byte>, at: nat, x: uint32)
    requires at + 4 <= a.Length
    modifies a
    ensures a[..at + 4] == old(a[..at]) + Le32(x) && a[at + 4..] == old(a[at + 4..])
  {
    var s := Le32(x);
    a[at], a[at + 1], a[at + 2], a[at + 3] := s[0], s[1], s[2], s[3];
  }

  // ---- The checksum

  lemma {:induction false} ByteSumBound(payload: seq<byte>)
    ensures ByteSum(payload) <= 255 * |payload|
  {
    if payload != [] {
      ByteSumBound(payload[..|payload| - 1]);
    }
  }

  /** Changing one byte moves the sum by exactly the difference of the two bytes. */
  lemma {:induction false} ByteSumUpdate(payload: seq<byte>, k: nat, b: byte)
    requires k < |payload|
    ensures ByteSum(payload[k := b]) == ByteSum(payload) - payload[k] + b
  {
    var last := |payload| - 1;
    if k == last {
      assert payload[k := b][..last] == payload[..last];
    } else {
      ByteSumUpdate(payload[..last], k, b);
      assert payload[k := b][..last] == payload[..last][k := b];
    }
  }

  /** For every payload ReadPacket accepts, the uint32 accumulator never wraps. */
  lemma ChecksumIsByteSum(payload: seq<byte>)
    requires |payload| <= MAX_PAYLOAD_SIZE
    ensures ByteSum(payload) < 0x1_0000_0000
    ensures ByteSum(payload) % 0x1_0000_0000 == ByteSum(payload)
  {
    ByteSumBound(payload);
  }

  // ---- Round trips

  lemma HeaderLayout(p: Packet)
    ensures Header(p) == Le32(p.command) + Le32(p.arg0) + Le32(p.arg1) + Le32(|p.payload| % 0x1_0000_0000) +
                         Le32(ByteSum(p.payload) % 0x1_0000_0000) + Le32(Magic(p.command))
  {
    var ws := HeaderWords(p);
    assert ws[..5][..4] == ws[..4] && ws[..4][..3] == ws[..3] && ws[..3][..2] == ws[..2] && ws[..2][..1] == ws[..1];
    assert Words(ws[..5]) == Words(ws[..4]) + Le32(ws[4]);
    assert Words(ws[..4]) == Words(ws[..3]) + Le32(ws[3]);
    assert Words(ws[..3]) == Words(ws[..2]) + Le32(ws[2]);
    assert Words(ws[..2]) == Words(ws[..1]) + Le32(ws[1]);
    assert Words(ws[..1]) == Le32(ws[0]);
  }

  lemma ParseHeaderOf(p: Packet)
    ensures ParseHeader(Header(p)) == HeadOf(p)
  {
    forall i | 0 <= i < 6 ensures FromLe32(Header(p)[4 * i..4 * i + 4]) == HeaderWords(p)[i] {
      WordAt(HeaderWords(p), i);
    }
    var h := Header(p);
    assert FromLe32(h[4 * 0..4 * 0 + 4]) == HeaderWords(p)[0] && FromLe32(h[4 * 1..4 * 1 + 4]) == HeaderWords(p)[1];
    assert FromLe32(h[4 * 2..4 * 2 + 4]) == HeaderWords(p)[2] && FromLe32(h[4 * 3..4 * 3 + 4]) == HeaderWords(p)[3];
    assert FromLe32(h[4 * 4..4 * 4 + 4]) == HeaderWords(p)[4] && FromLe32(h[4 * 5..4 * 5 + 4]) == HeaderWords(p)[5];
  }

  lemma DecodeAfterHeader(h: seq<byte>, tail: seq<byte>, end: IoError)
    requires |h| == HEADER_SIZE
    ensures Decode(h + tail, end) == DecodeBody(ParseHeader(h), tail, end)
  {
    assert (h + tail)[..HEADER_SIZE] == h && (h + tail)[HEADER_SIZE..] == tail;
  }

  lemma DecodeBodyOf(h: Head, body: seq<byte>, rest: seq<byte>, end: IoError)
    requires h.magic == Magic(h.command) && h.length == |body| <= MAX_PAYLOAD_SIZE
    ensures DecodeBody(h, body + rest, end) ==
            (if h.check != 0 && h.check != ByteSum(body) % 0x1_0000_0000 then Failed(BadChecksum)
             else Read(Packet(h.command, h.arg0, h.arg1, body)), rest)
  {
    assert (body + rest)[..|body|] == body && (body + rest)[|body|..] == rest;
  }

  /** A packet's own header in front of any payload of the same length. */
  lemma DecodeSwapped(p: Packet, body: seq<byte>, rest: seq<byte>, end: IoError)
    requires |body| == |p.payload| <= MAX_PAYLOAD_SIZE
    ensures Decode(Header(p) + body + rest, end) ==
            (if ByteSum(p.payload) != 0 && ByteSum(body) != ByteSum(p.payload) then Failed(BadChecksum)
             else Read(p.(payload := body)), rest)
  {
    assert Decode(Header(p) + body + rest, end) == DecodeBody(HeadOf(p), body + rest, end) by {
      assert Header(p) + body + rest == Header(p) + (body + rest);
      DecodeAfterHeader(Header(p), body + rest, end);
      ParseHeaderOf(p);
    }
    SwappedBody(p, body, rest, end);
  }

  lemma SwappedBody(p: Packet, body: seq<byte>, rest: seq<byte>, end: IoError)
    requires |body| == |p.payload| <= MAX_PAYLOAD_SIZE
    ensures DecodeBody(HeadOf(p), body + rest, end) ==
            (if ByteSum(p.payload) != 0 && ByteSum(body) != ByteSum(p.payload) then Failed(BadChecksum)
             else Read(p.(payload := body)), rest)
  {
    ChecksumIsByteSum(p.payload);
    ChecksumIsByteSum(body);
    DecodeBodyOf(HeadOf(p), body, rest, end);
  }

  lemma DecodeEncode(p: Packet, rest: seq<byte>, end: IoError)
    requires |p.payload| <= MAX_PAYLOAD_SIZE
    ensures Decode(Encode(p) + rest, end) == (Read(p), rest)
  {
    DecodeSwapped(p, p.payload, rest, end);
  }

  /** No cut packet is ever taken for a packet. */
  lemma DecodeCut(p: Packet, n: nat, end: IoError)
    requires |p.payload| <= MAX_PAYLOAD_SIZE && n < |Encode(p)|
    ensures Decode(Encode(p)[..n], end).0.Failed?
  {
    if HEADER_SIZE <= n {
      assert Encode(p)[..n] == Header(p) + p.payload[..n - HEADER_SIZE];
      DecodeAfterHeader(Header(p), p.payload[..n - HEADER_SIZE], end);
      ParseHeaderOf(p);
    }
  }

  lemma EncodeAllSnoc(ps: seq<Packet>, p: Packet)
    ensures EncodeAll(ps + [p]) == EncodeAll(ps) + Encode(p)
  {
    assert (ps + [p])[..|ps|] == ps;
  }

  lemma {:induction false} EncodeAllAppend(ps: seq<Packet>, qs: seq<Packet>)
    ensures EncodeAll(ps + qs) == EncodeAll(ps) + EncodeAll(qs)
  {
    if qs == [] {
      assert ps + qs == ps;
    } else {
      var init, last := qs[..|qs| - 1], qs[|qs| - 1];
      EncodeAllAppend(ps, init);
      assert ps + qs == ps + init + [last] by {
        assert qs == init + [last];
        Assoc(ps, init, [last]);
      }
      EncodeAllSnoc(ps + init, last);
      Assoc(EncodeAll(ps), EncodeAll(init), Encode(last));
    }
  }

  lemma EncodeAllHead(ps: seq<Packet>)
    requires ps != []
    ensures EncodeAll(ps) == Encode(ps[0]) + EncodeAll(ps[1..])
  {
    assert ps == [ps[0]] + ps[1..];
    EncodeAllAppend([ps[0]], ps[1..]);
    EncodeAllSnoc([], ps[0]);
  }

  lemma DecodeAllStep(p: Packet, rest: seq<byte>)
    requires |p.payload| <= MAX_PAYLOAD_SIZE
    ensures DecodeAll(Encode(p) + rest) == ([p] + DecodeAll(rest).0, DecodeAll(rest).1)
  {
    DecodeEncode(p, rest, Eof);
  }

  /** Packets written back to back read back as those packets, whatever bytes follow them. */
  lemma {:induction false} DecodeAllEncodeAll(ps: seq<Packet>, tail: seq<byte>)
    requires forall p :: p in ps ==> |p.payload| <= MAX_PAYLOAD_SIZE
    ensures DecodeAll(EncodeAll(ps) + tail) == (ps + DecodeAll(tail).0, DecodeAll(tail).1)
  {
    if ps == [] {
      assert EncodeAll(ps) + tail == tail;
      assert ps + DecodeAll(tail).0 == DecodeAll(tail).0;
    } else {
      var ends := DecodeAll(tail);
      DecodeAllEncodeAll(ps[1..], tail);
      assert EncodeAll(ps) + tail == Encode(ps[0]) + (EncodeAll(ps[1..]) + tail) by {
        EncodeAllHead(ps);
        Assoc(Encode(ps[0]), EncodeAll(ps[1..]), tail);
      }
      DecodeAllStep(ps[0], EncodeAll(ps[1..]) + tail);
      assert [ps[0]] + (ps[1..] + ends.0) == ps + ends.0 by {
        HeadAndTail(ps);
        Assoc([ps[0]], ps[1..], ends.0);
      }
    }
  }

  /** A packet with one payload byte changed is rejected exactly when the checksum it carries is not zero. */
  lemma CorruptionRejected(p: Packet, k: nat, b: byte, rest: seq<byte>, end: IoError)
    requires |p.payload| <= MAX_PAYLOAD_SIZE && k < |p.payload| && b != p.payload[k]
    ensures var r := Decode(Header(p) + p.payload[k := b] + rest, end).0;
            if ByteSum(p.payload) != 0 then r == Failed(BadChecksum)
            else r == Read(p.(payload := p.payload[k := b]))
  {
    DecodeSwapped(p, p.payload[k := b], rest, end);
    ByteSumUpdate(p.payload, k, b);
  }
}
