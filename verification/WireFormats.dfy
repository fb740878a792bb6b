/**
 The bytes of the formats themselves, written out: what any other implementation of the protocols sends and expects,
 not only what this one reads back from itself.
 */
module WireFormats {
  import opened Bytes
  import opened Streams
  import Adbwire
  import HdcChannel
  import Sync
  import Protobuf
  import FilePush
  import InheritFds

  /** Four bytes of s hold x, the least significant first. */
  predicate Little(s: seq<byte>, at: nat, x: uint32)
  {
    && at + 4 <= |s|
    && s[at] == x % 0x100 && s[at + 1] == x / 0x100 % 0x100
    && s[at + 2] == x / 0x1_0000 % 0x100 && s[at + 3] == x / 0x100_0000
  }

  /** Four bytes of s hold x, the most significant first. */
  predicate Big(s: seq<byte>, at: nat, x: uint32)
  {
    && at + 4 <= |s|
    && s[at] == x / 0x100_0000 && s[at + 1] == x / 0x1_0000 % 0x100
    && s[at + 2] == x / 0x100 % 0x100 && s[at + 3] == x % 0x100
  }

  function Value(s: seq<byte>, at: nat): uint32
    requires at + 4 <= |s|
  {
    var a: int, b: int, c: int, d: int := s[at], s[at + 1], s[at + 2], s[at + 3];
    a + 0x100 * b + 0x1_0000 * c + 0x100_0000 * d
  }

  function Ascii(name: string): seq<byte>
    requires forall k :: 0 <= k < |name| ==> name[k] < 128 as char
  {
    seq(|name|, k requires 0 <= k < |name| => name[k] as int)
  }

  // ---- ADB packets

  /** The checksum is the sum of the payload's bytes. */
  lemma SumByByte(payload: seq<byte>, b: byte)
    ensures Adbwire.ByteSum([]) == 0 && Adbwire.ByteSum(payload + [b]) == Adbwire.ByteSum(payload) + b
  {
    assert (payload + [b])[..|payload|] == payload;
  }

  /** The digits to base 256 are unique. */
  lemma DigitsOf(a: byte, b: byte, c: byte, d: byte)
    ensures var x: int := (a as int) + 0x100 * (b as int) + 0x1_0000 * (c as int) + 0x100_0000 * (d as int);
            && 0 <= x < 0x1_0000_0000 && x % 0x100 == a && x / 0x100 % 0x100 == b
            && x / 0x1_0000 % 0x100 == c && x / 0x100_0000 == d
  {
    var x: int := (a as int) + 0x100 * (b as int) + 0x1_0000 * (c as int) + 0x100_0000 * (d as int);
    assert x / 0x100 == (b as int) + 0x100 * (c as int) + 0x1_0000 * (d as int);
    assert x / 0x1_0000 == (c as int) + 0x100 * (d as int);
  }

  lemma ValueIsLittle(s: seq<byte>, at: nat)
    requires at + 4 <= |s|
    ensures Little(s, at, Value(s, at))
  {
    DigitsOf(s[at], s[at + 1], s[at + 2], s[at + 3]);
  }

  lemma LittleIsValue(s: seq<byte>, at: nat, x: uint32)
    requires Little(s, at, x)
    ensures Value(s, at) == x
  {
    var a, b := x / 0x100, x / 0x1_0000;
    assert x == 0x100 * a + x % 0x100 && a == 0x100 * b + a % 0x100;
    assert b == a / 0x100 && x / 0x100_0000 == b / 0x100;
  }

  /** A word is the complement of another just if each of its bytes is. */
  lemma MagicByByte(s: seq<byte>)
    requires |s| >= 24
    ensures Value(s, 20) == Adbwire.Magic(Value(s, 0)) <==> forall k :: 0 <= k < 4 ==> s[20 + k] == 0xff - s[k]
  {
    DigitsOf(s[20], s[21], s[22], s[23]);
    DigitsOf(0xff - s[0], 0xff - s[1], 0xff - s[2], 0xff - s[3]);
    assert s[20 + 0] == s[20] && s[20 + 1] == s[21] && s[20 + 2] == s[22] && s[20 + 3] == s[23];
  }

  lemma PacketWords(p: Adbwire.Packet)
    ensures var s := Adbwire.Encode(p);
            && |s| == 24 + |p.payload| && s[24..] == p.payload
            && Little(s, 0, p.command) && Little(s, 4, p.arg0) && Little(s, 8, p.arg1)
            && Little(s, 12, |p.payload| % 0x1_0000_0000) && Little(s, 16, Adbwire.ByteSum(p.payload) % 0x1_0000_0000)
            && Little(s, 20, Adbwire.Magic(p.command))
  {
    Adbwire.HeaderLayout(p);
  }

  /** A packet on the wire: six little-endian words, of which the last complements the first, and the payload. */
  lemma PacketLayout(p: Adbwire.Packet)
    ensures var s := Adbwire.Encode(p);
            && |s| == 24 + |p.payload| && s[24..] == p.payload
            && Little(s, 0, p.command) && Little(s, 4, p.arg0) && Little(s, 8, p.arg1)
            && Little(s, 12, |p.payload| % 0x1_0000_0000) && Little(s, 16, Adbwire.ByteSum(p.payload) % 0x1_0000_0000)
            && forall k :: 0 <= k < 4 ==> s[20 + k] == 0xff - s[k]
  {
    PacketWords(p);
    Complemented(Adbwire.Encode(p), p.command);
  }

  lemma Complemented(s: seq<byte>, command: uint32)
    requires |s| >= 24 && Little(s, 0, command) && Little(s, 20, Adbwire.Magic(command))
    ensures forall k :: 0 <= k < 4 ==> s[20 + k] == 0xff - s[k]
  {
    LittleIsValue(s, 0, command);
    LittleIsValue(s, 20, Adbwire.Magic(command));
    MagicByByte(s);
  }

  /**
   What is read as a packet: a complete one with the right complement, a length in bounds and a right checksum or
   none.
   */
  predicate IsPacket(s: seq<byte>)
  {
    && |s| >= 24 && (forall k :: 0 <= k < 4 ==> s[20 + k] == 0xff - s[k])
    && Value(s, 12) <= 0x100_0000 && |s| >= 24 + Value(s, 12)
    && (Value(s, 16) == 0 || Value(s, 16) == Adbwire.ByteSum(s[24..24 + Value(s, 12)]) % 0x1_0000_0000)
  }

  /** A stream is read as a packet exactly if it begins with one, and the packet has the four fields found there. */
  lemma PacketIsRead(s: seq<byte>, end: IoError)
    ensures Adbwire.Decode(s, end).0.Read? <==> IsPacket(s)
    ensures IsPacket(s) ==>
              && Adbwire.Decode(s, end).0.packet ==
                   Adbwire.Packet(Value(s, 0), Value(s, 4), Value(s, 8), s[24..24 + Value(s, 12)])
              && Adbwire.Decode(s, end).1 == s[24 + Value(s, 12)..]
  {
    if |s| >= 24 {
      HeaderValues(s);
      MagicByByte(s);
      var n: int := Value(s, 12);
      if |s| >= 24 + n {
        assert s[24..][..n] == s[24..24 + n] && s[24..][n..] == s[24 + n..];
      }
    }
  }

  lemma HeaderValues(s: seq<byte>)
    requires |s| >= 24
    ensures Adbwire.ParseHeader(s[..24]) ==
              Adbwire.Head(Value(s, 0), Value(s, 4), Value(s, 8), Value(s, 12), Value(s, 16), Value(s, 20))
  {
  }

  /** The four letters of a word, the first in its least significant byte. */
  predicate Spells(command: uint32, name: string)
  {
    && |name| == 4 && (forall k :: 0 <= k < |name| ==> name[k] < 128 as char)
    && command % 0x100 == name[0] as int && command / 0x100 % 0x100 == name[1] as int
    && command / 0x1_0000 % 0x100 == name[2] as int && command / 0x100_0000 == name[3] as int
  }

  /** The commands are the protocol's names. */
  lemma CommandNames()
    ensures Spells(Adbwire.CMD_SYNC, "SYNC") && Spells(Adbwire.CMD_CNXN, "CNXN") && Spells(Adbwire.CMD_AUTH, "AUTH")
    ensures Spells(Adbwire.CMD_OPEN, "OPEN") && Spells(Adbwire.CMD_OKAY, "OKAY")
    ensures Spells(Adbwire.CMD_WRTE, "WRTE") && Spells(Adbwire.CMD_CLSE, "CLSE")
  {
  }

  /** And a packet begins with the letters of its command. */
  lemma PacketBegins(p: Adbwire.Packet, name: string)
    requires Spells(p.command, name)
    ensures Adbwire.Encode(p)[..4] == Ascii(name)
  {
    PacketWords(p);
  }

  // ---- HDC frames and commands

  /** A frame on the channel: its length in four bytes, the most significant first, and the payload. */
  lemma FrameLayout(payload: seq<byte>)
    requires |payload| < 0x1_0000_0000
    ensures var s := HdcChannel.EncodeFrame(payload); |s| == 4 + |payload| && Big(s, 0, |payload|) && s[4..] == payload
  {
  }

  /** A stream begins with a frame exactly if it has that length, in bounds, and as many bytes. */
  lemma FrameIsRead(s: seq<byte>, end: IoError, n: uint32)
    requires Big(s, 0, n)
    ensures HdcChannel.ReadFrame(s, end).0.Frame? <==> n <= 0x100_0000 && |s| >= 4 + n
    ensures HdcChannel.ReadFrame(s, end).0.Frame? ==>
              HdcChannel.ReadFrame(s, end) == (HdcChannel.Frame(s[4..4 + n]), s[4 + n..])
  {
    BigIsValue(s, n);
    var m: int := n;
    if |s| >= 4 + m {
      assert s[4..][..m] == s[4..4 + m] && s[4..][m..] == s[4 + m..];
    }
  }

  lemma BigIsValue(s: seq<byte>, n: uint32)
    requires Big(s, 0, n)
    ensures FromBe32(s[..4]) == n
  {
    var a, b := n / 0x100, n / 0x1_0000;
    assert n == 0x100 * a + n % 0x100 && a == 0x100 * b + a % 0x100;
    assert b == a / 0x100 && n / 0x100_0000 == b / 0x100;
  }

  /** A command in its frame: the code in two bytes, the least significant first, and the payload. */
  lemma CommandLayout(c: HdcChannel.Command)
    requires |c.payload| + 2 < 0x1_0000_0000
    ensures var s := HdcChannel.EncodeCommand(c);
            && |s| == 6 + |c.payload| && Big(s, 0, |c.payload| + 2)
            && s[4] == c.code % 0x100 && s[5] == c.code / 0x100 && s[6..] == c.payload
  {
  }

  function CodeOf(code: uint16): seq<byte>
  {
    HdcChannel.EncodeCommand(HdcChannel.Command(code, []))[4..]
  }

  lemma CodeLayout(code: uint16)
    ensures CodeOf(code) == [code % 0x100, code / 0x100]
  {
    CommandLayout(HdcChannel.Command(code, []));
  }

  /** The codes of a file transfer's commands, as their frames carry them after the length. */
  lemma TransferCodes()
    ensures CodeOf(FilePush.CHANNEL_CLOSE) == [2, 0] && CodeOf(FilePush.WAKEUP_SLAVE_TASK) == [12, 0]
    ensures CodeOf(FilePush.FILE_INIT) == [0xb8, 0xb] && CodeOf(FilePush.FILE_CHECK) == [0xb9, 0xb]
    ensures CodeOf(FilePush.FILE_BEGIN) == [0xba, 0xb] && CodeOf(FilePush.FILE_DATA) == [0xbb, 0xb]
    ensures CodeOf(FilePush.FILE_FINISH) == [0xbc, 0xb]
  {
    CodeLayout(FilePush.CHANNEL_CLOSE);
    CodeLayout(FilePush.WAKEUP_SLAVE_TASK);
    CodeLayout(FilePush.FILE_INIT);
    CodeLayout(FilePush.FILE_CHECK);
    CodeLayout(FilePush.FILE_BEGIN);
    CodeLayout(FilePush.FILE_DATA);
    CodeLayout(FilePush.FILE_FINISH);
  }

  // ---- Sync requests

  /** A request or reply: four letters, and four bytes of a number, the least significant first. */
  lemma SyncLayout(length: uint32)
    ensures var s := Sync.SyncHeader(Sync.DATA, length); |s| == 8 && s[..4] == Ascii("DATA") && Little(s, 4, length)
    ensures var s := Sync.SyncHeader(Sync.DONE, length); |s| == 8 && s[..4] == Ascii("DONE") && Little(s, 4, length)
    ensures var s := Sync.SyncHeader(Sync.OKAY, length); |s| == 8 && s[..4] == Ascii("OKAY") && Little(s, 4, length)
    ensures var s := Sync.SyncHeader(Sync.FAIL, length); |s| == 8 && s[..4] == Ascii("FAIL") && Little(s, 4, length)
  {
  }

  /** A stream begins with a request exactly if it has a header and, but for DONE, as many bytes as it says. */
  lemma RequestIsRead(s: seq<byte>)
    ensures Sync.ReadRequest(s).0.Request? <==>
              && |s| >= 8
              && (s[..4] == Ascii("DONE") || (Value(s, 4) <= 0x100_0000 && |s| >= 8 + Value(s, 4)))
    ensures Sync.ReadRequest(s).0.Request? && s[..4] == Ascii("DONE") ==>
              Sync.ReadRequest(s) == (Sync.Request(s[..4], []), s[8..])
    ensures Sync.ReadRequest(s).0.Request? && s[..4] != Ascii("DONE") ==>
              Sync.ReadRequest(s) == (Sync.Request(s[..4], s[8..8 + Value(s, 4)]), s[8 + Value(s, 4)..])
  {
    assert Ascii("DONE") == Sync.DONE;
    if |s| >= 8 {
      var n: int := Value(s, 4);
      assert FromLe32(s[4..8]) == n;
      assert s[8..8] == [];
      if |s| >= 8 + n {
        assert s[8..][..n] == s[8..8 + n] && s[8..][n..] == s[8 + n..];
      }
    }
  }

  predicate IsEscape(s: string)
  {
    |s| == 4 && s[0] == '\\' && forall k :: 1 <= k < 4 ==> '0' <= s[k] <= '7'
  }

  function Octal(escape: string): byte
    requires IsEscape(escape)
  {
    var a: int, b: int, c: int := escape[1] as int - 48, escape[2] as int - 48, escape[3] as int - 48;
    (64 * a + 8 * b + c) % 0x100
  }

  /** What printf makes of a format without percent signs: a backslash and three octal digits are one byte. */
  function Printed(format: string): seq<byte>
    requires forall k :: 0 <= k < |format| ==> format[k] < 128 as char
  {
    if format == "" then []
    else if |format| >= 4 && IsEscape(format[..4]) then [Octal(format[..4])] + Printed(format[4..])
    else [format[0] as int] + Printed(format[1..])
  }

  lemma PrintedLetter(letter: string, rest: string)
    requires |letter| == 1 && letter[0] != '\\' && letter[0] < 128 as char
    requires forall k :: 0 <= k < |rest| ==> rest[k] < 128 as char
    ensures Printed(letter + rest) == [letter[0] as int] + Printed(rest)
  {
    assert (letter + rest)[1..] == rest;
  }

  lemma PrintedDigits(escape: string, rest: string)
    requires IsEscape(escape) && forall k :: 0 <= k < |rest| ==> rest[k] < 128 as char
    ensures Printed(escape + rest) == [Octal(escape)] + Printed(rest)
  {
    assert (escape + rest)[..4] == escape && (escape + rest)[4..] == rest;
  }

  /** The marker that the pull command has the device print before the file is the one looked for before the file. */
  lemma MarkerIsPrinted()
    ensures Printed("\\001OK\\002") == Sync.PULL_OK_MARKER
    ensures Sync.PULL_OK_MARKER == [1, 'O' as int, 'K' as int, 2]
  {
    var end, start := "\\002" + "", "\\001";
    PrintedDigits("\\002", "");
    PrintedLetter("K", end);
    PrintedLetter("O", "K" + end);
    PrintedDigits(start, "O" + ("K" + end));
    assert "\\001OK\\002" == start + ("O" + ("K" + end));
    assert Octal(start) == 1 && Octal("\\002") == 2 && Printed("") == [];
  }

  // ---- Varints

  /** Seven bits a byte, the least significant first. */
  function Base128(s: seq<byte>): nat
  {
    if s == [] then 0 else s[0] % 0x80 + 0x80 * Base128(s[1..])
  }

  /** A varint: the value to base 128, each byte but the last marked in its high bit. */
  lemma {:induction false} VarintLayout(value: uint64)
    ensures var s := Protobuf.Varint(value);
            Base128(s) == value && forall k :: 0 <= k < |s| ==> (s[k] >= 0x80 <==> k < |s| - 1)
  {
    var s := Protobuf.Varint(value);
    if value >= 0x80 {
      VarintLayout(value / 0x80);
      assert s[1..] == Protobuf.Varint(value / 0x80);
    }
  }

  /**
   A field: its number and kind in one byte, for numbers below 16, and a varint; for a blob, its length and its
   bytes.
   */
  lemma FieldLayout(n: nat, value: uint64, data: seq<byte>)
    requires 1 <= n < 16 && |data| < 0x1_0000_0000_0000_0000
    ensures Protobuf.EncodeField(Protobuf.Number(n, value)) == [8 * n] + Protobuf.Varint(value)
    ensures Protobuf.EncodeField(Protobuf.Blob(n, data)) == [8 * n + 2] + Protobuf.Varint(|data|) + data
  {
  }

  // ---- The list of descriptors

  /** The value of a row of digits, the most significant first. */
  function Decimal(s: string): int
  {
    if s == "" then 0 else 10 * Decimal(s[..|s| - 1]) + (s[|s| - 1] as int - 48)
  }

  /** A number is printed in decimal digits, without a leading zero. */
  lemma {:induction false} NumberIsDecimal(n: nat)
    ensures var s := InheritFds.Itoa(n);
            && Decimal(s) == n && s != "" && (n > 0 ==> s[0] as int != 48)
            && forall k :: 0 <= k < |s| ==> 48 <= s[k] as int <= 57
  {
    if n >= 10 {
      NumberIsDecimal(n / 10);
      var s := InheritFds.Itoa(n);
      assert s[..|s| - 1] == InheritFds.Itoa(n / 10);
    } else {
      assert Decimal("") == 0 && InheritFds.Itoa(n)[..0] == "";
    }
  }

  /** Three files are listed as "3,4,5", and so on: each number after a comma but the first. */
  lemma ListIsCommaSeparated(n: nat)
    requires n > 0
    ensures InheritFds.Join(InheritFds.Numbers(1)) == InheritFds.Itoa(3) == "3"
    ensures InheritFds.Join(InheritFds.Numbers(n + 1)) ==
            InheritFds.Join(InheritFds.Numbers(n)) + "," + InheritFds.Itoa(3 + n)
  {
    assert InheritFds.Numbers(n + 1) == InheritFds.Numbers(n) + [InheritFds.Itoa(3 + n)];
    JoinSnoc(InheritFds.Numbers(n), InheritFds.Itoa(3 + n));
  }

  lemma {:induction false} JoinSnoc(parts: seq<string>, last: string)
    requires parts != []
    ensures InheritFds.Join(parts + [last]) == InheritFds.Join(parts) + "," + last
  {
    if |parts| == 1 {
      assert (parts + [last])[1..] == [last];
      assert parts[0] + "," + last == parts[0] + ("," + last);
    } else {
      JoinSnoc(parts[1..], last);
      assert (parts + [last])[1..] == parts[1..] + [last];
      assert parts[0] + "," + InheritFds.Join(parts[1..]) + "," + last ==
             parts[0] + "," + (InheritFds.Join(parts[1..]) + "," + last);
    }
  }
}
