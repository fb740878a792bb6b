/** Machine bytes and words, and their little- and big-endian layouts. */
module Bytes {

  type byte = x: int | 0 <= x < 0x100
  type uint16 = x: int | 0 <= x < 0x1_0000
  type uint32 = x: int | 0 <= x < 0x1_0000_0000
  type uint64 = x: int | 0 <= x < 0x1_0000_0000_0000_0000

  datatype Option<+T> = None | Some(value: T)

  function Le32(x: uint32): (s: seq<byte>)
    ensures |s| == 4
  {
    [x % 0x100, x / 0x100 % 0x100, x / 0x1_0000 % 0x100, x / 0x100_0000]
  }

  function FromLe32(s: seq<byte>): uint32
    requires |s| == 4
  {
    var a: int, b: int, c: int, d: int := s[0], s[1], s[2], s[3];
    a + 0x100 * b + 0x1_0000 * c + 0x100_0000 * d
  }

  function Be32(x: uint32): (s: seq<byte>)
    ensures |s| == 4
  {
    [x / 0x100_0000, x / 0x1_0000 % 0x100, x / 0x100 % 0x100, x % 0x100]
  }

  function FromBe32(s: seq<byte>): uint32
    requires |s| == 4
  {
    var a: int, b: int, c: int, d: int := s[0], s[1], s[2], s[3];
    0x100_0000 * a + 0x1_0000 * b + 0x100 * c + d
  }

  function Le16(x: uint16): (s: seq<byte>)
    ensures |s| == 2
  {
    [x % 0x100, x / 0x100]
  }

  function FromLe16(s: seq<byte>): uint16
    requires |s| == 2
  {
    var a: int, b: int := s[0], s[1];
    a + 0x100 * b
  }

  lemma WordRoundTrip(x: uint32)
    ensures FromLe32(Le32(x)) == x
    ensures FromBe32(Be32(x)) == x
  {
    var a, b, c := x / 0x100, x / 0x1_0000, x / 0x100_0000;
    assert b == a / 0x100 && c == b / 0x100;
    assert x == 0x100 * a + x % 0x100 && a == 0x100 * b + a % 0x100 && b == 0x100 * c + b % 0x100;
  }

  /** Little-endian words laid out one after the other. */
  function Words(ws: seq<uint32>): (s: seq<byte>)
    ensures |s| == 4 * |ws|
  {
    if ws == [] then [] else Words(ws[..|ws| - 1]) + Le32(ws[|ws| - 1])
  }

  lemma {:induction false} WordAt(ws: seq<uint32>, i: nat)
    requires i < |ws|
    ensures FromLe32(Words(ws)[4 * i..4 * i + 4]) == ws[i]
  {
    var last := |ws| - 1;
    if i == last {
      assert Words(ws)[4 * i..4 * i + 4] == Le32(ws[i]);
      WordRoundTrip(ws[i]);
    } else {
      WordAt(ws[..last], i);
      assert Words(ws)[4 * i..4 * i + 4] == Words(ws[..last])[4 * i..4 * i + 4];
    }
  }

  lemma Assoc<T>(a: seq<T>, b: seq<T>, c: seq<T>)
    ensures a + b + c == a + (b + c)
  {
  }

  lemma HeadAndTail<T>(s: seq<T>)
    requires s != []
    ensures s == [s[0]] + s[1..]
  {
  }

  lemma CutIsPrefix<T>(a: seq<T>, b: seq<T>, n: nat, c: seq<T>)
    requires n <= |b|
    ensures a + b[..n] <= a + b + c
  {
  }

  /** The concatenation of a list of byte strings. */
  function Concat(ss: seq<seq<byte>>): seq<byte>
  {
    if ss == [] then [] else Concat(ss[..|ss| - 1]) + ss[|ss| - 1]
  }

  lemma ConcatSnoc(ss: seq<seq<byte>>, s: seq<byte>)
    ensures Concat(ss + [s]) == Concat(ss) + s
  {
    assert (ss + [s])[..|ss|] == ss;
  }

  lemma {:induction false} ConcatAppend(ss: seq<seq<byte>>, ts: seq<seq<byte>>)
    ensures Concat(ss + ts) == Concat(ss) + Concat(ts)
  {
    if ts == [] {
      assert ss + ts == ss && Concat(ss) + [] == Concat(ss);
    } else {
      var init, last := ts[..|ts| - 1], ts[|ts| - 1];
      ConcatAppend(ss, init);
      assert (ss + ts)[..|ss + ts| - 1] == ss + init;
      Assoc(Concat(ss), Concat(init), last);
    }
  }
}
