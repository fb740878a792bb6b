/**
 The Protocol Buffers fields of an HDC file transfer (src/internal/hdcserver/file_transfer.go) and a reader for
 them, after the Protocol Buffers encoding guide, section "Base 128 Varints".
 */
module Protobuf {
  import opened Bytes

  const HDC_FILE_HEADER_SIZE := 64

  function Varint(value: uint64): (s: seq<byte>)
    ensures s != []
  {
    if value >= 0x80 then [value % 0x80 + 0x80] + Varint(value / 0x80) else [value]
  }

  method AppendVarint(out: seq<byte>, value: uint64) returns (r: seq<byte>)
    ensures r == out + Varint(value)
  {
    r := out;
    var v := value;
    while v >= 0x80
      invariant r + Varint(v) == out + Varint(value)
    {
      Assoc(r, [v % 0x80 + 0x80], Varint(v / 0x80));
      r, v := r + [v % 0x80 + 0x80], v / 0x80;
    }
    r := r + [v];
  }

  /** Reads a varint of at most `limit` bytes. */
  function ReadVarint(s: seq<byte>, limit: nat): Option<(nat, seq<byte>)>
  {
    if s == [] || limit == 0 then None
    else if s[0] < 0x80 then Some((s[0], s[1..]))
    else match ReadVarint(s[1..], limit - 1)
      case None => None
      case Some((high, rest)) => Some((s[0] - 0x80 + 0x80 * high, rest))
  }

  function Pow128(n: nat): nat
  {
    if n == 0 then 1 else 0x80 * Pow128(n - 1)
  }

  lemma {:induction false} ReadVarintOf(value: uint64, rest: seq<byte>, limit: nat)
    requires limit > 0 && value < Pow128(limit)
    ensures ReadVarint(Varint(value) + rest, limit) == Some((value, rest))
    ensures |Varint(value)| <= limit
  {
    var s := Varint(value) + rest;
    if value >= 0x80 {
      assert limit > 1;
      ReadVarintOf(value / 0x80, rest, limit - 1);
      assert s[1..] == Varint(value / 0x80) + rest;
    } else {
      assert s[1..] == rest;
    }
  }

  /** For every uint64: at most ten bytes, and reading them gives the value and the bytes that follow. */
  lemma VarintRoundTrip(value: uint64, rest: seq<byte>)
    ensures ReadVarint(Varint(value) + rest, 10) == Some((value, rest))
    ensures |Varint(value)| <= 10
  {
    assert Pow128(1) == 0x80;
    assert Pow128(2) == 0x4000;
    assert Pow128(4) == 0x1000_0000;
    assert Pow128(6) == 0x400_0000_0000;
    assert Pow128(8) == 0x100_0000_0000_0000;
    assert Pow128(10) == 0x40_0000_0000_0000_0000;
    ReadVarintOf(value, rest, 10);
  }

  // ---- Fields

  datatype Field = Number(n: nat, value: uint64) | Blob(n: nat, data: seq<byte>)

  predicate FieldOk(f: Field)
  {
    1 <= f.n < 0x2000_0000 && (f.Blob? ==> |f.data| < 0x1_0000_0000_0000_0000)
  }

  ghost predicate FieldsOk(fs: seq<Field>)
  {
    forall i :: 0 <= i < |fs| ==> FieldOk(fs[i])
  }

  function EncodeField(f: Field): seq<byte>
    requires FieldOk(f)
  {
    match f
    case Number(n, value) => Varint(8 * n) + Varint(value)
    case Blob(n, data) => Varint(8 * n + 2) + Varint(|data|) + data
  }

  ghost function EncodeFields(fs: seq<Field>): seq<byte>
    requires FieldsOk(fs)
  {
    if fs == [] then [] else EncodeField(fs[0]) + EncodeFields(fs[1..])
  }

  /** A tag and the varint after it make a field if the number is legal and the kind one of the two used here. */
  function MakeField(tag: nat, v: nat, rest: seq<byte>): (r: Option<(Field, seq<byte>)>)
  {
    if tag / 8 == 0 || tag / 8 >= 0x2000_0000 || v >= 0x1_0000_0000_0000_0000 then None
    else if tag % 8 == 0 then Some((Number(tag / 8, v), rest))
    else if tag % 8 == 2 && v <= |rest| then Some((Blob(tag / 8, rest[..v]), rest[v..]))
    else None
  }

  function ReadField(s: seq<byte>): (r: Option<(Field, seq<byte>)>)
  {
    match ReadVarint(s, 10)
    case None => None
    case Some((tag, afterTag)) =>
      match ReadVarint(afterTag, 10)
      case None => None
      case Some((v, rest)) => MakeField(tag, v, rest)
  }

  /** As many fields as there are, and the bytes after them. */
  function ReadFields(s: seq<byte>): (seq<Field>, seq<byte>)
    decreases |s|
  {
    match ReadField(s)
    case Some((f, rest)) =>
      if |rest| < |s| then
        var (fs, left) := ReadFields(rest);
        ([f] + fs, left)
      else ([], s)
    case None => ([], s)
  }

  lemma ReadFieldFrom(tag: uint64, v: uint64, rest: seq<byte>)
    ensures ReadField(Varint(tag) + (Varint(v) + rest)) == MakeField(tag, v, rest)
  {
    VarintRoundTrip(tag, Varint(v) + rest);
    VarintRoundTrip(v, rest);
  }

  lemma ReadFieldOf(f: Field, rest: seq<byte>)
    requires FieldOk(f)
    ensures ReadField(EncodeField(f) + rest) == Some((f, rest))
  {
    match f {
      case Number(n, value) =>
        ReadFieldFrom(8 * n, value, rest);
        Assoc(Varint(8 * n), Varint(value), rest);
      case Blob(n, data) =>
        ReadFieldFrom(8 * n + 2, |data|, data + rest);
        BlobLayout(Varint(8 * n + 2), Varint(|data|), data, rest);
    }
  }

  lemma BlobLayout(tag: seq<byte>, length: seq<byte>, data: seq<byte>, rest: seq<byte>)
    ensures tag + length + data + rest == tag + (length + (data + rest))
    ensures (data + rest)[..|data|] == data && (data + rest)[|data|..] == rest
  {
  }

  lemma FieldHasBytes(f: Field)
    requires FieldOk(f)
    ensures |EncodeField(f)| > 0
  {
  }

  lemma ReadOneMore(f: Field, s: seq<byte>)
    requires FieldOk(f)
    ensures ReadFields(EncodeField(f) + s) == ([f] + ReadFields(s).0, ReadFields(s).1)
  {
    ReadFieldOf(f, s);
    FieldHasBytes(f);
  }

  /** A reader gets back every field written, in order, whatever follows. */
  lemma {:induction false} FieldsRoundTrip(fs: seq<Field>, rest: seq<byte>)
    requires FieldsOk(fs)
    ensures ReadFields(EncodeFields(fs) + rest) == (fs + ReadFields(rest).0, ReadFields(rest).1)
  {
    if fs == [] {
      assert EncodeFields(fs) + rest == rest && fs + ReadFields(rest).0 == ReadFields(rest).0;
    } else {
      var f, more := fs[0], ReadFields(rest).0;
      FieldsRoundTrip(fs[1..], rest);
      ReadOneMore(f, EncodeFields(fs[1..]) + rest);
      Assoc(EncodeField(f), EncodeFields(fs[1..]), rest);
      Assoc([f], fs[1..], more);
      HeadAndTail(fs);
    }
  }

  lemma {:induction false} EncodeFieldsSnoc(fs: seq<Field>, f: Field)
    requires FieldOk(f) && FieldsOk(fs)
    ensures FieldsOk(fs + [f]) && EncodeFields(fs + [f]) == EncodeFields(fs) + EncodeField(f)
  {
    if fs == [] {
      assert fs + [f] == [f] && [f][1..] == [];
      assert EncodeField(f) + [] == EncodeField(f) == [] + EncodeField(f);
    } else {
      EncodeFieldsSnoc(fs[1..], f);
      assert (fs + [f])[1..] == fs[1..] + [f];
      Assoc(EncodeField(fs[0]), EncodeFields(fs[1..]), EncodeField(f));
    }
  }

  /** The part of a message written so far: its first k fields. */
  ghost predicate Written(out: seq<byte>, fs: seq<Field>, k: nat)
    requires FieldsOk(fs)
  {
    k <= |fs| && FieldsOk(fs[..k]) && out == EncodeFields(fs[..k])
  }

  lemma WrittenNext(out: seq<byte>, fs: seq<Field>, k: nat, more: seq<byte>)
    requires FieldsOk(fs) && Written(out, fs, k) && k < |fs| && more == out + EncodeField(fs[k])
    ensures Written(more, fs, k + 1)
  {
    EncodeFieldsSnoc(fs[..k], fs[k]);
    assert fs[..k + 1] == fs[..k] + [fs[k]];
  }

  lemma ReadWritten(out: seq<byte>, fs: seq<Field>, rest: seq<byte>)
    requires FieldsOk(fs) && Written(out, fs, |fs|)
    ensures ReadFields(out + rest) == (fs + ReadFields(rest).0, ReadFields(rest).1)
  {
    assert fs[..|fs|] == fs;
    FieldsRoundTrip(fs, rest);
  }

  method AppendVarintField(out: seq<byte>, n: nat, value: uint64, ghost fs: seq<Field>, ghost k: nat)
    returns (r: seq<byte>)
    requires FieldsOk(fs) && k < |fs| && fs[k] == Number(n, value) && Written(out, fs, k)
    ensures Written(r, fs, k + 1)
  {
    r := AppendVarint(out, 8 * n);
    r := AppendVarint(r, value);
    Assoc(out, Varint(8 * n), Varint(value));
    WrittenNext(out, fs, k, r);
  }

  method AppendBytesField(out: seq<byte>, n: nat, value: seq<byte>, ghost fs: seq<Field>, ghost k: nat)
    returns (r: seq<byte>)
    requires FieldsOk(fs) && k < |fs| && fs[k] == Blob(n, value) && Written(out, fs, k)
    ensures Written(r, fs, k + 1)
  {
    r := AppendVarint(out, 8 * n + 2);
    r := AppendVarint(r, |value|);
    r := r + value;
    BlobLayout(out, Varint(8 * n + 2), Varint(|value|), value);
    Assoc(Varint(8 * n + 2), Varint(|value|), value);
    WrittenNext(out, fs, k, r);
  }

  /** The fields of a transfer configuration: size, times, the paths, and what the bridge leaves empty. */
  predicate IsTransferConfig(fs: seq<Field>, fileSize: uint64, remote: seq<byte>, optionalName: seq<byte>,
                             mtime: uint64)
  {
    && |fs| == 13
    && fs[0] == Number(1, fileSize) && fs[1] == Number(2, mtime) && fs[2] == Number(3, mtime) && fs[3] == Blob(4, [])
    && fs[4] == Blob(5, remote) && fs[5] == Blob(6, optionalName)
    && fs[6] == Number(7, 0) && fs[7] == Number(8, 0) && fs[8] == Number(9, 0)
    && fs[9] == Blob(10, []) && fs[10] == Blob(11, []) && fs[11] == Blob(12, []) && fs[12] == Blob(13, [])
  }

  lemma ConfigFields(fileSize: uint64, remote: seq<byte>, optionalName: seq<byte>, mtime: uint64)
    returns (fs: seq<Field>)
    requires |remote| < 0x8000_0000_0000_0000 && |optionalName| < 0x8000_0000_0000_0000
    ensures FieldsOk(fs) && IsTransferConfig(fs, fileSize, remote, optionalName, mtime)
  {
    fs := [Number(1, fileSize), Number(2, mtime), Number(3, mtime), Blob(4, []), Blob(5, remote), Blob(6, optionalName),
           Number(7, 0), Number(8, 0), Number(9, 0), Blob(10, []), Blob(11, []), Blob(12, []), Blob(13, [])];
  }

  /** Reading the encoded configuration gives all thirteen fields and leaves nothing. */
  method EncodeTransferConfig(fileSize: uint64, remote: seq<byte>, optionalName: seq<byte>, mtime: uint64)
    returns (out: seq<byte>)
    requires |remote| < 0x8000_0000_0000_0000 && |optionalName| < 0x8000_0000_0000_0000
    ensures IsTransferConfig(ReadFields(out).0, fileSize, remote, optionalName, mtime) && ReadFields(out).1 == []
  {
    ghost var fs := ConfigFields(fileSize, remote, optionalName, mtime);
    out := [];
    out := AppendVarintField(out, 1, fileSize, fs, 0);
    out := AppendVarintField(out, 2, mtime, fs, 1);
    out := AppendVarintField(out, 3, mtime, fs, 2);
    out := AppendBytesField(out, 4, [], fs, 3);
    out := AppendBytesField(out, 5, remote, fs, 4);
    out := AppendBytesField(out, 6, optionalName, fs, 5);
    out := AppendVarintField(out, 7, 0, fs, 6);
    out := AppendVarintField(out, 8, 0, fs, 7);
    out := AppendVarintField(out, 9, 0, fs, 8);
    out := AppendBytesField(out, 10, [], fs, 9);
    out := AppendBytesField(out, 11, [], fs, 10);
    out := AppendBytesField(out, 12, [], fs, 11);
    out := AppendBytesField(out, 13, [], fs, 12);
    ReadWritten(out, fs, []);
    assert out + [] == out && fs + [] == fs;
  }

  function PayloadFields(index: uint64, length: uint64): seq<Field>
  {
    [Number(1, index), Number(2, 0), Number(3, length), Number(4, length)]
  }

  predicate Zeros(s: seq<byte>)
  {
    forall i :: 0 <= i < |s| ==> s[i] == 0
  }

  /** A chunk's payload: its first 64 bytes read as the chunk's index and, twice, its length; then the chunk. */
  predicate CarriesChunk(payload: seq<byte>, index: uint64, data: seq<byte>)
  {
    && |payload| == HDC_FILE_HEADER_SIZE + |data| && payload[HDC_FILE_HEADER_SIZE..] == data
    && |data| < 0x1_0000_0000_0000_0000
    && ReadFields(payload[..HDC_FILE_HEADER_SIZE]).0 == PayloadFields(index, |data|)
    && Zeros(ReadFields(payload[..HDC_FILE_HEADER_SIZE]).1)
  }

  lemma VarintFieldLength(n: nat, value: uint64)
    requires 1 <= n < 0x10
    ensures |EncodeField(Number(n, value))| <= 11
  {
    VarintRoundTrip(value, []);
  }

  lemma PayloadHeadFits(head: seq<byte>, index: uint64, length: uint64)
    requires FieldsOk(PayloadFields(index, length)) && Written(head, PayloadFields(index, length), 4)
    ensures |head| <= 44
  {
    var fs := PayloadFields(index, length);
    for k := 0 to 4
      invariant FieldsOk(fs[..k]) && |EncodeFields(fs[..k])| <= 11 * k
    {
      VarintFieldLength(fs[k].n, fs[k].value);
      EncodeFieldsSnoc(fs[..k], fs[k]);
      assert fs[..k + 1] == fs[..k] + [fs[k]];
    }
  }

  lemma NoFieldInZeros(zeros: seq<byte>)
    requires Zeros(zeros)
    ensures ReadFields(zeros) == ([], zeros)
  {
    assert ReadField(zeros) == None;
  }

  /** The head always fits the 64 bytes kept for it, whatever the index and the length. */
  method EncodeTransferPayload(index: uint64, data: seq<byte>) returns (payload: seq<byte>)
    requires |data| < 0x8000_0000_0000_0000
    ensures CarriesChunk(payload, index, data)
  {
    ghost var fs := PayloadFields(index, |data|);
    var head := AppendVarintField([], 1, index, fs, 0);
    head := AppendVarintField(head, 2, 0, fs, 1);
    head := AppendVarintField(head, 3, |data|, fs, 2);
    head := AppendVarintField(head, 4, |data|, fs, 3);
    PayloadHeadFits(head, index, |data|);

    var header := new byte[HDC_FILE_HEADER_SIZE](i => 0);
    forall i | 0 <= i < |head| { header[i] := head[i]; }
    ghost var zeros := header[|head|..];
    assert header[..] == head + zeros;
    ReadWritten(head, fs, zeros);
    NoFieldInZeros(zeros);
    assert fs + [] == fs;
    payload := header[..] + data;
    assert payload[..HDC_FILE_HEADER_SIZE] == header[..];
  }
}
