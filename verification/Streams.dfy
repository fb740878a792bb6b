/** The two ends of a byte connection, as io.ReadFull and Write see them. */
module Streams {
  import opened Bytes

  datatype IoError = Eof | UnexpectedEof | Broken

  /** A connection to read from: the bytes still to come, then `end` for ever. */
  class ByteReader {
    var data: seq<byte>
    const end: IoError

    constructor (data: seq<byte>, end: IoError)
      ensures this.data == data && this.end == end
    {
      this.data := data;
      this.end := end;
    }

    /** io.ReadFull: fills `buf`, or consumes what there was and says how it fell short. */
    method ReadFull(buf: array<byte>) returns (err: Option<IoError>)
      modifies this`data, buf
      ensures err == Shortfall(old(data), buf.Length, end)
      ensures err.None? ==> buf[..] == old(data)[..buf.Length] && data == old(data)[buf.Length..]
      ensures err.Some? ==> data == []
    {
      err := Shortfall(data, buf.Length, end);
      if err.Some? {
        data := [];
      } else {
        forall i | 0 <= i < buf.Length { buf[i] := data[i]; }
        data := data[buf.Length..];
      }
    }

    /** One Read: some of the bytes that are there, however many; the end only when none are left. */
    method Read(buf: array<byte>) returns (n: nat, err: Option<IoError>)
      requires buf.Length > 0
      modifies this`data, buf
      ensures n <= buf.Length && n <= |old(data)| && buf[..n] == old(data)[..n] && data == old(data)[n..]
      ensures buf[n..] == old(buf[n..])
      ensures err == if old(data) == [] then Some(end) else None
      ensures n == 0 <==> old(data) == []
    {
      if data == [] {
        return 0, Some(end);
      }
      n :| 1 <= n <= buf.Length && n <= |data|;
      forall i | 0 <= i < n { buf[i] := data[i]; }
      data := data[n..];
      err := None;
    }
  }

  /** The error io.ReadFull reports when `n` bytes are wanted and `data` then `end` is what comes. */
  function Shortfall(data: seq<byte>, n: nat, end: IoError): Option<IoError>
  {
    if n <= |data| then None
    else if data != [] && end == Eof then Some(UnexpectedEof)
    else Some(end)
  }

  /** A connection to write to: it takes `room` more bytes and then fails for ever. */
  class ByteWriter {
    var written: seq<byte>
    var room: nat

    constructor (room: nat)
      ensures written == [] && this.room == room
    {
      written := [];
      this.room := room;
    }

    method Write(p: seq<byte>) returns (ok: bool)
      modifies this
      ensures ok == (|p| <= old(room))
      ensures ok ==> written == old(written) + p && room == old(room) - |p|
      ensures !ok ==> written == old(written) + p[..old(room)] && room == 0
    {
      ok := |p| <= room;
      if ok {
        written, room := written + p, room - |p|;
      } else {
        written, room := written + p[..room], 0;
      }
    }
  }
}
