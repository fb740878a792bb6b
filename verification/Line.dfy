/**
 The writing half of a session (src/internal/bridge/session.go): its connection, its closed flag, and who wrote what.
 */
module Line {
  import opened Bytes
  import opened Streams
  import opened Adbwire
  import opened Emissions
  import opened CloseDiscipline

  /** What an emission has put on the connection: its packet, or less than that. */
  ghost predicate ChunkOk(e: Emission, chunk: seq<byte>)
  {
    if e.whole then chunk == Encode(e.packet) else chunk < Encode(e.packet)
  }

  /** The record of emissions and the bytes of each: only the last can be cut, and its writer is among the first n. */
  ghost predicate RecordOk(link: Link, chunks: seq<seq<byte>>, n: nat)
  {
    && |chunks| == |link.out|
    && forall k {:trigger chunks[k]} :: 0 <= k < |chunks| ==>
         && ChunkOk(link.out[k], chunks[k]) && (link.out[k].whole || (link.broken && k == |chunks| - 1))
         && (link.out[k].owner.Stream? ==> link.out[k].owner.i < n)
  }

  lemma {:induction false} NothingOf(out: seq<Emission>, owner: Owner)
    requires forall e :: e in out ==> e.owner != owner
    ensures Own(out, owner) == []
  {
    if out != [] {
      NothingOf(out[..|out| - 1], owner);
      assert out[|out| - 1] in out;
    }
  }

  /** A number not given out yet has nothing on the connection. */
  lemma NothingFrom(link: Link, chunks: seq<seq<byte>>, n: nat)
    requires RecordOk(link, chunks, n)
    ensures Own(link.out, Stream(n)) == []
  {
    forall e | e in link.out ensures e.owner != Stream(n) {
      var k :| 0 <= k < |link.out| && link.out[k] == e;
      assert ChunkOk(link.out[k], chunks[k]);
    }
    NothingOf(link.out, Stream(n));
  }

  lemma RecordGrows(link: Link, chunks: seq<seq<byte>>, n: nat)
    requires RecordOk(link, chunks, n)
    ensures RecordOk(link, chunks, n + 1)
  {
  }

  /** What one writePacket call comes to. */
  function OutcomeOf(link: Link, packet: Packet, room: nat): Outcome
  {
    if link.closed || link.broken then Refused else if |Encode(packet)| <= room then Sent else Torn
  }

  class Line {
    const conn: ByteWriter
    var closed: bool
    ghost var link: Link              // every packet of which writing began, with its writer
    ghost var chunks: seq<seq<byte>>  // and the bytes it left on the connection
    ghost var created: nat            // streams created so far

    ghost predicate Valid()
      reads this, conn
    {
      && link.closed == closed && (link.broken ==> conn.room == 0)
      && RecordOk(link, chunks, created) && conn.written == Concat(chunks)
    }

    constructor (conn: ByteWriter)
      requires conn.written == []
      ensures this.conn == conn && Valid() && !closed && link == Link(false, false, []) && created == 0
    {
      this.conn, closed, link, chunks, created := conn, false, Link(false, false, []), [], 0;
    }

    /** writePacket: the record grows by exactly this packet of exactly this writer, or by nothing. */
    method WritePacket(packet: Packet, ghost owner: Owner) returns (ok: bool, ghost o: Outcome)
      requires Valid() && (owner.Stream? ==> owner.i < created)
      modifies conn, this`link, this`chunks
      ensures Valid() && ok == (o == Sent) && o == OutcomeOf(old(link), packet, old(conn.room))
      ensures CanEmit(old(link), o) && link == Emit(old(link), owner, packet, o)
    {
      o := OutcomeOf(link, packet, conn.room);
      if closed {
        ok := false;
        return;
      }
      ghost var before, room := conn.written, conn.room;
      ok := Adbwire.WritePacket(conn, packet);
      if o == Refused {
        assert before + Encode(packet)[..0] == before;
      } else {
        ghost var chunk := if o == Sent then Encode(packet) else Encode(packet)[..room];
        RecordSnoc(link, chunks, created, owner, packet, o, chunk);
        ConcatSnoc(chunks, chunk);
        chunks := chunks + [chunk];
        link := Emit(link, owner, packet, o);
      }
    }

    /** Nothing more can be written. */
    ghost predicate CutOff()
      reads this
    {
      link.closed || link.broken
    }

    method Close()
      requires Valid()
      modifies this`closed, this`link
      ensures Valid() && closed && link == old(link).(closed := true)
    {
      closed := true;
      link := link.(closed := true);
    }

    /** A stream is created: the next number is its own, and nothing was written under it. */
    ghost method Enrol() returns (i: nat)
      requires Valid()
      modifies this`created
      ensures Valid() && i == old(created) && created == i + 1 && Own(link.out, Stream(i)) == []
    {
      i := created;
      NothingFrom(link, chunks, created);
      RecordGrows(link, chunks, created);
      created := created + 1;
    }

    /** Decoding the connection at any moment gives exactly the packets the record calls whole. */
    lemma ClientReadsRecord()
      requires Valid() && forall k :: 0 <= k < |link.out| ==> |link.out[k].packet.payload| <= MAX_PAYLOAD_SIZE
      ensures DecodeAll(conn.written).0 == Whole(link.out)
    {
      DecodesToWhole(link, chunks, created);
    }
  }

  lemma RecordSnoc(link: Link, chunks: seq<seq<byte>>, n: nat, owner: Owner, packet: Packet, o: Outcome,
                   chunk: seq<byte>)
    requires RecordOk(link, chunks, n) && !link.broken && o != Refused && (owner.Stream? ==> owner.i < n)
    requires ChunkOk(Emission(owner, packet, o == Sent), chunk)
    ensures RecordOk(Emit(link, owner, packet, o), chunks + [chunk], n)
  {
    var after, longer := Emit(link, owner, packet, o), chunks + [chunk];
    forall k | 0 <= k < |longer|
      ensures ChunkOk(after.out[k], longer[k]) && (after.out[k].whole || (after.broken && k == |longer| - 1))
      ensures after.out[k].owner.Stream? ==> after.out[k].owner.i < n
    {
      assert k < |chunks| ==> longer[k] == chunks[k] && after.out[k] == link.out[k];
    }
  }

  lemma {:induction false} AllWhole(out: seq<Emission>)
    requires forall k :: 0 <= k < |out| ==> out[k].whole
    ensures |Whole(out)| == |out| && forall k :: 0 <= k < |out| ==> Whole(out)[k] == out[k].packet
  {
    if out != [] {
      AllWhole(out[..|out| - 1]);
    }
  }

  lemma {:induction false} ConcatEncoded(ps: seq<Packet>, chunks: seq<seq<byte>>)
    requires |ps| == |chunks| && forall k :: 0 <= k < |chunks| ==> chunks[k] == Encode(ps[k])
    ensures Concat(chunks) == EncodeAll(ps)
  {
    if ps != [] {
      var last := |ps| - 1;
      ConcatEncoded(ps[..last], chunks[..last]);
      assert ps == ps[..last] + [ps[last]] && chunks == chunks[..last] + [chunks[last]];
      EncodeAllSnoc(ps[..last], ps[last]);
      ConcatSnoc(chunks[..last], chunks[last]);
    }
  }

  /** The bytes of emissions that were all whole are their packets, one after the other. */
  lemma WholeChunks(link: Link, chunks: seq<seq<byte>>, n: nat, m: nat)
    requires RecordOk(link, chunks, n) && m <= |chunks| && (m < |chunks| || m == 0 || link.out[m - 1].whole)
    ensures Concat(chunks[..m]) == EncodeAll(Whole(link.out[..m])) && |Whole(link.out[..m])| == m
    ensures forall k :: 0 <= k < m ==> Whole(link.out[..m])[k] == link.out[k].packet
  {
    var out := link.out[..m];
    forall k | 0 <= k < m ensures out[k].whole && chunks[k] == Encode(out[k].packet) {
      assert ChunkOk(link.out[k], chunks[k]);
    }
    AllWhole(out);
    ConcatEncoded(Whole(out), chunks[..m]);
  }

  lemma CutDecodesToNothing(e: Emission, cut: seq<byte>)
    requires ChunkOk(e, cut) && !e.whole && |e.packet.payload| <= MAX_PAYLOAD_SIZE
    ensures DecodeAll(cut).0 == []
  {
    assert cut == Encode(e.packet)[..|cut|];
    DecodeCut(e.packet, |cut|, Eof);
  }

  /** A cut packet comes last, and the client gets the ones before it. */
  lemma CutIsLast(out: seq<Emission>, chunks: seq<seq<byte>>)
    requires |out| == |chunks| && out != [] && !out[|out| - 1].whole
    ensures Whole(out) == Whole(out[..|out| - 1]) && Concat(chunks) == Concat(chunks[..|out| - 1]) + chunks[|out| - 1]
  {
  }

  lemma DecodesPart(link: Link, chunks: seq<seq<byte>>, n: nat, m: nat, tail: seq<byte>)
    requires RecordOk(link, chunks, n)
    requires forall k :: 0 <= k < |link.out| ==> |link.out[k].packet.payload| <= MAX_PAYLOAD_SIZE
    requires m <= |chunks| && (m < |chunks| || m == 0 || link.out[m - 1].whole) && DecodeAll(tail).0 == []
    ensures DecodeAll(Concat(chunks[..m]) + tail).0 == Whole(link.out[..m])
  {
    WholeChunks(link, chunks, n, m);
    DecodesTo(Whole(link.out[..m]), tail);
  }

  lemma DecodesToWhole(link: Link, chunks: seq<seq<byte>>, n: nat)
    requires RecordOk(link, chunks, n)
    requires forall k :: 0 <= k < |link.out| ==> |link.out[k].packet.payload| <= MAX_PAYLOAD_SIZE
    ensures DecodeAll(Concat(chunks)).0 == Whole(link.out)
  {
    if link.out == [] || link.out[|link.out| - 1].whole {
      DecodesUncut(link, chunks, n);
    } else {
      DecodesCut(link, chunks, n);
    }
  }

  lemma DecodesUncut(link: Link, chunks: seq<seq<byte>>, n: nat)
    requires RecordOk(link, chunks, n) && (link.out == [] || link.out[|link.out| - 1].whole)
    requires forall k :: 0 <= k < |link.out| ==> |link.out[k].packet.payload| <= MAX_PAYLOAD_SIZE
    ensures DecodeAll(Concat(chunks)).0 == Whole(link.out)
  {
    var out, m, none := link.out, |chunks|, [];
    DecodesPart(link, chunks, n, m, none);
    assert out[..m] == out && chunks[..m] == chunks && Concat(chunks) + none == Concat(chunks);
  }

  lemma DecodesCut(link: Link, chunks: seq<seq<byte>>, n: nat)
    requires RecordOk(link, chunks, n) && link.out != [] && !link.out[|link.out| - 1].whole
    requires forall k :: 0 <= k < |link.out| ==> |link.out[k].packet.payload| <= MAX_PAYLOAD_SIZE
    ensures DecodeAll(Concat(chunks)).0 == Whole(link.out)
  {
    var out, last := link.out, |chunks| - 1;
    CutIsLast(out, chunks);
    assert ChunkOk(out[last], chunks[last]);
    CutDecodesToNothing(out[last], chunks[last]);
    DecodesPart(link, chunks, n, last, chunks[last]);
  }

  lemma DecodesTo(ps: seq<Packet>, tail: seq<byte>)
    requires (forall k :: 0 <= k < |ps| ==> |ps[k].payload| <= MAX_PAYLOAD_SIZE) && DecodeAll(tail).0 == []
    ensures DecodeAll(EncodeAll(ps) + tail).0 == ps
  {
    DecodeAllEncodeAll(ps, tail);
    assert ps + [] == ps;
  }
}
