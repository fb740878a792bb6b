/**
 The in-process connection between the sync server and its client (src/internal/hdcserver/sync.go): two ends over
 two bounded channels of chunks.
 */
module BufferedPipe {
  import opened Bytes

  const CAPACITY := 1024

  lemma ConcatTail(chunks: seq<seq<byte>>)
    requires chunks != []
    ensures Concat(chunks) == chunks[0] + Concat(chunks[1..])
  {
    assert chunks == [chunks[0]] + chunks[1..];
    ConcatAppend([chunks[0]], chunks[1..]);
    assert [chunks[0]] == [] + [chunks[0]];
    ConcatSnoc([], chunks[0]);
  }

  /** A Go channel of chunks, with what went into it and what came out of it so far. */
  class Channel {
    var items: seq<seq<byte>>
    var isClosed: bool
    ghost var sent: seq<byte>
    ghost var taken: seq<byte>

    ghost predicate Valid()
      reads this
    {
      |items| <= CAPACITY && taken + Concat(items) == sent
    }

    constructor ()
      ensures Valid() && items == [] && !isClosed && sent == [] && taken == []
    {
      items, isClosed, sent, taken := [], false, [], [];
    }

    method Send(chunk: seq<byte>)
      requires Valid() && !isClosed && |items| < CAPACITY
      modifies this`items, this`sent
      ensures Valid() && items == old(items) + [chunk] && sent == old(sent) + chunk
    {
      ConcatSnoc(items, chunk);
      Assoc(taken, Concat(items), chunk);
      items, sent := items + [chunk], sent + chunk;
    }

    method Receive() returns (chunk: seq<byte>)
      requires Valid() && items != []
      modifies this`items, this`taken
      ensures Valid() && chunk == old(items)[0] && items == old(items)[1..] && taken == old(taken) + chunk
    {
      ConcatTail(items);
      chunk := items[0];
      Assoc(taken, chunk, Concat(items[1..]));
      items, taken := items[1..], taken + chunk;
    }
  }

  datatype Outcome = Moved(n: nat) | Eof | ErrClosed | Blocked

  class Conn {
    const readCh: Channel
    const writeCh: Channel
    var readBuf: seq<byte>
    var closed: bool
    ghost var received: seq<byte>  // what its Reads have returned

    /** What was received, the rest of the chunk at hand and the queued chunks are what the peer has written. */
    ghost predicate Valid()
      reads this, readCh, writeCh
    {
      && readCh != writeCh && readCh.Valid() && writeCh.Valid()
      && received + readBuf == readCh.taken && closed == writeCh.isClosed
    }

    constructor (readCh: Channel, writeCh: Channel)
      requires readCh != writeCh && readCh.Valid() && writeCh.Valid() && readCh.taken == [] && !writeCh.isClosed
      ensures this.readCh == readCh && this.writeCh == writeCh && Valid() && readBuf == [] && received == []
    {
      this.readCh, this.writeCh := readCh, writeCh;
      readBuf, closed, received := [], false, [];
    }

    /** Takes the next chunk into readBuf; if this end is closed as well, select may notice that instead. */
    method Refill() returns (outcome: Outcome)
      requires Valid() && readBuf == []
      modifies this`readBuf, readCh`items, readCh`taken
      ensures Valid() && received == old(received) && readCh.sent == old(readCh.sent)
      ensures outcome.Moved? ==> |readCh.items| < |old(readCh.items)|
      ensures outcome.Eof? ==> readCh.isClosed && readCh.items == [] && readBuf == []
      ensures outcome.ErrClosed? ==> closed && readBuf == []
      ensures outcome.Blocked? ==> readCh.items == [] && readBuf == [] && !readCh.isClosed && !closed
    {
      var seesClose: bool := *;
      if closed && (seesClose || (readCh.items == [] && !readCh.isClosed)) {
        return ErrClosed;
      }
      if readCh.items != [] {
        readBuf := readCh.Receive();
        assert received + [] == received;
        return Moved(|readBuf|);
      }
      return if readCh.isClosed then Eof else Blocked;
    }

    /**
     Delivers the written bytes in order and without loss, never an empty chunk of them, and reports the end only
     when the peer has closed and every byte it wrote has been delivered.
     */
    method Read(p: array<byte>) returns (outcome: Outcome)
      requires Valid() && p.Length > 0
      modifies this`readBuf, this`received, readCh`items, readCh`taken, p
      ensures Valid() && readCh.sent == old(readCh.sent)
      ensures outcome.Moved? ==> 0 < outcome.n <= p.Length && received == old(received) + p[..outcome.n]
      ensures !outcome.Moved? ==> received == old(received)
      ensures outcome.Eof? ==> readCh.isClosed && received == readCh.sent
      ensures outcome.Blocked? ==> !readCh.isClosed && received == readCh.sent
      ensures outcome.ErrClosed? ==> closed
    {
      while |readBuf| == 0
        invariant Valid() && received == old(received) && readCh.sent == old(readCh.sent)
        decreases if |readBuf| == 0 then 1 else 0, |readCh.items|
      {
        outcome := Refill();
        if !outcome.Moved? {
          assert received + [] == received;
          return;
        }
      }
      var n := if |readBuf| < p.Length then |readBuf| else p.Length;
      forall i | 0 <= i < n { p[i] := readBuf[i]; }
      assert readBuf == p[..n] + readBuf[n..];
      Assoc(received, p[..n], readBuf[n..]);
      readBuf, received := readBuf[n..], received + p[..n];
      outcome := Moved(n);
    }

    /** All of p or nothing; nothing once this end is closed. */
    method Write(p: seq<byte>) returns (outcome: Outcome)
      requires Valid()
      modifies writeCh`items, writeCh`sent
      ensures Valid()
      ensures outcome == if closed then ErrClosed else if |old(writeCh.items)| < CAPACITY then Moved(|p|) else Blocked
      ensures writeCh.sent == if outcome.Moved? then old(writeCh.sent) + p else old(writeCh.sent)
    {
      if writeCh.isClosed {
        return ErrClosed;
      }
      if |writeCh.items| == CAPACITY {
        return Blocked;
      }
      writeCh.Send(p);
      outcome := Moved(|p|);
    }

    /** Once only; what is queued stays readable for the peer. */
    method Close()
      requires Valid()
      modifies this`closed, writeCh`isClosed
      ensures Valid() && closed
    {
      if !closed {
        closed := true;
        writeCh.isClosed := true;
      }
    }
  }

  /** In every run of the two ends, each has received, in order, a prefix of what the other has written. */
  method AnyRun(client: Conn, server: Conn, steps: nat)
    requires client != server && client.Valid() && server.Valid()
    requires client.readCh == server.writeCh && client.writeCh == server.readCh
    modifies client`readBuf, client`closed, client`received, server`readBuf, server`closed, server`received
    modifies client.readCh, client.writeCh
    ensures client.Valid() && server.Valid()
    ensures client.received <= server.writeCh.sent && server.received <= client.writeCh.sent
  {
    for i := 0 to steps
      invariant client.Valid() && server.Valid()
    {
      var p: seq<byte>, size: nat, end: bool, op: nat := *, *, *, *;
      var buf := new byte[size + 1];
      var conn := if end then client else server;
      if op == 0 {
        var _ := conn.Read(buf);
      } else if op == 1 {
        var _ := conn.Write(p);
      } else {
        conn.Close();
      }
    }
    Assoc(client.received, client.readBuf, Concat(client.readCh.items));
    Assoc(server.received, server.readBuf, Concat(server.readCh.items));
  }

  method NewBufferedPipe() returns (client: Conn, server: Conn)
    ensures fresh(client) && fresh(server) && client.Valid() && server.Valid()
    ensures client.readCh == server.writeCh && client.writeCh == server.readCh && client != server
  {
    var clientToServer := new Channel();
    var serverToClient := new Channel();
    client := new Conn(serverToClient, clientToServer);
    server := new Conn(clientToServer, serverToClient);
  }
}
