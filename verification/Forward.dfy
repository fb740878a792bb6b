/** Forwarding to a device socket through temporary fport rules (src/internal/hdcserver/forward.go). */
module Forward {
  import opened Bytes
  import opened Streams

  const FORWARD_SETUP_RETRIES := 16
  const FORWARD_PORT_MIN := 40000
  const FORWARD_PORT_MAX := 60000

  datatype Rule = Rule(port: nat, remoteNode: string)

  datatype Setup = SetUp | PortTaken | Refused

  /** What was asked of the HDC server and of the network to it, with what it answered. */
  datatype Event =
    | Added(rule: Rule)
    | Denied(rule: Rule, answer: Setup)
    | Dialed(port: nat, device: Option<seq<byte>>)  // the bytes the device will send, if someone answers
    | Removed(rule: Rule)

  /** The HDC server, and the network to it; both may answer as they like. */
  class HdcServer {
    ghost var log: seq<Event>

    method Fport(rule: Rule) returns (result: Setup)
      modifies this
      ensures log == old(log) + [if result.SetUp? then Added(rule) else Denied(rule, result)]
    {
      result := *;
      log := log + [if result.SetUp? then Added(rule) else Denied(rule, result)];
    }

    /** Its failures are ignored. */
    method FportRm(rule: Rule)
      modifies this
      ensures log == old(log) + [Removed(rule)]
    {
      log := log + [Removed(rule)];
    }

    method Dial(port: nat) returns (conn: Option<ByteReader>)
      modifies this
      ensures conn.Some? ==> fresh(conn.value) && log == old(log) + [Dialed(port, Some(conn.value.data))]
      ensures conn.None? ==> log == old(log) + [Dialed(port, None)]
    {
      var ok: bool, data: seq<byte>, end: IoError := *, *, *;
      if ok {
        var reader := new ByteReader(data, end);
        conn := Some(reader);
        log := log + [Dialed(port, Some(data))];
      } else {
        conn := None;
        log := log + [Dialed(port, None)];
      }
    }
  }

  /** A connection, behind the byte a probe may have read from it. */
  class PrefixConn {
    const conn: ByteReader
    var prefix: seq<byte>

    constructor (conn: ByteReader, prefix: seq<byte>)
      ensures this.conn == conn && this.prefix == prefix
    {
      this.conn, this.prefix := conn, prefix;
    }

    /** What its reader is still to be given. */
    function Pending(): seq<byte>
      reads this, conn
    {
      prefix + conn.data
    }

    /** The device's bytes in order, the probed one first; the end only when there are none left. */
    method Read(p: array<byte>) returns (n: nat, err: Option<IoError>)
      requires p.Length > 0
      modifies this`prefix, conn`data, p
      ensures n <= p.Length && old(Pending()) == p[..n] + Pending()
      ensures err == if old(Pending()) == [] then Some(conn.end) else None
      ensures n == 0 <==> old(Pending()) == []
    {
      if |prefix| > 0 {
        n := if |prefix| < p.Length then |prefix| else p.Length;
        ghost var had := prefix;
        forall i | 0 <= i < n { p[i] := prefix[i]; }
        prefix := prefix[n..];
        assert had == p[..n] + prefix;
        Assoc(p[..n], prefix, conn.data);
        return n, None;
      }
      n, err := conn.Read(p);
      assert old(conn.data) == p[..n] + conn.data;
    }
  }

  /**
   A connection that is closed by the far end at once is refused, and no other; a byte read in finding out is kept.
   A quiet one has done nothing when the time for finding out is over.
   */
  method EnsureForwardAlive(conn: ByteReader, quiet: bool) returns (live: Option<PrefixConn>)
    modifies conn`data
    ensures live.Some? ==> fresh(live.value) && live.value.conn == conn && live.value.Pending() == old(conn.data)
    ensures live.None? <==> !quiet && old(conn.data) == []
  {
    if quiet {
      var unread := new PrefixConn(conn, []);
      return Some(unread);
    }
    var buf := new byte[1];
    var n, err := conn.Read(buf);
    if n == 0 {
      return None;
    }
    assert old(conn.data) == buf[..n] + conn.data;
    var probed := new PrefixConn(conn, buf[..n]);
    return Some(probed);
  }

  class ForwardConn {
    const conn: PrefixConn
    const server: HdcServer
    const rule: Rule
    var cleaned: bool  // cleanupOnce

    constructor (conn: PrefixConn, server: HdcServer, rule: Rule)
      ensures this.conn == conn && this.server == server && this.rule == rule && !cleaned
    {
      this.conn, this.server, this.rule, cleaned := conn, server, rule, false;
    }

    method Close()
      modifies this`cleaned, server
      ensures cleaned && server.log == if old(cleaned) then old(server.log) else old(server.log) + [Removed(rule)]
    {
      if !cleaned {
        cleaned := true;
        server.FportRm(rule);
      }
    }
  }

  function RandomForwardPort(word: uint32): (port: nat)
    ensures FORWARD_PORT_MIN <= port <= FORWARD_PORT_MAX
  {
    FORWARD_PORT_MIN + word % (FORWARD_PORT_MAX - FORWARD_PORT_MIN + 1)
  }

  /** How one attempt can go: the first two are followed by another, the others are the last. */
  datatype Attempt =
    | Busy(rule: Rule)
    | Unreachable(rule: Rule)
    | Rejected(rule: Rule)
    | Dead(rule: Rule)
    | Open(rule: Rule, device: seq<byte>)

  predicate Retried(a: Attempt)
  {
    a.Busy? || a.Unreachable?
  }

  /** What is asked and answered in an attempt: every rule set up is dialed, and removed unless the dial is kept. */
  function Story(a: Attempt): seq<Event>
  {
    match a
    case Busy(rule) => [Denied(rule, PortTaken)]
    case Unreachable(rule) => [Added(rule), Dialed(rule.port, None), Removed(rule)]
    case Rejected(rule) => [Denied(rule, Refused)]
    case Dead(rule) => [Added(rule), Dialed(rule.port, Some([])), Removed(rule)]
    case Open(rule, device) => [Added(rule), Dialed(rule.port, Some(device))]
  }

  function Stories(attempts: seq<Attempt>): seq<Event>
  {
    if attempts == [] then []
    else Stories(attempts[..|attempts| - 1]) + Story(attempts[|attempts| - 1])
  }

  lemma StoriesSnoc(before: seq<Event>, attempts: seq<Attempt>, a: Attempt)
    ensures before + Stories(attempts + [a]) == before + Stories(attempts) + Story(a)
  {
    assert (attempts + [a])[..|attempts|] == attempts;
  }

  /**
   The attempts made are those the answers call for: the k-th uses the k-th random word, each but the last is one to
   be followed, and after the last there is no reason to go on, or no attempt or word left to go on with.
   */
  predicate Called(attempts: seq<Attempt>, words: seq<uint32>, remoteNode: string, quiet: bool)
  {
    && |attempts| <= 16 && |attempts| <= |words|
    && (forall k :: 0 <= k < |attempts| ==> attempts[k].rule == Rule(40000 + words[k] % 20001, remoteNode))
    && (forall k :: 0 <= k < |attempts| - 1 ==> Retried(attempts[k]))
    && (attempts == [] || Retried(attempts[|attempts| - 1]) ==> |attempts| == 16 || |attempts| == |words|)
    && (attempts != [] && attempts[|attempts| - 1].Dead? ==> !quiet)
    && (attempts != [] && attempts[|attempts| - 1].Open? && attempts[|attempts| - 1].device == [] ==> quiet)
  }

  /** One attempt: conn is what it opened, again is whether another is to follow. */
  method TryForward(server: HdcServer, rule: Rule, quiet: bool)
    returns (conn: Option<ForwardConn>, again: bool, ghost a: Attempt)
    modifies server
    ensures server.log == old(server.log) + Story(a) && a.rule == rule
    ensures again == Retried(a) && (a.Dead? ==> !quiet) && (a.Open? && a.device == [] ==> quiet)
    ensures conn.Some? <==> a.Open?
    ensures conn.Some? ==> fresh(conn.value) && !conn.value.cleaned && conn.value.server == server
    ensures conn.Some? ==> conn.value.rule == rule && conn.value.conn.Pending() == a.device
  {
    var setup := server.Fport(rule);
    if setup.PortTaken? {
      return None, true, Busy(rule);
    } else if setup.Refused? {
      return None, false, Rejected(rule);
    }
    var dialed := server.Dial(rule.port);
    if dialed.None? {
      server.FportRm(rule);
      return None, true, Unreachable(rule);
    }
    a := Open(rule, dialed.value.data);
    var live := EnsureForwardAlive(dialed.value, quiet);
    if live.None? {
      server.FportRm(rule);
      return None, false, Dead(rule);
    }
    var forward := new ForwardConn(live.value, server, rule);
    return Some(forward), false, a;
  }

  /**
   At most sixteen attempts, each dialing the port of its own rule. It fails exactly when the last attempt was
   refused or dead, or when the attempts or the random words ran out. Every rule an unsuccessful attempt set up has
   been removed, once, before the next attempt; a returned connection leaves exactly its own rule, and gives the
   device's bytes from the first. The words are what the random source gives before it fails.
   */
  method OpenForward(server: HdcServer, remoteNode: string, words: seq<uint32>, quiet: bool)
    returns (conn: Option<ForwardConn>, ghost attempts: seq<Attempt>)
    modifies server
    ensures server.log == old(server.log) + Stories(attempts) && Called(attempts, words, remoteNode, quiet)
    ensures conn.Some? <==> attempts != [] && attempts[|attempts| - 1].Open?
    ensures conn.Some? ==> fresh(conn.value) && !conn.value.cleaned && conn.value.server == server
    ensures conn.Some? ==> conn.value.rule == attempts[|attempts| - 1].rule &&
                           conn.value.conn.Pending() == attempts[|attempts| - 1].device
  {
    attempts := [];
    for attempt := 0 to FORWARD_SETUP_RETRIES
      invariant |attempts| == attempt <= |words| && server.log == old(server.log) + Stories(attempts)
      invariant forall k :: 0 <= k < attempt ==>
                              Retried(attempts[k]) && attempts[k].rule == Rule(40000 + words[k] % 20001, remoteNode)
    {
      if attempt == |words| {
        return None, attempts;
      }
      var rule := Rule(RandomForwardPort(words[attempt]), remoteNode);
      var again: bool;
      ghost var a;
      conn, again, a := TryForward(server, rule, quiet);
      StoriesSnoc(old(server.log), attempts, a);
      attempts := attempts + [a];
      if !again {
        return conn, attempts;
      }
    }
    return None, attempts;
  }

  // ---- Conservation

  /** The rules in force: those set up less those removed. */
  function Outstanding(log: seq<Event>): multiset<Rule>
  {
    if log == [] then multiset{}
    else
      var before := Outstanding(log[..|log| - 1]);
      match log[|log| - 1]
      case Added(rule) => before + multiset{rule}
      case Removed(rule) => before - multiset{rule}
      case _ => before
  }

  lemma OutstandingSnoc(log: seq<Event>, e: Event)
    ensures Outstanding(log + [e]) ==
            if e.Added? then Outstanding(log) + multiset{e.rule}
            else if e.Removed? then Outstanding(log) - multiset{e.rule}
            else Outstanding(log)
  {
    assert (log + [e])[..|log|] == log;
  }

  lemma Grouped(log: seq<Event>, a: Event, b: Event, c: Event)
    ensures log + [a, b] == log + [a] + [b]
    ensures log + [a, b, c] == log + [a] + [b] + [c]
  {
  }

  lemma SetUpAndDialed(log: seq<Event>, rule: Rule, e: Event)
    requires e.Dialed?
    ensures Outstanding(log + [Added(rule), e]) == Outstanding(log) + multiset{rule}
    ensures Outstanding(log + [Added(rule), e, Removed(rule)]) == Outstanding(log)
  {
    Grouped(log, Added(rule), e, Removed(rule));
    OutstandingSnoc(log, Added(rule));
    OutstandingSnoc(log + [Added(rule)], e);
    OutstandingSnoc(log + [Added(rule)] + [e], Removed(rule));
  }

  lemma StoryLeaves(log: seq<Event>, a: Attempt)
    ensures Outstanding(log + Story(a)) == Outstanding(log) + if a.Open? then multiset{a.rule} else multiset{}
  {
    if a.Busy? || a.Rejected? {
      OutstandingSnoc(log, Story(a)[0]);
    } else {
      var dialed := Story(a)[1];
      SetUpAndDialed(log, a.rule, dialed);
      assert Story(a) == if a.Open? then [Added(a.rule), dialed] else [Added(a.rule), dialed, Removed(a.rule)];
    }
  }

  lemma StoriesLast(before: seq<Event>, attempts: seq<Attempt>)
    requires attempts != []
    ensures before + Stories(attempts) ==
            before + Stories(attempts[..|attempts| - 1]) + Story(attempts[|attempts| - 1])
  {
  }

  /** Attempts that did not open leave the rules in force as they were. */
  lemma {:induction false} UndoneLeavesNothing(log: seq<Event>, attempts: seq<Attempt>)
    requires forall k :: 0 <= k < |attempts| ==> !attempts[k].Open?
    ensures Outstanding(log + Stories(attempts)) == Outstanding(log)
  {
    if attempts == [] {
      assert log + [] == log;
    } else {
      UndoneLeavesNothing(log, attempts[..|attempts| - 1]);
      StoriesLast(log, attempts);
      StoryLeaves(log + Stories(attempts[..|attempts| - 1]), attempts[|attempts| - 1]);
    }
  }

  /** An opened and then closed forward, closed any number of times, leaves no rule behind, and removes no other. */
  method OpenAndClose(server: HdcServer, remoteNode: string, words: seq<uint32>, quiet: bool, closes: nat)
    returns (conn: Option<ForwardConn>)
    modifies server
    ensures conn.None? || closes > 0 ==> Outstanding(server.log) == Outstanding(old(server.log))
    ensures conn.Some? && closes == 0 ==>
              Outstanding(server.log) == Outstanding(old(server.log)) + multiset{conn.value.rule}
  {
    ghost var attempts;
    conn, attempts := OpenForward(server, remoteNode, words, quiet);
    if conn.None? {
      UndoneLeavesNothing(old(server.log), attempts);
      return;
    }
    ghost var undone := attempts[..|attempts| - 1];
    UndoneLeavesNothing(old(server.log), undone);
    StoriesLast(old(server.log), attempts);
    StoryLeaves(old(server.log) + Stories(undone), attempts[|attempts| - 1]);
    var forward := conn.value;
    ghost var before := server.log;
    OutstandingSnoc(before, Removed(forward.rule));
    for k := 0 to closes
      invariant forward.cleaned == (k > 0) &&
                  server.log == if k == 0 then before else before + [Removed(forward.rule)]
    {
      forward.Close();
    }
  }
}
