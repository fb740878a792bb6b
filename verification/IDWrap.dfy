/** How long ack() can be trusted with an honest client: exactly until a local ID is given out a second time. */
module IDWrap {
  import opened Bytes
  import opened Adbwire
  import opened Emissions
  import opened Multiplexer
  import opened StreamInvariant
  import opened FlowControl
  import opened RequestsByID
  import opened HonestClient
  import opened LocalIDs

  const OKAY := Packet(CMD_OKAY, 7, 1, [])

  ghost predicate HonestlyReached(s: Session)
  {
    exists run :: HonestRun(run) && run[|run| - 1] == s
  }

  lemma Begin() returns (s: Session)
    ensures HonestlyReached(s) && s == Initial(true, [])
  {
    s := Initial(true, []);
    assert HonestRun([s]) && [s][|[s]| - 1] == s;
  }

  lemma Step(s: Session, a: Action) returns (t: Session)
    requires HonestlyReached(s) && Enabled(s, a) && Honest(s, a)
    ensures HonestlyReached(t) && t == Apply(s, a)
  {
    var run :| HonestRun(run) && run[|run| - 1] == s;
    t := Apply(s, a);
    var longer := run + [t];
    assert HonestNext(s, t);
    assert HonestRun(longer) && longer[|longer| - 1] == t;
  }

  /** A reverse listener has accepted n connections, and none of the streams has started. */
  ghost predicate Crowd(s: Session, n: nat)
  {
    && |s.svcs| == n && s.nextLocalID == IDOf(n) && s.table == map[] && Quiet(s) && s.link.out == [] &&
         s.client.sent == []
    && forall i :: 0 <= i < n ==> s.svcs[i] == NewSvc(Outbound, IDOf(i), 0, [])
  }

  /** The read loop waits, the connection is whole, and the client has received all that is on it. */
  ghost predicate Quiet(s: Session)
  {
    s.loop.Idle? && !s.link.closed && !s.link.broken && s.client.taken == 0 && s.client.seen == |s.link.out|
  }

  lemma {:induction false} Gather(n: nat) returns (s: Session)
    ensures HonestlyReached(s) && Crowd(s, n)
  {
    if n == 0 {
      s := Begin();
    } else {
      s := Gather(n - 1);
      NextIDCycles(n - 1);
      s := Step(s, Accept([]));
    }
  }

  /** Stream i writes its OPEN. */
  lemma Ask(s: Session, i: nat) returns (t: Session)
    requires HonestlyReached(s) && Quiet(s) && i < |s.svcs| && s.svcs[i] == NewSvc(Outbound, 1, 0, [])
    ensures HonestlyReached(t) && t.loop.Idle? && !t.link.closed && !t.link.broken && t.client == s.client
    ensures t.table == s.table[1 := i] && |t.svcs| == |s.svcs| && t.svcs == s.svcs[i := t.svcs[i]]
    ensures !t.svcs[i].token && t.svcs[i].log.dropped == 0
    ensures t.link.out == s.link.out + [Emission(Stream(i), Packet(CMD_OPEN, 1, 0, [0]), true)]
  {
    t := Step(s, Register(i));
    t := Step(t, Internal(i, Go));
    assert [] + [0] == [0];
    t := Step(t, Say(i, Sent));
  }

  /** And the client, which receives it, says OKAY. */
  lemma AskAndAnswer(s: Session, i: nat) returns (t: Session)
    requires HonestlyReached(s) && Quiet(s) && i < |s.svcs| && s.svcs[i] == NewSvc(Outbound, 1, 0, [])
    requires OkaysTo(s.client.sent, 1) == |Asked(s.link.out, 1)|
    ensures HonestlyReached(t) && Quiet(t) && t.client.sent == s.client.sent + [OKAY]
    ensures t.table == s.table[1 := i] && |t.svcs| == |s.svcs| && t.svcs == s.svcs[i := t.svcs[i]]
    ensures !t.svcs[i].token && t.svcs[i].log.dropped == 0
    ensures OkaysTo(t.client.sent, 1) == |Asked(t.link.out, 1)|
  {
    t := Ask(s, i);
    AskedSnoc(s.link.out, t.link.out[|s.link.out|], 1);
    OkaysSnoc(s.client.sent, OKAY, 1);
    t := Step(t, ClientSee);
    assert t.link.out[..t.client.seen] == t.link.out;
    t := Step(t, ClientSend(OKAY));
  }

  /** The read loop hands an OKAY to the stream that ID 1 stands for by now. */
  lemma HandOkay(s: Session, i: nat) returns (t: Session)
    requires HonestlyReached(s) && s.loop.Idle? && s.client.taken < |s.client.sent|
    requires s.client.sent[s.client.taken] == OKAY
    requires i < |s.svcs| && InMap(s, i, 1)
    ensures HonestlyReached(t) && t.loop.Idle? && t.client == s.client.(taken := s.client.taken + 1)
    ensures t.table == s.table
    ensures t.svcs == s.svcs[i := AckToken(AckMark(AckCas(s.svcs[i], 7)))]
  {
    t := Step(s, Take(None));
    t := Step(t, LoopStep);
    t := Step(t, LoopStep);
    t := Step(t, LoopStep);
  }

  /**
   The stream after a full cycle takes the first one's ID, and with it the first one's OKAY; its own is thrown away.
   */
  lemma DropAfterWrap() returns (s: Session)
    ensures HonestlyReached(s) && |s.svcs| == CYCLE + 1 && s.svcs[CYCLE].log.dropped == 1
  {
    s := Gather(CYCLE + 1);
    assert IDOf(0) == 1 && IDOf(CYCLE) == 1;
    s := AskAndAnswer(s, 0);
    s := AskAndAnswer(s, CYCLE);
    s := HandOkay(s, CYCLE);
    s := HandOkay(s, CYCLE);
  }

  lemma HonestRunIsRun(run: seq<Session>)
    requires HonestRun(run)
    ensures Run(run)
  {
    forall j, k {:trigger Next(run[j], run[k])} | 0 <= j && k == j + 1 < |run| ensures Next(run[j], run[k]) {
      var a := HonestStepOf(run, k);
    }
  }

  lemma FewDropNothing(run: seq<Session>, k: nat)
    requires HonestRun(run) && k < |run| && |run[k].svcs| <= CYCLE
    ensures NoDrops(run[k])
  {
    HonestRunIsRun(run);
    DistinctUntilWrap(run, k);
    DistinctDropNothing(run, k);
  }

  lemma NoDropsBeforeWrap(s: Session)
    requires HonestlyReached(s) && |s.svcs| <= CYCLE
    ensures NoDrops(s)
  {
    var run :| HonestRun(run) && run[|run| - 1] == s;
    FewDropNothing(run, |run| - 1);
  }

  /**
   * No token is dropped in any run with an honest client and at most n streams, if and only if n streams can all have
   * IDs of their own.
   */
  lemma NoDropsUntilWrap(n: nat)
    ensures (forall s :: HonestlyReached(s) && |s.svcs| <= n ==> NoDrops(s)) <==> n <= CYCLE
  {
    if n <= CYCLE {
      forall s | HonestlyReached(s) && |s.svcs| <= n ensures NoDrops(s) {
        NoDropsBeforeWrap(s);
      }
    } else {
      var s := DropAfterWrap();
      assert !NoDrops(s);
    }
  }
}
