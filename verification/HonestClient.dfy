/** Tokens with a client that answers each OPEN and WRTE it receives at most once: ack() never drops one. */
module HonestClient {
  import opened Bytes
  import opened Adbwire
  import opened Emissions
  import opened Multiplexer
  import opened StreamInvariant
  import opened FlowControl
  import opened RequestsByID

  lemma {:induction false} AskedPrefix(out: seq<Emission>, n: nat, id: uint32)
    requires n <= |out|
    ensures |Asked(out[..n], id)| <= |Asked(out, id)|
  {
    if n < |out| {
      AskedPrefix(out[..|out| - 1], n, id);
      assert out[..|out| - 1][..n] == out[..n];
    } else {
      assert out[..n] == out;
    }
  }

  /** The client says OKAY to a stream only for an OPEN or WRTE of it that it has received and not yet answered. */
  predicate Honest(s: Session, a: Action)
  {
    a.ClientSend? && a.packet.command == CMD_OKAY && s.client.seen <= |s.link.out| ==>
      OkaysTo(s.client.sent, a.packet.arg1) < |Asked(s.link.out[..s.client.seen], a.packet.arg1)|
  }

  ghost predicate HonestNext(s: Session, t: Session)
  {
    exists a :: Enabled(s, a) && Honest(s, a) && t == Apply(s, a)
  }

  ghost predicate HonestRun(run: seq<Session>)
  {
    && run != [] && run[0] == Initial(run[0].shake.authNone, run[0].shake.deviceID)
    && forall j, k {:trigger HonestNext(run[j], run[k])} :: 0 <= j && k == j + 1 < |run| ==> HonestNext(run[j], run[k])
  }

  lemma HonestStepOf(run: seq<Session>, k: nat) returns (a: Action)
    requires HonestRun(run) && 0 < k < |run|
    ensures Enabled(run[k - 1], a) && Honest(run[k - 1], a) && run[k] == Apply(run[k - 1], a)
  {
    assert HonestNext(run[k - 1], run[k]);
    a :| Enabled(run[k - 1], a) && Honest(run[k - 1], a) && run[k] == Apply(run[k - 1], a);
  }

  predicate InMap(s: Session, i: nat, id: uint32)
  {
    id in s.table && s.table[id] == i
  }

  /** The client has not answered more than it received. */
  ghost predicate NotOveranswered(s: Session)
  {
    s.client.seen <= |s.link.out| && forall id :: OkaysTo(s.client.sent, id) <= |Asked(s.link.out[..s.client.seen], id)|
  }

  /** A registered stream has been handed every OKAY the read loop has taken for it. */
  ghost predicate AllHanded(s: Session)
  {
    && s.client.taken <= |s.client.sent|
    && forall i :: 0 <= i < |s.svcs| && InMap(s, i, s.svcs[i].localID) ==> Handed(s, i)
  }

  predicate Handed(s: Session, i: nat)
  {
    && i < |s.svcs| && s.client.taken <= |s.client.sent|
    && s.svcs[i].log.acks + Bit(AckUnderWay(s, i)) == OkaysTo(s.client.sent[..s.client.taken], s.svcs[i].localID)
  }

  lemma StepKeepsNotOveranswered(s: Session, a: Action)
    requires NotOveranswered(s) && Enabled(s, a) && Honest(s, a)
    ensures NotOveranswered(Apply(s, a))
  {
    var t := Apply(s, a);
    ClientOnly(s, a);
    forall id ensures OkaysTo(t.client.sent, id) <= |Asked(t.link.out[..t.client.seen], id)| {
      match a {
        case ClientSend(p) => OkaysSnoc(s.client.sent, p, id);
        case ClientSee =>
          assert t.link.out[..t.client.seen] == s.link.out[..s.client.seen] + [s.link.out[s.client.seen]];
          AskedSnoc(s.link.out[..s.client.seen], s.link.out[s.client.seen], id);
        case _ =>
          assert t.link.out[..t.client.seen] == s.link.out[..s.client.seen];
      }
    }
  }

  /** Only the client's own actions change what it has sent and received; the connection only grows. */
  lemma ClientOnly(s: Session, a: Action)
    requires Enabled(s, a)
    ensures var t := Apply(s, a);
            && s.link.out <= t.link.out
            && match a
               case ClientSend(p) => t.client.sent == s.client.sent + [p] && t.client.seen == s.client.seen
               case ClientSee => t.client.sent == s.client.sent && t.client.seen == s.client.seen + 1 &&
                 t.link.out == s.link.out
               case _ => t.client.sent == s.client.sent && t.client.seen == s.client.seen
  {
  }

  /** What puts a stream into the map, and what takes it out. */
  lemma MapStep(s: Session, a: Action, i: nat)
    requires MapOk(s) && Enabled(s, a) && i < |s.svcs| && InMap(Apply(s, a), i, s.svcs[i].localID)
    ensures InMap(s, i, s.svcs[i].localID) || (Registers(s, a) && Effect(s, a).i == i)
  {
    if Settled(s, a) {
      SettledKeepsTable(s, a);
    }
  }

  lemma StepKeepsAllHanded(s: Session, a: Action)
    requires AllStreams(s) && MapOk(s) && Acknowledged(s) && AllHanded(s) && NotOveranswered(s) && AskedByOwner(s)
    requires Enabled(s, a) && DistinctIDs(Apply(s, a))
    ensures AllHanded(Apply(s, a))
  {
    var t := Apply(s, a);
    ActionOnLoop(s, a, 0);
    if Registers(s, a) {
      FreshUnacked(s, a, Effect(s, a).i);
    }
    forall i | 0 <= i < |t.svcs| && InMap(t, i, t.svcs[i].localID) ensures Handed(t, i) {
      InMapBefore(s, a, i);
      if !(Registers(s, a) && Effect(s, a).i == i) {
        OldHands(s, a, i);
      }
    }
  }

  lemma InMapBefore(s: Session, a: Action, i: nat)
    requires MapOk(s) && Enabled(s, a) && i < |Apply(s, a).svcs| && InMap(Apply(s, a), i, Apply(s, a).svcs[i].localID)
    ensures i < |s.svcs|
    ensures InMap(s, i, s.svcs[i].localID) || (Registers(s, a) && Effect(s, a).i == i)
  {
    StepKeepsMap(s, a);
    assert Mapped(Apply(s, a).svcs[i]);
    EffectIsAll(s, a);
    SameID(s, a, i);
    MapStep(s, a, i);
  }

  lemma OldHands(s: Session, a: Action, i: nat)
    requires MapOk(s) && AllHanded(s) && Enabled(s, a) && i < |s.svcs| && InMap(s, i, s.svcs[i].localID)
    requires !(Registers(s, a) && Effect(s, a).i == i)
    ensures Handed(Apply(s, a), i)
  {
    if a.Take? {
      TakeHands(s, a, i);
    } else {
      OtherHands(s, a, i);
    }
  }

  /** A stream is registered before the client can have said OKAY to it. */
  lemma FreshUnacked(s: Session, a: Action, i: nat)
    requires AllStreams(s) && Acknowledged(s) && NotOveranswered(s) && AskedByOwner(s)
    requires Enabled(s, a) && Registers(s, a) && Effect(s, a).i == i
    ensures Handed(Apply(s, a), i)
  {
    var v := s.svcs[i];
    EffectIsAll(s, a);
    EffectOnAcks(s, a);
    ActionOnLoop(s, a, i);
    assert SvcInv(v) && AcksOk(s, v, AckUnderWay(s, i));
    AskedPrefix(s.link.out, s.client.seen, v.localID);
    OkaysSplit(s.client.sent, s.client.taken, v.localID);
  }

  lemma TakeHands(s: Session, a: Action, i: nat)
    requires MapOk(s) && AllHanded(s) && Enabled(s, a) && a.Take?
    requires i < |s.svcs| && InMap(s, i, s.svcs[i].localID)
    ensures Handed(Apply(s, a), i)
  {
    var sent, n := s.client.sent, s.client.taken;
    EffectIsAll(s, a);
    ActionOnLoop(s, a, i);
    assert Handed(s, i);
    assert sent[..n + 1] == sent[..n] + [sent[n]];
    OkaysSnoc(sent[..n], sent[n], s.svcs[i].localID);
  }

  lemma OtherHands(s: Session, a: Action, i: nat)
    requires AllHanded(s) && Enabled(s, a) && !a.Take? && i < |s.svcs| && InMap(s, i, s.svcs[i].localID)
    requires !(Registers(s, a) && Effect(s, a).i == i)
    ensures Handed(Apply(s, a), i)
  {
    var t := Apply(s, a);
    EffectIsAll(s, a);
    ActionOnLoop(s, a, i);
    assert Handed(s, i);
    if Effect(s, a).Update? {
      EffectOnAcks(s, a);
    }
    assert t.client.sent[..t.client.taken] == s.client.sent[..s.client.taken];
  }

  ghost predicate NoDrops(s: Session)
  {
    forall i :: 0 <= i < |s.svcs| ==> s.svcs[i].log.dropped == 0
  }

  ghost predicate HonestInv(s: Session)
  {
    && AllStreams(s) && Tables(s) && Acknowledged(s)
    && (DistinctIDs(s) ==> NotOveranswered(s) && AskedByOwner(s) && AllHanded(s) && NoDrops(s))
  }

  lemma {:induction false} RunKeepsHonestInv(run: seq<Session>, k: nat)
    requires HonestRun(run) && k < |run|
    ensures HonestInv(run[k])
  {
    if k == 0 {
      FreshIsHonest(run[0].shake.authNone, run[0].shake.deviceID);
    } else {
      RunKeepsHonestInv(run, k - 1);
      var a := HonestStepOf(run, k);
      StepKeepsHonestInv(run[k - 1], a);
    }
  }

  lemma FreshIsHonest(authNone: bool, deviceID: seq<byte>)
    ensures HonestInv(Initial(authNone, deviceID))
  {
  }

  lemma StepKeepsHonestInv(s: Session, a: Action)
    requires HonestInv(s) && Enabled(s, a) && Honest(s, a)
    ensures HonestInv(Apply(s, a))
  {
    StepKeepsStreams(s, a);
    StepKeepsMap(s, a);
    StepKeepsBounds(s, a);
    StepKeepsAcknowledged(s, a);
    if DistinctIDs(Apply(s, a)) {
      DistinctBefore(s, a);
      StepKeepsNotOveranswered(s, a);
      StepKeepsAskedByOwner(s, a);
      StepKeepsAllHanded(s, a);
      StepKeepsNoDrops(s, a);
    }
  }

  /**
   * With a client that answers each OPEN and WRTE at most once, and no local ID given out twice, ack() never
   * drops a token; and as long as a registered stream has not begun to finish, it is waiting exactly when one
   * of these is on its way: a request of its own not yet answered, an OKAY not yet taken by the read loop, an
   * OKAY being handed over, or a token in ackCh.
   */
  lemma TokensAreConserved(run: seq<Session>, k: nat, i: nat)
    requires HonestRun(run) && k < |run| && i < |run[k].svcs| && DistinctIDs(run[k])
    ensures var s, v := run[k], run[k].svcs[i];
            var answered := OkaysTo(s.client.sent, v.localID);
            && v.log.dropped == 0
            && s.client.taken <= |s.client.sent| && answered <= |Asked(s.link.out, v.localID)|
            && (InMap(s, i, v.localID) && !Finishing(v.pc) ==>
                  Bit(v.pc.Waiting?) ==
                    (|Asked(s.link.out, v.localID)| - answered) + OkaysTo(s.client.sent[s.client.taken..], v.localID)
                    + Bit(AckUnderWay(s, i)) + Bit(v.token))
  {
    var s, v := run[k], run[k].svcs[i];
    RunKeepsHonestInv(run, k);
    assert SvcInv(v);
    AskedPrefix(s.link.out, s.client.seen, v.localID);
    OkaysSplit(s.client.sent, s.client.taken, v.localID);
  }

  lemma DistinctDropNothing(run: seq<Session>, k: nat)
    requires HonestRun(run) && k < |run| && DistinctIDs(run[k])
    ensures NoDrops(run[k])
  {
    RunKeepsHonestInv(run, k);
  }

  /** A token arriving while one is already in ackCh would be an answer to a request never made. */
  lemma StepKeepsNoDrops(s: Session, a: Action)
    requires AllStreams(s) && Acknowledged(s) && NotOveranswered(s) && AskedByOwner(s) && NoDrops(s) && Enabled(s, a)
    ensures NoDrops(Apply(s, a))
  {
    if a.LoopStep? && s.loop.Acking? {
      AckNeverDrops(s, s.loop.i);
    }
    DropsFrame(s, a);
  }

  lemma DropsFrame(s: Session, a: Action)
    requires NoDrops(s) && Enabled(s, a) && (a.LoopStep? && s.loop.Acking? ==> !s.svcs[s.loop.i].token)
    ensures NoDrops(Apply(s, a))
  {
    EffectIsAll(s, a);
    if Effect(s, a).Update? && !(a.LoopStep? && s.loop.Acking?) {
      OtherNeverDrops(s, a);
    }
  }

  lemma AckNeverDrops(s: Session, i: nat)
    requires AllStreams(s) && Acknowledged(s) && NotOveranswered(s) && AskedByOwner(s) && NoDrops(s)
    requires i < |s.svcs| && AckUnderWay(s, i)
    ensures !s.svcs[i].token
  {
    var v := s.svcs[i];
    assert SvcInv(v);
    AskedPrefix(s.link.out, s.client.seen, v.localID);
    AcksAreAnswers(s, i);
    assert |Asking(v)| == Requests(v);
  }

  lemma AcksAreAnswers(s: Session, i: nat)
    requires Acknowledged(s) && i < |s.svcs|
    ensures s.svcs[i].log.acks + Bit(AckUnderWay(s, i)) <= OkaysTo(s.client.sent, s.svcs[i].localID)
  {
    var v, sent, n := s.svcs[i], s.client.sent, s.client.taken;
    assert AcksOk(s, v, AckUnderWay(s, i));
    OkaysSplit(sent, n, v.localID);
    OkaysSplit(sent[..n], v.log.since, v.localID);
    assert sent[..n][v.log.since..] == TakenSince(s, v);
  }

  lemma OtherNeverDrops(s: Session, a: Action)
    requires Enabled(s, a) && Effect(s, a).Update? && !(a.LoopStep? && s.loop.Acking?)
    ensures Effect(s, a).v.log.dropped == s.svcs[Effect(s, a).i].log.dropped
  {
    if a.Internal? {
      StepDropsNothing(s.svcs[a.i], a.c, s.shake.maxPayload);
    }
  }

  lemma StepDropsNothing(v: Svc, c: Choice, m: uint32)
    requires CanStep(v, c)
    ensures StepSvc(v, c, m).log.dropped == v.log.dropped
  {
    StepFrame(v, c, m);
  }
}
