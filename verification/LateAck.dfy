/**
 When a stream that finished without a CLSE is nevertheless opened: exactly if the read loop was about to hand it an
 OKAY when finish decided. Then the OKAY still marks it opened, with its remote ID, and nothing says so to the client.
 */
module LateAck {
  import opened Bytes
  import opened Adbwire
  import opened Emissions
  import opened Multiplexer
  import opened StreamInvariant
  import opened CloseDiscipline
  import opened FlowControl

  // ---- Before finish decides

  /** What an OKAY half handed over has done so far. */
  predicate AckHalfDone(s: Session, i: nat)
    requires i < |s.svcs|
  {
    AckUnderWay(s, i) && s.loop.stage != CasRemote ==>
      && (s.svcs[i].remoteID == 0 ==> s.loop.remote == 0)
      && (s.loop.stage == PutToken ==> s.svcs[i].isOpen)
  }

  /** A stream about to be found unopened has no remote ID but that of an OKAY half handed over. */
  predicate UnopenedHasNoRemote(s: Session, i: nat)
    requires i < |s.svcs|
  {
    FoundUnopened(s, i) ==>
      s.svcs[i].remoteID == if AckUnderWay(s, i) && s.loop.stage == MarkOpened then s.loop.remote else 0
  }

  ghost predicate AcksInOrder(s: Session)
  {
    && (s.loop.Acking? ==> s.loop.i < |s.svcs|)
    && forall i :: 0 <= i < |s.svcs| ==> AckHalfDone(s, i) && UnopenedHasNoRemote(s, i)
  }

  /** What an action does to the fields an OKAY sets, and to where the stream is. */
  lemma EffectOnOpening(s: Session, a: Action)
    requires Enabled(s, a) && Effect(s, a).Update?
    ensures var v, w := s.svcs[Effect(s, a).i], Effect(s, a).v;
            && (!(a.LoopStep? && s.loop.Acking?) ==> w.remoteID == v.remoteID && (v.isOpen ==> w.isOpen))
            && (a.LoopStep? && s.loop.Acking? ==>
                  && w.pc == v.pc
                  && w.remoteID == (if s.loop.stage == CasRemote && v.remoteID == 0 then s.loop.remote else v.remoteID)
                  && w.isOpen == (v.isOpen || s.loop.stage == MarkOpened))
            && (v.pc.Checking? && w.pc.Deciding? ==> w.pc.remote == v.remoteID)
            && (w.pc.Deciding? ==> v.pc == w.pc || v.pc.Checking?)
            && (v.pc.Finished? ==> w.pc == v.pc && (a.LoopStep? || w.isOpen == v.isOpen))
  {
    match a {
      case Internal(i, c) => StepOnOpening(s.svcs[i], c, s.shake.maxPayload);
      case Say(i, o) =>
      case _ =>
    }
  }

  lemma StepOnOpening(v: Svc, c: Choice, m: uint32)
    requires CanStep(v, c)
    ensures var w := StepSvc(v, c, m);
            && w.remoteID == v.remoteID && (v.isOpen ==> w.isOpen)
            && (w.pc.Deciding? ==> v.pc.Checking? && w.pc.remote == v.remoteID) && !v.pc.Finished?
  {
  }

  /** How the read loop's acknowledging moves: it begins with a packet, and goes through its stages. */
  lemma AckStages(s: Session, a: Action, i: nat)
    requires Enabled(s, a)
    ensures var t := Apply(s, a);
            && (AckUnderWay(t, i) && !AckUnderWay(s, i) ==> a.Take? && t.loop.stage == CasRemote && i in s.table.Values)
            && (AckUnderWay(s, i) && !AckUnderWay(t, i) ==> a.LoopStep? && s.loop.stage == PutToken)
            && (AckUnderWay(s, i) && AckUnderWay(t, i) ==>
                  && t.loop.remote == s.loop.remote
                  && t.loop.stage == if !a.LoopStep? then s.loop.stage
                                     else if s.loop.stage == CasRemote then MarkOpened else PutToken)
  {
  }

  lemma StepKeepsAckAt(s: Session, a: Action, i: nat)
    requires AcksInOrder(s) && Enabled(s, a) && i < |s.svcs|
    ensures i < |Apply(s, a).svcs| && AckHalfDone(Apply(s, a), i) && UnopenedHasNoRemote(Apply(s, a), i)
  {
    EffectIsAll(s, a);
    AckStages(s, a, i);
    assert AckHalfDone(s, i) && UnopenedHasNoRemote(s, i);
    if Effect(s, a).Update? && Effect(s, a).i == i {
      EffectOnOpening(s, a);
    }
  }

  lemma StepKeepsAcksInOrder(s: Session, a: Action)
    requires MapOk(s) && AcksInOrder(s) && Enabled(s, a)
    ensures AcksInOrder(Apply(s, a))
  {
    var t := Apply(s, a);
    EffectIsAll(s, a);
    forall i | 0 <= i < |t.svcs| ensures AckHalfDone(t, i) && UnopenedHasNoRemote(t, i) {
      if i < |s.svcs| {
        StepKeepsAckAt(s, a, i);
      } else {
        AckStages(s, a, i);
      }
    }
    if t.loop.Acking? {
      AckStages(s, a, t.loop.i);
    }
  }

  lemma {:induction false} RunKeepsAcksInOrder(run: seq<Session>, k: nat)
    requires Run(run) && k < |run|
    ensures AcksInOrder(run[k])
  {
    if k > 0 {
      RunKeepsAcksInOrder(run, k - 1);
      RunKeepsInv(run, k - 1);
      var a := StepOf(run, k);
      StepKeepsAcksInOrder(run[k - 1], a);
    }
  }

  // ---- From finish's decision on

  /** Between states j and j + 1 of a run finish decides whether stream i says CLSE. */
  ghost predicate DecidesAt(run: seq<Session>, j: nat, i: nat)
  {
    && j + 1 < |run| && i < |run[j].svcs| && i < |run[j + 1].svcs|
    && run[j].svcs[i].pc.Deciding? && !run[j + 1].svcs[i].pc.Deciding?
  }

  /** The OKAY the read loop is about to hand to stream i, by its remote ID. */
  function LateOkay(s: Session, i: nat): Option<uint32>
  {
    if AckUnderWay(s, i) then Some(s.loop.remote) else None
  }

  /** A stream finished in silence: untouched for ever, or opened step by step by the one late OKAY. */
  predicate AfterSilence(s: Session, i: nat, late: Option<uint32>)
  {
    && i < |s.svcs| && s.svcs[i].pc == Finished(true)
    && match late
       case None => !AckUnderWay(s, i) && !s.svcs[i].isOpen && s.svcs[i].remoteID == 0
       case Some(remote) =>
         if AckUnderWay(s, i) then
           && s.loop.remote == remote && s.svcs[i].isOpen == (s.loop.stage == PutToken)
           && s.svcs[i].remoteID == if s.loop.stage == CasRemote then 0 else remote
         else s.svcs[i].isOpen && s.svcs[i].remoteID == remote
  }

  lemma StepKeepsAfterSilence(s: Session, a: Action, i: nat, late: Option<uint32>)
    requires MapOk(s) && AfterSilence(s, i, late) && Enabled(s, a)
    ensures AfterSilence(Apply(s, a), i, late)
  {
    EffectIsAll(s, a);
    AckStages(s, a, i);
    if Effect(s, a).Update? && Effect(s, a).i == i {
      EffectOnOpening(s, a);
    }
  }

  /** The step that decides: silence exactly for a stream found unopened, and nothing else happens in it. */
  lemma DecisionStep(run: seq<Session>, j: nat, i: nat)
    requires Run(run) && DecidesAt(run, j, i)
    ensures FoundUnopened(run[j], i) ==> AfterSilence(run[j + 1], i, LateOkay(run[j], i))
    ensures !FoundUnopened(run[j], i) ==> run[j + 1].svcs[i].pc.Choosing?
  {
    var a := StepOf(run, j + 1);
    RunKeepsAcksInOrder(run, j);
    EffectIsAll(run[j], a);
    assert AckHalfDone(run[j], i) && UnopenedHasNoRemote(run[j], i);
    if a.Internal? && a.i == i {
      AckStages(run[j], a, i);
    } else {
      StaysDeciding(run[j], a, i);
    }
  }

  lemma StaysDeciding(s: Session, a: Action, i: nat)
    requires Enabled(s, a) && i < |s.svcs| && s.svcs[i].pc.Deciding? && !(a.Internal? && a.i == i)
    ensures i < |Apply(s, a).svcs| && Apply(s, a).svcs[i].pc.Deciding?
  {
  }

  lemma {:induction false} SilenceStays(run: seq<Session>, j: nat, k: nat, i: nat)
    requires Run(run) && DecidesAt(run, j, i) && FoundUnopened(run[j], i) && j < k < |run|
    ensures AfterSilence(run[k], i, LateOkay(run[j], i))
  {
    DecisionStep(run, j, i);
    if k > j + 1 {
      SilenceStays(run, j, k - 1, i);
      RunKeepsInv(run, k - 1);
      var a := StepOf(run, k);
      StepKeepsAfterSilence(run[k - 1], a, i, LateOkay(run[j], i));
    }
  }

  predicate Speaks(pc: Pc)
  {
    pc.Choosing? || pc.Parting? || pc == Finished(false)
  }

  lemma StepKeepsSpeaking(s: Session, a: Action, i: nat)
    requires Enabled(s, a) && i < |s.svcs| && Speaks(s.svcs[i].pc)
    ensures i < |Apply(s, a).svcs| && Speaks(Apply(s, a).svcs[i].pc)
  {
    EffectIsAll(s, a);
    if a.Internal? && a.i == i {
      ChoosingSpeaks(s.svcs[i], a.c, s.shake.maxPayload);
    }
  }

  lemma ChoosingSpeaks(v: Svc, c: Choice, m: uint32)
    requires CanStep(v, c) && Speaks(v.pc)
    ensures Speaks(StepSvc(v, c, m).pc)
  {
  }

  lemma {:induction false} SpeakingStays(run: seq<Session>, j: nat, k: nat, i: nat)
    requires Run(run) && DecidesAt(run, j, i) && !FoundUnopened(run[j], i) && j < k < |run|
    ensures i < |run[k].svcs| && Speaks(run[k].svcs[i].pc)
  {
    DecisionStep(run, j, i);
    if k > j + 1 {
      SpeakingStays(run, j, k - 1, i);
      var a := StepOf(run, k);
      StepKeepsSpeaking(run[k - 1], a, i);
    }
  }

  // ---- The exact close discipline

  /**
   What the client is promised of a finished stream: a CLSE, last, unless it was never opened and has no remote ID.
   */
  predicate Discharged(s: Session, i: nat)
    requires i < |s.svcs|
  {
    var ps := Own(s.link.out, Stream(i));
    (ps != [] && ps[|ps| - 1].command == CMD_CLSE) || (!s.svcs[i].isOpen && s.svcs[i].remoteID == 0)
  }

  /** finish finds the stream unopened while the read loop holds an OKAY for it. */
  predicate RacesWithOkay(s: Session, i: nat)
  {
    FoundUnopened(s, i) && AckUnderWay(s, i)
  }

  /**
   In an open session with a whole connection, once no OKAY is being handed to a finished stream, the promise is kept
   if and only if finish's decision did not race with an OKAY. If it did, the stream stays opened, with that OKAY's
   remote ID and no CLSE; a silent stream that did not race stays unopened, without one.
   */
  lemma ClosedUnlessRaced(run: seq<Session>, j: nat, k: nat, i: nat)
    requires Run(run) && DecidesAt(run, j, i) && j < k < |run|
    requires i < |run[k].svcs| && run[k].svcs[i].pc.Finished? && !AckUnderWay(run[k], i)
    requires !run[k].link.closed && !run[k].link.broken
    ensures Discharged(run[k], i) <==> !RacesWithOkay(run[j], i)
    ensures RacesWithOkay(run[j], i) ==> run[k].svcs[i].isOpen && run[k].svcs[i].remoteID == run[j].loop.remote
    ensures run[k].svcs[i].pc.silent <==> FoundUnopened(run[j], i)
  {
    FinishedStreamHasClosed(run, k, i);
    if FoundUnopened(run[j], i) {
      SilenceStays(run, j, k, i);
    } else {
      SpeakingStays(run, j, k, i);
    }
  }

  /** Every finished stream has decided. */
  lemma {:induction false} FinishedHasDecided(run: seq<Session>, k: nat, i: nat) returns (j: nat)
    requires Run(run) && k < |run| && i < |run[k].svcs|
    requires Speaks(run[k].svcs[i].pc) || run[k].svcs[i].pc.Finished?
    ensures j < k && DecidesAt(run, j, i)
  {
    if k > 0 {
      var a := StepOf(run, k);
      DecidedBefore(run[k - 1], a, i);
      if run[k - 1].svcs[i].pc.Deciding? {
        j := k - 1;
      } else {
        j := FinishedHasDecided(run, k - 1, i);
      }
    }
  }

  lemma DecidedBefore(s: Session, a: Action, i: nat)
    requires Enabled(s, a) && i < |Apply(s, a).svcs|
    requires Speaks(Apply(s, a).svcs[i].pc) || Apply(s, a).svcs[i].pc.Finished?
    ensures i < |s.svcs| && (Speaks(s.svcs[i].pc) || s.svcs[i].pc.Finished? || s.svcs[i].pc.Deciding?)
  {
    EffectIsAll(s, a);
    if a.Internal? && a.i == i {
      DecidedAlone(s.svcs[i], a.c, s.shake.maxPayload);
    } else if Effect(s, a).Update? && Effect(s, a).i == i {
      OthersDecideNothing(s, a);
    }
  }

  lemma OthersDecideNothing(s: Session, a: Action)
    requires Enabled(s, a) && Effect(s, a).Update? && !a.Internal?
    requires Speaks(Effect(s, a).v.pc) || Effect(s, a).v.pc.Finished?
    ensures var v := s.svcs[Effect(s, a).i]; Speaks(v.pc) || v.pc.Finished?
  {
    match a {
      case LoopStep => LoopDecidesNothing(s.svcs[s.loop.i], s.loop, s.client.taken);
      case _ =>
    }
  }

  lemma LoopDecidesNothing(v: Svc, loop: LoopPc, taken: nat)
    requires Speaks(Looped(v, loop, taken).pc) || Looped(v, loop, taken).pc.Finished?
    ensures Speaks(v.pc) || v.pc.Finished?
  {
    match loop {
      case Registering(_) => assert false;
      case _ => assert Looped(v, loop, taken).pc == v.pc;
    }
  }

  lemma DecidedAlone(v: Svc, c: Choice, m: uint32)
    requires CanStep(v, c) && (Speaks(StepSvc(v, c, m).pc) || StepSvc(v, c, m).pc.Finished?)
    ensures v.pc.Deciding? || v.pc.Choosing?
  {
  }

  // ---- One such run

  ghost predicate Reachable(s: Session)
  {
    exists run :: Run(run) && run[|run| - 1] == s
  }

  lemma Step(s: Session, a: Action) returns (t: Session)
    requires Reachable(s) && Enabled(s, a)
    ensures Reachable(t) && t == Apply(s, a)
  {
    var run :| Run(run) && run[|run| - 1] == s;
    t := Apply(s, a);
    var longer := run + [t];
    assert Next(s, t);
    assert Run(longer) && longer[|longer| - 1] == t;
  }

  /** One outbound stream, in an open session with a whole connection. */
  predicate Scene(s: Session, pc: Pc, done: bool, isOpen: bool, remoteID: uint32, loop: LoopPc, coming: seq<Packet>)
  {
    && |s.svcs| == 1 && s.svcs[0].localID == 1 && s.svcs[0].kind == Outbound && s.svcs[0].pc == pc
    && s.svcs[0].done == done && s.svcs[0].isOpen == isOpen && s.svcs[0].remoteID == remoteID
    && s.loop == loop && !s.link.closed && !s.link.broken
    && s.client.taken <= |s.client.sent| && s.client.sent[s.client.taken..] == coming
    && s.table == if pc.Checking? || pc.Deciding? || pc.Finished? then map[] else map[1 := 0]
  }

  const CLSE := Packet(CMD_CLSE, 7, 1, [])
  const OKAY := Packet(CMD_OKAY, 7, 1, [])

  lemma Accepted() returns (s: Session)
    ensures Reachable(s) && Scene(s, Attaching, false, false, 0, Idle, [])
  {
    s := Initial(true, []);
    assert Run([s]) && [s][|[s]| - 1] == s;
    s := Step(s, Accept([]));
    s := Step(s, Register(0));
  }

  lemma AskedAndSent() returns (s: Session)
    ensures Reachable(s) && Scene(s, Waiting(ToPump), false, false, 0, Idle, [])
  {
    s := Accepted();
    s := Step(s, Internal(0, Go));
    s := Step(s, Say(0, Sent));
  }

  lemma ClosedByClient() returns (s: Session)
    ensures Reachable(s) && Scene(s, Waiting(ToPump), true, false, 0, Idle, [])
  {
    s := AskedAndSent();
    s := Step(s, ClientSend(CLSE));
    s := Step(s, Take(None));
    s := Step(s, LoopStep);
  }

  lemma LookedUp() returns (s: Session)
    ensures Reachable(s) && Scene(s, Waiting(ToPump), true, false, 0, Acking(0, 7, CasRemote), [])
  {
    s := ClosedByClient();
    s := Step(s, ClientSend(OKAY));
    s := Step(s, Take(None));
  }

  lemma Cancels() returns (s: Session)
    ensures Reachable(s) && Scene(s, Leaving, true, false, 0, Acking(0, 7, CasRemote), [])
  {
    s := LookedUp();
    s := Step(s, Internal(0, Cancelled));
    s := Step(s, Internal(0, Go));
  }

  lemma Unmapped() returns (s: Session)
    ensures Reachable(s) && Scene(s, Checking, true, false, 0, Acking(0, 7, CasRemote), [])
  {
    s := Cancels();
    s := Step(s, Leave(0));
  }

  lemma Silenced() returns (s: Session)
    ensures Reachable(s) && Scene(s, Finished(true), true, false, 0, Acking(0, 7, CasRemote), [])
  {
    s := Unmapped();
    s := Step(s, Internal(0, Go));
    s := Step(s, Internal(0, Go));
  }

  /** A stream that finished in silence and is now opened, with a remote ID, in an open session. */
  lemma OpenedAfterSilence() returns (s: Session)
    ensures Reachable(s) && |s.svcs| == 1 && s.svcs[0].pc == Finished(true)
    ensures s.svcs[0].isOpen && s.svcs[0].remoteID == 7 && !s.link.closed && !s.link.broken
  {
    s := Silenced();
    s := Step(s, LoopStep);
    s := Step(s, LoopStep);
  }
}
