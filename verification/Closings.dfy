/** When a stream is closed: by the client's CLSE for it, by its own finish, or with the session. */
module Closings {
  import opened Bytes
  import opened Adbwire
  import opened Multiplexer
  import opened StreamInvariant
  import opened FlowControl
  import opened HonestClient

  predicate IsClseTo(p: Packet, id: uint32)
  {
    p.command == CMD_CLSE && p.arg1 == id
  }

  ghost predicate AskedToClose(ps: seq<Packet>, id: uint32)
  {
    exists p :: p in ps && IsClseTo(p, id)
  }

  predicate BeingClosed(s: Session, i: nat)
  {
    s.loop == ClosingSvc(i)
  }

  predicate PastClosing(v: Svc)
  {
    v.pc.Leaving? || Left(v.pc)
  }

  /** In the map it is closed once the client has asked for it; and it is closed for no other reason but its own end. */
  ghost predicate ClosedOk(v: Svc, asked: bool, inMap: bool, closing: bool, sessionOpen: bool)
  {
    && (inMap && asked ==> v.done || closing)
    && (v.done ==> asked || PastClosing(v) || !sessionOpen)
    && (closing ==> asked) && (v.pc.Fresh? ==> !closing && (v.done ==> !sessionOpen))
  }

  ghost predicate ClosedAt(s: Session, i: nat)
    requires i < |s.svcs|
  {
    var v := s.svcs[i];
    && v.log.since <= s.client.taken
    && ClosedOk(v, AskedToClose(TakenSince(s, v), v.localID), InMap(s, i, v.localID), BeingClosed(s, i), s.closer.Open?)
  }

  ghost predicate ClosedForCause(s: Session)
  {
    && s.client.taken <= |s.client.sent| && (s.loop.ClosingSvc? ==> s.loop.i < |s.svcs|)
    && forall i :: 0 <= i < |s.svcs| ==> ClosedAt(s, i)
  }

  /** Who closes stream i: the read loop at a CLSE, session.close, or its own finish. */
  predicate Closes(s: Session, a: Action, i: nat)
  {
    (a.LoopStep? && BeingClosed(s, i)) || (a.CloseOne? && a.i == i)
  }

  lemma StepCloses(v: Svc, c: Choice, m: uint32)
    requires CanStep(v, c)
    ensures var w := StepSvc(v, c, m);
            && (v.done ==> w.done) && (w.done ==> v.done || PastClosing(w)) && (PastClosing(v) ==> PastClosing(w))
  {
  }

  lemma UpdateCloses(s: Session, a: Action)
    requires Enabled(s, a) && Effect(s, a).Update? && Effect(s, a).i < |s.svcs|
    ensures var i := Effect(s, a).i;
            var v, w := s.svcs[i], Effect(s, a).v;
            && (v.done || Closes(s, a, i) ==> w.done)
            && (w.done ==> v.done || Closes(s, a, i) || PastClosing(w))
            && (PastClosing(v) ==> PastClosing(w))
  {
    match a {
      case Internal(i, c) => StepCloses(s.svcs[i], c, s.shake.maxPayload);
      case _ =>
    }
  }

  /** The read loop goes to close a stream only at a CLSE for the ID under which it is in the map. */
  lemma LoopCloses(s: Session, a: Action, i: nat)
    requires Enabled(s, a)
    ensures var t := Apply(s, a);
            && (a.Take? ==> (BeingClosed(t, i) <==>
                  var p := s.client.sent[s.client.taken]; p.command == CMD_CLSE && InMap(s, i, p.arg1)))
            && (!a.Take? && BeingClosed(t, i) ==> BeingClosed(s, i) && !a.LoopStep?)
            && (BeingClosed(s, i) && !a.LoopStep? ==> BeingClosed(t, i))
            && (t.closer.Open? ==> s.closer.Open?) && (a.CloseOne? ==> !s.closer.Open?)
            && (a.Take? ==> t.client == s.client.(taken := s.client.taken + 1) && t.table == s.table)
            && (!a.Take? ==> t.client.taken == s.client.taken && s.client.sent <= t.client.sent)
  {
  }

  lemma AskedSnoc(ps: seq<Packet>, p: Packet, id: uint32)
    ensures AskedToClose(ps + [p], id) <==> AskedToClose(ps, id) || IsClseTo(p, id)
  {
    if AskedToClose(ps, id) {
      var q :| q in ps && IsClseTo(q, id);
      assert q in ps + [p];
    }
    if IsClseTo(p, id) {
      assert p in ps + [p];
    }
  }

  lemma TakeClosedAt(s: Session, a: Action, i: nat)
    requires MapOk(s) && Enabled(s, a) && a.Take? && i < |s.svcs| && ClosedAt(s, i) && s.client.taken <= |s.client.sent|
    ensures i < |Apply(s, a).svcs| && ClosedAt(Apply(s, a), i)
  {
    var t, v, p := Apply(s, a), s.svcs[i], s.client.sent[s.client.taken];
    EffectIsAll(s, a);
    LoopCloses(s, a, i);
    assert t.svcs[i] == v && TakenSince(t, v) == TakenSince(s, v) + [p];
    AskedSnoc(TakenSince(s, v), p, v.localID);
  }

  lemma RegisterClosedAt(s: Session, a: Action)
    requires Enabled(s, a) && Registers(s, a) && Effect(s, a).Update? && Effect(s, a).i < |s.svcs|
    requires ClosedAt(s, Effect(s, a).i) && s.client.taken <= |s.client.sent|
    ensures Effect(s, a).i < |Apply(s, a).svcs| && ClosedAt(Apply(s, a), Effect(s, a).i)
  {
    var t, i := Apply(s, a), Effect(s, a).i;
    EffectIsAll(s, a);
    LoopCloses(s, a, i);
    EffectOnAcks(s, a);
    UpdateCloses(s, a);
    assert TakenSince(t, t.svcs[i]) == [];
  }

  /** What a step that neither takes a packet nor registers the stream leaves of it. */
  lemma OtherLeaves(s: Session, a: Action, i: nat)
    requires Enabled(s, a) && !a.Take? && i < |s.svcs| && !(Registers(s, a) && Effect(s, a).i == i)
    requires s.client.taken <= |s.client.sent| && s.svcs[i].log.since <= s.client.taken
    ensures i < |Apply(s, a).svcs|
    ensures var v, w := s.svcs[i], Apply(s, a).svcs[i];
            && w.localID == v.localID && w.log.since == v.log.since && (w.pc.Fresh? <==> v.pc.Fresh?)
            && TakenSince(Apply(s, a), w) == TakenSince(s, v)
            && (v.done || Closes(s, a, i) ==> w.done) && (w.done ==> v.done || Closes(s, a, i) || PastClosing(w))
            && (PastClosing(v) ==> PastClosing(w))
  {
    var t, v := Apply(s, a), s.svcs[i];
    EffectIsAll(s, a);
    LoopCloses(s, a, i);
    if Effect(s, a).Update? && Effect(s, a).i == i {
      EffectOnAcks(s, a);
      UpdateCloses(s, a);
    }
    assert s.client.sent[v.log.since..s.client.taken] == t.client.sent[v.log.since..s.client.taken];
  }

  lemma OtherClosedAt(s: Session, a: Action, i: nat)
    requires MapOk(s) && Enabled(s, a) && !a.Take? && i < |s.svcs| && !(Registers(s, a) && Effect(s, a).i == i)
    requires ClosedAt(s, i) && s.client.taken <= |s.client.sent|
    ensures i < |Apply(s, a).svcs| && ClosedAt(Apply(s, a), i)
  {
    OtherLeaves(s, a, i);
    LoopCloses(s, a, i);
    var t, v, w := Apply(s, a), s.svcs[i], Apply(s, a).svcs[i];
    var asked := AskedToClose(TakenSince(s, v), v.localID);
    if InMap(t, i, v.localID) {
      MapStep(s, a, i);
    }
    assert ClosedOk(v, asked, InMap(s, i, v.localID), BeingClosed(s, i), s.closer.Open?);
    assert InMap(t, i, v.localID) && asked ==> w.done || BeingClosed(t, i);
    assert w.done ==> asked || PastClosing(w) || !t.closer.Open?;
    assert w.pc.Fresh? && w.done ==> !t.closer.Open?;
  }

  lemma StepKeepsClosedAt(s: Session, a: Action, i: nat)
    requires MapOk(s) && ClosedForCause(s) && Enabled(s, a) && i < |Apply(s, a).svcs|
    ensures ClosedAt(Apply(s, a), i)
  {
    EffectIsAll(s, a);
    if i >= |s.svcs| {
      LoopCloses(s, a, i);
    } else if a.Take? {
      TakeClosedAt(s, a, i);
    } else if Registers(s, a) && Effect(s, a).i == i {
      RegisterClosedAt(s, a);
    } else {
      OtherClosedAt(s, a, i);
    }
  }

  lemma StepKeepsClosed(s: Session, a: Action)
    requires MapOk(s) && ClosedForCause(s) && Enabled(s, a)
    ensures ClosedForCause(Apply(s, a))
  {
    var t := Apply(s, a);
    EffectIsAll(s, a);
    LoopCloses(s, a, 0);
    if t.loop.ClosingSvc? {
      LoopCloses(s, a, t.loop.i);
    }
    forall i | 0 <= i < |t.svcs| ensures ClosedAt(t, i) {
      StepKeepsClosedAt(s, a, i);
    }
  }

  lemma {:induction false} RunKeepsClosed(run: seq<Session>, k: nat)
    requires Run(run) && k < |run|
    ensures ClosedForCause(run[k])
  {
    if k > 0 {
      var a := StepOf(run, k);
      RunKeepsClosed(run, k - 1);
      RunKeepsInv(run, k - 1);
      StepKeepsClosed(run[k - 1], a);
    }
  }

  /**
   In every run of an open session, a stream in the map that has not begun to finish is closed if and only if the
   client has sent a CLSE for its ID since it was registered and the read loop has dealt with it. Out of the map, no
   other CLSE closes it.
   */
  lemma ClosedOnlyWhenAsked(run: seq<Session>, k: nat, i: nat)
    requires Run(run) && k < |run| && i < |run[k].svcs| && run[k].closer.Open?
    ensures var s, v := run[k], run[k].svcs[i];
            var asked := AskedToClose(TakenSince(s, v), v.localID);
            && (v.done ==> asked || v.pc.Leaving? || Left(v.pc))
            && (InMap(s, i, v.localID) && !v.pc.Leaving? && !BeingClosed(s, i) ==> (v.done <==> asked))
  {
    var s, v := run[k], run[k].svcs[i];
    RunKeepsClosed(run, k);
    RunKeepsInv(run, k);
    assert ClosedAt(s, i) && MapOk(s);
  }
}
