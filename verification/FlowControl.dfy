/** The acknowledgement tokens: how many OPENs and WRTEs may be unanswered, and when ack() drops a token. */
module FlowControl {
  import opened Bytes
  import opened Adbwire
  import opened Emissions
  import opened Multiplexer
  import opened StreamInvariant
  import opened CloseDiscipline

  /** How many of the packets are OKAYs for the bridge's stream `id`. */
  function OkaysTo(ps: seq<Packet>, id: uint32): nat
  {
    if ps == [] then 0 else OkaysTo(ps[..|ps| - 1], id) + Bit(IsOkayTo(ps[|ps| - 1], id))
  }

  predicate IsOkayTo(p: Packet, id: uint32)
  {
    p.command == CMD_OKAY && p.arg1 == id
  }

  lemma OkaysSnoc(ps: seq<Packet>, p: Packet, id: uint32)
    ensures OkaysTo(ps + [p], id) == OkaysTo(ps, id) + Bit(IsOkayTo(p, id))
  {
    assert (ps + [p])[..|ps|] == ps;
  }

  lemma {:induction false} OkaysAppend(ps: seq<Packet>, qs: seq<Packet>, id: uint32)
    ensures OkaysTo(ps + qs, id) == OkaysTo(ps, id) + OkaysTo(qs, id)
  {
    if qs == [] {
      assert ps + qs == ps;
    } else {
      var init, last := qs[..|qs| - 1], qs[|qs| - 1];
      OkaysAppend(ps, init, id);
      OkaysSnoc(ps + init, last, id);
      assert ps + qs == ps + init + [last];
    }
  }

  lemma OkaysSplit(ps: seq<Packet>, k: nat, id: uint32)
    requires k <= |ps|
    ensures OkaysTo(ps, id) == OkaysTo(ps[..k], id) + OkaysTo(ps[k..], id)
  {
    assert ps[..k] + ps[k..] == ps;
    OkaysAppend(ps[..k], ps[k..], id);
  }

  /** The read loop is on its way to hand stream i a token. */
  predicate AckUnderWay(s: Session, i: nat)
  {
    s.loop.Acking? && s.loop.i == i
  }

  /** The client's packets the read loop has taken since stream v was registered. */
  function TakenSince(s: Session, v: Svc): seq<Packet>
  {
    if v.log.since <= s.client.taken <= |s.client.sent| then s.client.sent[v.log.since..s.client.taken] else []
  }

  // ---- Any client

  /** No stream is acknowledged more often than the client said OKAY to it since it was registered. */
  ghost predicate Acknowledged(s: Session)
  {
    && s.client.taken <= |s.client.sent| && (s.loop.Acking? ==> s.loop.i < |s.svcs|)
    && forall i :: 0 <= i < |s.svcs| ==> AcksOk(s, s.svcs[i], AckUnderWay(s, i))
  }

  ghost predicate AcksOk(s: Session, v: Svc, underWay: bool)
  {
    && v.log.since <= s.client.taken && (v.pc.Fresh? ==> v.log.acks == 0 && !underWay)
    && v.log.acks + Bit(underWay) <= OkaysTo(TakenSince(s, v), v.localID)
  }

  lemma TakeExtends(s: Session, v: Svc)
    requires v.log.since <= s.client.taken < |s.client.sent|
    ensures var t := s.(client := s.client.(taken := s.client.taken + 1));
            OkaysTo(TakenSince(t, v), v.localID) ==
              OkaysTo(TakenSince(s, v), v.localID) + Bit(IsOkayTo(s.client.sent[s.client.taken], v.localID))
  {
    var t := s.(client := s.client.(taken := s.client.taken + 1));
    assert TakenSince(t, v) == TakenSince(s, v) + [s.client.sent[s.client.taken]];
    OkaysSnoc(TakenSince(s, v), s.client.sent[s.client.taken], v.localID);
  }

  predicate Registers(s: Session, a: Action)
  {
    a.Register? || (a.LoopStep? && s.loop.Registering?)
  }

  /** What an action changes of the counters: ack() counts, registration notes the time. */
  lemma EffectOnAcks(s: Session, a: Action)
    requires Enabled(s, a) && Effect(s, a).Update?
    ensures var v, w := s.svcs[Effect(s, a).i], Effect(s, a).v;
            && w.localID == v.localID
            && w.log.acks == v.log.acks + Bit(a.LoopStep? && s.loop.Acking? && s.loop.stage == PutToken)
            && (if Registers(s, a) then v.pc.Fresh? && !w.pc.Fresh? && w.log.since == s.client.taken
                else w.log.since == v.log.since && (v.pc.Fresh? <==> w.pc.Fresh?))
  {
    match a {
      case Internal(i, c) => StepOnAcks(s.svcs[i], c, s.shake.maxPayload);
      case Say(i, o) => SaidOnAcks(s.svcs[i], o);
      case _ =>
    }
  }

  lemma StepOnAcks(v: Svc, c: Choice, m: uint32)
    requires CanStep(v, c)
    ensures var w := StepSvc(v, c, m);
            w.localID == v.localID && w.log.acks == v.log.acks && w.log.since == v.log.since && !v.pc.Fresh? &&
              !w.pc.Fresh?
  {
    StepFrame(v, c, m);
  }

  lemma SaidOnAcks(v: Svc, o: Outcome)
    requires Speaking(v)
    ensures var w := Said(v, o);
            w.localID == v.localID && w.log.acks == v.log.acks && w.log.since == v.log.since && !v.pc.Fresh? &&
              !w.pc.Fresh?
  {
  }

  /** What an action does to the queue of client packets and to the loop's acknowledging. */
  lemma ActionOnLoop(s: Session, a: Action, i: nat)
    requires Enabled(s, a)
    ensures var t := Apply(s, a);
            match a
            case Take(_) =>
              var p := s.client.sent[s.client.taken];
              && t.client == s.client.(taken := s.client.taken + 1) && !AckUnderWay(s, i)
              && (AckUnderWay(t, i) <==> p.command == CMD_OKAY && p.arg1 in s.table && s.table[p.arg1] == i)
            case ClientSend(p) => t.client == s.client.(sent := s.client.sent + [p]) && t.loop == s.loop
            case LoopStep =>
              && t.client == s.client
              && (AckUnderWay(t, i) <==> AckUnderWay(s, i) && s.loop.stage != PutToken)
            case _ => t.client == s.client.(seen := t.client.seen) && (AckUnderWay(t, i) <==> AckUnderWay(s, i))
  {
  }

  lemma TakeKeepsAcks(s: Session, a: Action, i: nat)
    requires MapOk(s) && Acknowledged(s) && Enabled(s, a) && a.Take? && i < |s.svcs|
    ensures AcksOk(Apply(s, a), s.svcs[i], AckUnderWay(Apply(s, a), i))
  {
    ActionOnLoop(s, a, i);
    TakeExtends(s, s.svcs[i]);
    assert AcksOk(s, s.svcs[i], false);
    assert TakenSince(Apply(s, a), s.svcs[i]) ==
           TakenSince(s.(client := s.client.(taken := s.client.taken + 1)), s.svcs[i]);
  }

  lemma OtherKeepsAcks(s: Session, a: Action, i: nat, w: Svc)
    requires Acknowledged(s) && Enabled(s, a) && !a.Take? && i < |s.svcs|
    requires w == if Effect(s, a).Update? && Effect(s, a).i == i then Effect(s, a).v else s.svcs[i]
    ensures AcksOk(Apply(s, a), w, AckUnderWay(Apply(s, a), i))
  {
    var t := Apply(s, a);
    ActionOnLoop(s, a, i);
    assert AcksOk(s, s.svcs[i], AckUnderWay(s, i));
    if w != s.svcs[i] {
      EffectOnAcks(s, a);
    }
    assert w.log.since == s.svcs[i].log.since ==> TakenSince(t, w) == TakenSince(s, s.svcs[i]);
  }

  lemma StepKeepsAcknowledged(s: Session, a: Action)
    requires MapOk(s) && Acknowledged(s) && Enabled(s, a)
    ensures Acknowledged(Apply(s, a))
  {
    var t := Apply(s, a);
    EffectIsAll(s, a);
    ActionOnLoop(s, a, |s.svcs|);
    ActionOnLoop(s, a, if t.loop.Acking? then t.loop.i else 0);
    forall i | 0 <= i < |t.svcs| ensures AcksOk(t, t.svcs[i], AckUnderWay(t, i)) {
      if i == |s.svcs| {
      } else if a.Take? {
        TakeKeepsAcks(s, a, i);
      } else {
        OtherKeepsAcks(s, a, i, t.svcs[i]);
      }
    }
  }

  lemma {:induction false} RunKeepsAcknowledged(run: seq<Session>, k: nat)
    requires Run(run) && k < |run|
    ensures Acknowledged(run[k])
  {
    if k > 0 {
      RunKeepsAcknowledged(run, k - 1);
      RunKeepsInv(run, k - 1);
      var a := StepOf(run, k);
      StepKeepsAcknowledged(run[k - 1], a);
    }
  }

  /** How many of the packets are OPENs or WRTEs of the bridge's stream `id`. */
  function RequestsOf(ps: seq<Packet>, id: uint32): nat
  {
    if ps == [] then 0 else RequestsOf(ps[..|ps| - 1], id) + Bit(IsRequestOf(ps[|ps| - 1], id))
  }

  predicate IsRequestOf(p: Packet, id: uint32)
  {
    (p.command == CMD_OPEN || p.command == CMD_WRTE) && p.arg0 == id
  }

  lemma RequestsSnoc(ps: seq<Packet>, p: Packet, id: uint32)
    ensures RequestsOf(ps + [p], id) == RequestsOf(ps, id) + Bit(IsRequestOf(p, id))
  {
    assert (ps + [p])[..|ps|] == ps;
  }

  lemma {:induction false} RequestsAppend(ps: seq<Packet>, qs: seq<Packet>, id: uint32)
    ensures RequestsOf(ps + qs, id) == RequestsOf(ps, id) + RequestsOf(qs, id)
  {
    if qs == [] {
      assert ps + qs == ps;
    } else {
      var init, last := qs[..|qs| - 1], qs[|qs| - 1];
      RequestsAppend(ps, init, id);
      RequestsSnoc(ps + init, last, id);
      assert ps + qs == ps + init + [last];
    }
  }

  lemma {:induction false} AllRequests(ps: seq<Packet>, id: uint32, each: bool)
    requires forall p :: p in ps ==> (IsRequestOf(p, id) <==> each)
    ensures RequestsOf(ps, id) == if each then |ps| else 0
  {
    if ps != [] {
      AllRequests(ps[..|ps| - 1], id, each);
      assert ps[|ps| - 1] in ps;
    }
  }

  /** Counting a stream's OPENs and WRTEs in what it has said. */
  lemma SpokenRequests(v: Svc)
    requires Addressed(v)
    ensures RequestsOf(Spoken(v.log), v.localID) == Requests(v)
  {
    var l := v.log;
    RequestsAppend(l.greeting + l.wrtes, l.parting, v.localID);
    RequestsAppend(l.greeting, l.wrtes, v.localID);
    GreetingRequests(v);
    BodyRequests(v);
  }

  lemma BodyRequests(v: Svc)
    requires Addressed(v)
    ensures RequestsOf(v.log.wrtes, v.localID) == |v.log.wrtes| && RequestsOf(v.log.parting, v.localID) == 0
  {
    forall p | p in v.log.wrtes ensures IsRequestOf(p, v.localID) {
      assert IsWrte(v, p);
    }
    forall p | p in v.log.parting ensures !IsRequestOf(p, v.localID) {
      assert IsParting(v, p);
    }
    AllRequests(v.log.wrtes, v.localID, true);
    AllRequests(v.log.parting, v.localID, false);
  }

  lemma GreetingRequests(v: Svc)
    requires Addressed(v)
    ensures RequestsOf(v.log.greeting, v.localID) == if v.kind == Outbound then |v.log.greeting| else 0
  {
    forall p | p in v.log.greeting ensures IsRequestOf(p, v.localID) <==> v.kind == Outbound {
      assert IsGreeting(v, p);
    }
    AllRequests(v.log.greeting, v.localID, v.kind == Outbound);
  }

  /**
   * Flow control, with any client: the OPENs and WRTEs a stream has written never exceed by more than one
   * the OKAYs for its ID that the bridge has taken from the client since the stream was registered.
   */
  lemma AtMostOneUnanswered(run: seq<Session>, k: nat, i: nat)
    requires Run(run) && k < |run| && i < |run[k].svcs|
    ensures var s, v := run[k], run[k].svcs[i];
            RequestsOf(Own(s.link.out, Stream(i)), v.localID) <= OkaysTo(TakenSince(s, v), v.localID) + 1
  {
    var s, v := run[k], run[k].svcs[i];
    RunKeepsInv(run, k);
    RunKeepsLogged(run, k);
    RunKeepsAcknowledged(run, k);
    assert SvcInv(v) && AcksOk(s, v, AckUnderWay(s, i)) && LoggedAt(s, i);
    SpokenRequests(v);
  }
}
