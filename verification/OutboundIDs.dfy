/** Streams the bridge opens: the ID they write to is the one the client's first acknowledgement names. */
module OutboundIDs {
  import opened Bytes
  import opened Adbwire
  import opened Emissions
  import opened Multiplexer
  import opened StreamInvariant
  import opened CloseDiscipline
  import opened FlowControl
  import opened HonestClient

  /** The first ID other than 0 that OKAYs for this stream come from. */
  function FirstID(ps: seq<Packet>, id: uint32): uint32
  {
    if ps == [] then 0
    else
      var before, p := FirstID(ps[..|ps| - 1], id), ps[|ps| - 1];
      if before == 0 && p.command == CMD_OKAY && p.arg1 == id then p.arg0 else before
  }

  lemma FirstSnoc(ps: seq<Packet>, p: Packet, id: uint32)
    ensures FirstID(ps + [p], id) ==
              if FirstID(ps, id) == 0 && p.command == CMD_OKAY && p.arg1 == id then p.arg0 else FirstID(ps, id)
  {
    assert (ps + [p])[..|ps|] == ps;
  }

  /** The read loop is about to give stream i the remote ID of an OKAY. */
  predicate Naming(s: Session, i: nat)
  {
    s.loop.Acking? && s.loop.i == i && s.loop.stage == CasRemote
  }

  /** `first` is the first ID named; `coming` the one about to be given. */
  ghost predicate NameOk(v: Svc, first: uint32, coming: Option<uint32>, inMap: bool)
  {
    v.kind == Outbound ==>
      && (v.remoteID == 0 || v.remoteID == first) && (v.pc.Fresh? ==> v.remoteID == 0 && coming.None?)
      && match coming
         case None => inMap ==> v.remoteID == first
         case Some(remote) => v.remoteID == 0 ==> remote == first
  }

  function Coming(s: Session, i: nat): Option<uint32>
  {
    if Naming(s, i) then Some(s.loop.remote) else None
  }

  ghost predicate NamedAt(s: Session, i: nat)
    requires i < |s.svcs|
  {
    var v := s.svcs[i];
    && v.log.since <= s.client.taken
    && NameOk(v, FirstID(TakenSince(s, v), v.localID), Coming(s, i), InMap(s, i, v.localID))
  }

  ghost predicate AllNamed(s: Session)
  {
    && s.client.taken <= |s.client.sent| && (s.loop.Acking? ==> s.loop.i < |s.svcs|)
    && forall i :: 0 <= i < |s.svcs| ==> NamedAt(s, i)
  }

  /** Only ack gives a remote ID, and only to a stream without one. */
  lemma UpdateNames(s: Session, a: Action)
    requires Enabled(s, a) && Effect(s, a).Update? && Effect(s, a).i < |s.svcs|
    ensures var i := Effect(s, a).i;
            var v, w := s.svcs[i], Effect(s, a).v;
            && w.kind == v.kind
            && w.remoteID == (if a.LoopStep? && Naming(s, i) && v.remoteID == 0 then s.loop.remote else v.remoteID)
  {
    match a {
      case Internal(i, c) => StepFrame(s.svcs[i], c, s.shake.maxPayload);
      case _ =>
    }
  }

  lemma LoopNames(s: Session, a: Action, i: nat)
    requires Enabled(s, a)
    ensures var t := Apply(s, a);
            && (a.Take? ==>
                  && t.client == s.client.(taken := s.client.taken + 1) && t.table == s.table
                  && var p := s.client.sent[s.client.taken];
                     Coming(t, i) == if p.command == CMD_OKAY && InMap(s, i, p.arg1) then Some(p.arg0) else None)
            && (!a.Take? ==>
                  && Coming(t, i) == (if a.LoopStep? then None else Coming(s, i))
                  && t.client.taken == s.client.taken && s.client.sent <= t.client.sent)
  {
  }

  lemma TakeNames(s: Session, a: Action, i: nat)
    requires MapOk(s) && Enabled(s, a) && a.Take? && i < |s.svcs| && NamedAt(s, i) && s.client.taken <= |s.client.sent|
    ensures i < |Apply(s, a).svcs| && NamedAt(Apply(s, a), i)
  {
    var t, v, p := Apply(s, a), s.svcs[i], s.client.sent[s.client.taken];
    EffectIsAll(s, a);
    LoopNames(s, a, i);
    assert t.svcs[i] == v && TakenSince(t, v) == TakenSince(s, v) + [p];
    FirstSnoc(TakenSince(s, v), p, v.localID);
  }

  lemma RegisterNames(s: Session, a: Action)
    requires Enabled(s, a) && Registers(s, a) && Effect(s, a).Update? && Effect(s, a).i < |s.svcs|
    requires NamedAt(s, Effect(s, a).i) && s.client.taken <= |s.client.sent|
    ensures Effect(s, a).i < |Apply(s, a).svcs| && NamedAt(Apply(s, a), Effect(s, a).i)
  {
    var t, i := Apply(s, a), Effect(s, a).i;
    EffectIsAll(s, a);
    LoopNames(s, a, i);
    EffectOnAcks(s, a);
    UpdateNames(s, a);
    assert TakenSince(t, t.svcs[i]) == [];
  }

  lemma OtherLeavesName(s: Session, a: Action, i: nat)
    requires Enabled(s, a) && !a.Take? && i < |s.svcs| && !(Registers(s, a) && Effect(s, a).i == i)
    requires s.client.taken <= |s.client.sent| && s.svcs[i].log.since <= s.client.taken
    ensures i < |Apply(s, a).svcs|
    ensures var v, w := s.svcs[i], Apply(s, a).svcs[i];
            && w.localID == v.localID && w.kind == v.kind && w.log.since == v.log.since
            && (w.pc.Fresh? <==> v.pc.Fresh?) && TakenSince(Apply(s, a), w) == TakenSince(s, v)
            && w.remoteID == (if a.LoopStep? && Naming(s, i) && v.remoteID == 0 then s.loop.remote else v.remoteID)
  {
    var t, v := Apply(s, a), s.svcs[i];
    EffectIsAll(s, a);
    LoopNames(s, a, i);
    if Effect(s, a).Update? && Effect(s, a).i == i {
      EffectOnAcks(s, a);
      UpdateNames(s, a);
    }
    assert s.client.sent[v.log.since..s.client.taken] == t.client.sent[v.log.since..s.client.taken];
  }

  lemma OtherNames(s: Session, a: Action, i: nat)
    requires MapOk(s) && Enabled(s, a) && !a.Take? && i < |s.svcs| && !(Registers(s, a) && Effect(s, a).i == i)
    requires NamedAt(s, i) && s.client.taken <= |s.client.sent|
    ensures i < |Apply(s, a).svcs| && NamedAt(Apply(s, a), i)
  {
    OtherLeavesName(s, a, i);
    LoopNames(s, a, i);
    if InMap(Apply(s, a), i, s.svcs[i].localID) {
      MapStep(s, a, i);
    }
  }

  lemma StepKeepsNamedAt(s: Session, a: Action, i: nat)
    requires MapOk(s) && AllNamed(s) && Enabled(s, a) && i < |Apply(s, a).svcs|
    ensures NamedAt(Apply(s, a), i)
  {
    EffectIsAll(s, a);
    if i >= |s.svcs| {
      LoopNames(s, a, i);
      StepKeepsMap(s, a);
      NewcomerUnnamed(s, a);
    } else if a.Take? {
      TakeNames(s, a, i);
    } else if Registers(s, a) && Effect(s, a).i == i {
      RegisterNames(s, a);
    } else {
      OtherNames(s, a, i);
    }
  }

  lemma NewcomerUnnamed(s: Session, a: Action)
    requires Enabled(s, a) && Effect(s, a).Creation?
    ensures Effect(s, a).v.kind == Outbound ==> Effect(s, a).v.remoteID == 0
    ensures Effect(s, a).v.log.since == 0
  {
  }

  lemma StepKeepsAllNamed(s: Session, a: Action)
    requires MapOk(s) && AllNamed(s) && Enabled(s, a)
    ensures AllNamed(Apply(s, a))
  {
    var t := Apply(s, a);
    EffectIsAll(s, a);
    ActionOnLoop(s, a, 0);
    LoopNames(s, a, 0);
    if t.loop.Acking? {
      ActionOnLoop(s, a, t.loop.i);
    }
    forall i | 0 <= i < |t.svcs| ensures NamedAt(t, i) {
      StepKeepsNamedAt(s, a, i);
    }
  }

  lemma {:induction false} RunKeepsAllNamed(run: seq<Session>, k: nat)
    requires Run(run) && k < |run|
    ensures AllNamed(run[k])
  {
    if k > 0 {
      var a := StepOf(run, k);
      RunKeepsAllNamed(run, k - 1);
      RunKeepsInv(run, k - 1);
      StepKeepsAllNamed(run[k - 1], a);
    }
  }

  /**
   In every run, all data of a stream that the bridge opens goes to the first ID, other than 0, from which the client
   has acknowledged it since it was registered; whatever else it acknowledges later. In the map it has that ID as soon
   as the read loop has dealt with the OKAY.
   */
  lemma DataGoesToFirstID(run: seq<Session>, k: nat, i: nat)
    requires Run(run) && k < |run| && i < |run[k].svcs| && run[k].svcs[i].kind == Outbound
    ensures var s, v := run[k], run[k].svcs[i];
            var first := FirstID(TakenSince(s, v), v.localID);
            && (forall p :: p in Own(s.link.out, Stream(i)) && p.command == CMD_WRTE ==> p.arg1 == first != 0)
            && (v.remoteID == 0 || v.remoteID == first)
            && (InMap(s, i, v.localID) && !Naming(s, i) ==> v.remoteID == first)
  {
    var s, v := run[k], run[k].svcs[i];
    RunKeepsAllNamed(run, k);
    RunKeepsInv(run, k);
    RunKeepsLogged(run, k);
    assert SvcInv(v) && LoggedAt(s, i) && NamedAt(s, i);
    SpokenIsWellSpoken(v);
    WellSpokenWrtes(v, Spoken(v.log));
  }

  lemma WellSpokenWrtes(v: Svc, ps: seq<Packet>)
    requires WellSpoken(v, ps)
    ensures forall p :: p in ps && p.command == CMD_WRTE ==> IsWrte(v, p)
  {
  }
}
