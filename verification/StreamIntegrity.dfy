/**
 The bytes: what a stream's conn gives reaches the client in order, and what the client writes reaches that conn
 only.
 */
module StreamIntegrity {
  import opened Bytes
  import opened Adbwire
  import opened Emissions
  import opened Multiplexer
  import opened StreamInvariant
  import opened CloseDiscipline
  import opened FlowControl
  import opened RequestsByID
  import opened HonestClient

  // ---- From the conn to the client

  /** The payloads of the WRTEs among the packets, end to end. */
  function Carried(ps: seq<Packet>): seq<byte>
  {
    if ps == [] then [] else Carried(ps[..|ps| - 1]) + WrtePayload(ps[|ps| - 1])
  }

  function WrtePayload(p: Packet): seq<byte>
  {
    if p.command == CMD_WRTE then p.payload else []
  }

  lemma {:induction false} CarriedAppend(ps: seq<Packet>, qs: seq<Packet>)
    ensures Carried(ps + qs) == Carried(ps) + Carried(qs)
  {
    if qs == [] {
      assert ps + qs == ps;
    } else {
      var init, last := qs[..|qs| - 1], qs[|qs| - 1];
      CarriedAppend(ps, init);
      assert (ps + qs)[..|ps + qs| - 1] == ps + init;
      Assoc(Carried(ps), Carried(init), WrtePayload(last));
    }
  }

  lemma {:induction false} CarriedWrtes(ps: seq<Packet>)
    requires forall p :: p in ps ==> p.command == CMD_WRTE
    ensures Carried(ps) == Payloads(ps)
  {
    if ps != [] {
      CarriedWrtes(ps[..|ps| - 1]);
    }
  }

  lemma {:induction false} CarriedNothing(ps: seq<Packet>)
    requires forall p :: p in ps ==> p.command != CMD_WRTE
    ensures Carried(ps) == []
  {
    if ps != [] {
      CarriedNothing(ps[..|ps| - 1]);
    }
  }

  lemma SpokenCarries(v: Svc)
    requires Addressed(v)
    ensures Carried(Spoken(v.log)) == Payloads(v.log.wrtes) == Carried(Asking(v))
  {
    var l := v.log;
    var opening := if v.kind == Outbound then l.greeting else [];
    CarriedAppend(l.greeting + l.wrtes, l.parting);
    CarriedAppend(l.greeting, l.wrtes);
    CarriedAppend(opening, l.wrtes);
    CarriedNothing(l.greeting);
    CarriedNothing(opening);
    CarriedNothing(l.parting);
    CarriedWrtes(l.wrtes);
  }

  // ---- The buffer and the negotiated limit

  /** Between states j and j + 1 of a run stream i allocates its pump's buffer. */
  ghost predicate PumpStartsAt(run: seq<Session>, j: nat, i: nat)
  {
    && j + 1 < |run| && i < |run[j].svcs| && i < |run[j + 1].svcs|
    && run[j].svcs[i].pc.Starting? && run[j + 1].svcs[i].pc.Reading?
  }

  /** Only the start of the pump changes the size of its buffer. */
  lemma StepKeepsSize(v: Svc, c: Choice, m: uint32)
    requires CanStep(v, c) && v.kind != Local && (v.pc.Handling? ==> v.kind == Local)
    ensures |StepSvc(v, c, m).buf| == if v.pc.Starting? then m else |v.buf|
    ensures v.pc.Starting? ==> StepSvc(v, c, m).pc.Reading?
  {
  }

  lemma EffectOnBuffer(s: Session, a: Action)
    requires Enabled(s, a) && Effect(s, a).Update? && SvcInv(s.svcs[Effect(s, a).i])
    ensures var v, w := s.svcs[Effect(s, a).i], Effect(s, a).v;
            && w.kind == v.kind
            && (v.kind != Local ==> if v.pc.Starting? && w.pc.Reading? then |w.buf| == s.shake.maxPayload
                                    else |w.buf| == |v.buf|)
  {
    if a.Internal? {
      if s.svcs[a.i].kind != Local {
        StepKeepsSize(s.svcs[a.i], a.c, s.shake.maxPayload);
      }
      StepIsSteady(s.svcs[a.i], a.c, s.shake.maxPayload);
    }
  }

  lemma BufferBefore(s: Session, a: Action, i: nat)
    requires AllStreams(s) && Enabled(s, a) && i < |Apply(s, a).svcs|
    requires Apply(s, a).svcs[i].kind != Local && Apply(s, a).svcs[i].buf != []
    ensures i < |s.svcs| && s.svcs[i].kind != Local
    ensures if s.svcs[i].pc.Starting? && Apply(s, a).svcs[i].pc.Reading? then
              |Apply(s, a).svcs[i].buf| == s.shake.maxPayload
            else |Apply(s, a).svcs[i].buf| == |s.svcs[i].buf|
  {
    EffectIsAll(s, a);
    if Effect(s, a).Update? {
      assert SvcInv(s.svcs[Effect(s, a).i]);
      EffectOnBuffer(s, a);
    }
  }

  /** A pump's buffer has the size of the payload limit in force when the pump started. */
  lemma {:induction false} BufferIsLimit(run: seq<Session>, k: nat, i: nat) returns (j: nat)
    requires Run(run) && k < |run| && i < |run[k].svcs| && run[k].svcs[i].kind != Local && run[k].svcs[i].buf != []
    ensures j < k && PumpStartsAt(run, j, i) && |run[k].svcs[i].buf| == run[j].shake.maxPayload
  {
    if k > 0 {
      var a := StepOf(run, k);
      RunKeepsInv(run, k - 1);
      BufferBefore(run[k - 1], a, i);
      if run[k - 1].svcs[i].pc.Starting? && run[k].svcs[i].pc.Reading? {
        j := k - 1;
      } else {
        j := BufferIsLimit(run, k - 1, i);
      }
    }
  }

  /**
   * In every run, for every stream that pumps a conn, the payloads of its WRTEs are, end to end, a prefix of
   * what was read from that conn, though all of them are slices of one reused buffer; each is at least one byte
   * long and at most what the client's limit was when the pump started, which is 64 KiB or less.
   */
  lemma ForwardedIsPrefixOfRead(run: seq<Session>, k: nat, i: nat)
    requires Run(run) && k < |run| && i < |run[k].svcs| && run[k].svcs[i].kind != Local
    ensures var v, ps := run[k].svcs[i], Own(run[k].link.out, Stream(i));
            && Carried(ps) <= v.log.read
            && ((exists p :: p in ps && p.command == CMD_WRTE) ==>
                  exists j :: 0 <= j < k && PumpStartsAt(run, j, i) && run[j].shake.maxPayload <= MAX_WRITE_PAYLOAD &&
                    forall p :: p in ps && p.command == CMD_WRTE ==> 1 <= |p.payload| <= run[j].shake.maxPayload)
  {
    var v := run[k].svcs[i];
    ForwardedWithinBuffer(run, k, i);
    if v.buf != [] {
      var j := BufferIsLimit(run, k, i);
      RunKeepsInv(run, j);
    }
  }

  lemma ForwardedWithinBuffer(run: seq<Session>, k: nat, i: nat)
    requires Run(run) && k < |run| && i < |run[k].svcs| && run[k].svcs[i].kind != Local
    ensures var v, ps := run[k].svcs[i], Own(run[k].link.out, Stream(i));
            Carried(ps) <= v.log.read && forall p :: p in ps && p.command == CMD_WRTE ==> 1 <= |p.payload| <= |v.buf|
  {
    var v := run[k].svcs[i];
    RunKeepsInv(run, k);
    RunKeepsLogged(run, k);
    assert SvcInv(v) && LoggedAt(run[k], i);
    SpokenCarries(v);
    SpokenIsWellSpoken(v);
  }

  /** Seen by ID alone: as long as no local ID is given out twice, the WRTEs with a stream's ID carry its bytes only. */
  lemma ForwardedByID(run: seq<Session>, k: nat, i: nat)
    requires Run(run) && k < |run| && i < |run[k].svcs| && run[k].svcs[i].kind != Local && DistinctIDs(run[k])
    ensures var v := run[k].svcs[i];
            && Carried(Asked(run[k].link.out, v.localID)) <= v.log.read
            && (!Finishing(v.pc) && Pending(v) == [] ==> Carried(Asked(run[k].link.out, v.localID)) == v.log.read)
  {
    var v := run[k].svcs[i];
    RunKeepsInv(run, k);
    RunKeepsAskedByOwner(run, k);
    assert SvcInv(v);
    SpokenCarries(v);
  }

  // ---- All of them

  /** A pump has ended without its conn's bytes all written, and without having given up a write. */
  predicate LostBytes(v: Svc)
  {
    v.kind != Local && Finishing(v.pc) && !v.log.gaveUp && Payloads(v.log.wrtes) != v.log.read
  }

  lemma StepLosesNothing(v: Svc, c: Choice, m: uint32)
    requires SvcInv(v) && CanStep(v, c) && LostBytes(StepSvc(v, c, m))
    ensures LostBytes(v)
  {
    if v.pc.Reading? {
      ReadLosesNothing(v, c, m);
    } else if Finishing(v.pc) {
      EndingFrame(v, c, m);
    } else {
      OthersKeepBytes(v, c, m);
      CaughtUp(v);
    }
  }

  lemma CaughtUp(v: Svc)
    requires SvcInv(v) && !Finishing(v.pc) && Pending(v) == []
    ensures v.kind != Local ==> Payloads(v.log.wrtes) == v.log.read
  {
    assert Payloads(v.log.wrtes) + [] == Payloads(v.log.wrtes);
  }

  /** Loading with bytes pending, a stream goes on or gives up; otherwise it has none pending. */
  lemma OthersKeepBytes(v: Svc, c: Choice, m: uint32)
    requires !Finishing(v.pc) && !v.pc.Reading? && CanStep(v, c) && LostBytes(StepSvc(v, c, m))
    ensures !v.pc.Loading?
    ensures StepSvc(v, c, m).log.wrtes == v.log.wrtes && StepSvc(v, c, m).log.read == v.log.read
    ensures StepSvc(v, c, m).kind == v.kind
  {
  }

  lemma ReadLosesNothing(v: Svc, c: Choice, m: uint32)
    requires SvcInv(v) && CanStep(v, c) && v.pc.Reading?
    ensures !LostBytes(StepSvc(v, c, m))
  {
    assert Payloads(v.log.wrtes) + [] == Payloads(v.log.wrtes) && v.log.read + [] == v.log.read;
  }

  lemma SaidLosesNothing(v: Svc, o: Outcome)
    requires Speaking(v) && LostBytes(Said(v, o)) && o == Sent
    ensures LostBytes(v)
  {
    if v.pc.Parting? {
      PartingKeepsBytes(v, o);
    } else {
      SentGoesOn(v);
    }
  }

  lemma PartingKeepsBytes(v: Svc, o: Outcome)
    requires v.pc.Parting?
    ensures var w := Said(v, o);
            w.log.wrtes == v.log.wrtes && w.log.read == v.log.read && w.kind == v.kind && w.log.gaveUp == v.log.gaveUp
  {
  }

  lemma SentGoesOn(v: Svc)
    requires Speaking(v) && !v.pc.Parting?
    ensures !Finishing(Said(v, Sent).pc)
  {
  }

  lemma PassiveLosesNothing(s: Session, a: Action)
    requires Enabled(s, a) && Effect(s, a).Update? && !a.Say? && !a.Internal? && LostBytes(Effect(s, a).v)
    ensures LostBytes(s.svcs[Effect(s, a).i])
  {
    if a.LoopStep? {
      LoopedLosesNothing(s.svcs[s.loop.i], s.loop, s.client.taken);
    } else {
      var v, w := s.svcs[Effect(s, a).i], Effect(s, a).v;
      assert w.log.wrtes == v.log.wrtes && w.log.read == v.log.read && w.log.gaveUp == v.log.gaveUp;
    }
  }

  lemma LoopedLosesNothing(v: Svc, loop: LoopPc, taken: nat)
    requires LostBytes(Looped(v, loop, taken))
    ensures LostBytes(v)
  {
    var w := Looped(v, loop, taken);
    assert w.log.wrtes == v.log.wrtes && w.log.read == v.log.read && w.log.gaveUp == v.log.gaveUp;
  }

  /** Bytes are lost without a write given up only when the session is closed or its connection has failed. */
  ghost predicate LosesOnlyOnEnd(s: Session)
  {
    forall i :: 0 <= i < |s.svcs| && LostBytes(s.svcs[i]) ==> s.link.closed || s.link.broken
  }

  lemma StepKeepsLosses(s: Session, a: Action)
    requires AllStreams(s) && LosesOnlyOnEnd(s) && Enabled(s, a)
    ensures LosesOnlyOnEnd(Apply(s, a))
  {
    var t := Apply(s, a);
    EffectIsAll(s, a);
    EffectOnLog(s, a, Stream(0));
    forall i | 0 <= i < |t.svcs| && LostBytes(t.svcs[i]) ensures t.link.closed || t.link.broken {
      if i < |s.svcs| && Effect(s, a).Update? && Effect(s, a).i == i {
        assert SvcInv(s.svcs[i]);
        OwnEffectLoses(s, a);
      }
    }
  }

  lemma OwnEffectLoses(s: Session, a: Action)
    requires Enabled(s, a) && Effect(s, a).Update? && SvcInv(s.svcs[Effect(s, a).i]) && LostBytes(Effect(s, a).v)
    ensures LostBytes(s.svcs[Effect(s, a).i]) || Apply(s, a).link.closed || Apply(s, a).link.broken
  {
    match a {
      case Internal(i, c) => StepLosesNothing(s.svcs[i], c, s.shake.maxPayload);
      case Say(i, o) =>
        if o == Sent {
          SaidLosesNothing(s.svcs[i], o);
        }
      case _ => PassiveLosesNothing(s, a);
    }
  }

  lemma {:induction false} RunKeepsLosses(run: seq<Session>, k: nat)
    requires Run(run) && k < |run|
    ensures LosesOnlyOnEnd(run[k])
  {
    if k > 0 {
      RunKeepsLosses(run, k - 1);
      RunKeepsInv(run, k - 1);
      var a := StepOf(run, k);
      StepKeepsLosses(run[k - 1], a);
    }
  }

  /**
   * While the session is open and its connection whole, a finished stream that never gave up a write, for want of a
   * remote ID or because it was closed while waiting for a token, has forwarded every byte its conn gave.
   */
  lemma AllForwarded(run: seq<Session>, k: nat, i: nat)
    requires Run(run) && k < |run| && i < |run[k].svcs| && run[k].svcs[i].kind != Local && run[k].svcs[i].pc.Finished?
    requires !run[k].svcs[i].log.gaveUp && !run[k].link.closed && !run[k].link.broken
    ensures Carried(Own(run[k].link.out, Stream(i))) == run[k].svcs[i].log.read
  {
    var v := run[k].svcs[i];
    RunKeepsInv(run, k);
    RunKeepsLogged(run, k);
    RunKeepsLosses(run, k);
    assert SvcInv(v) && LoggedAt(run[k], i) && !LostBytes(v);
    SpokenCarries(v);
  }

  // ---- From the client to the conn

  /** The payloads of the WRTEs for the bridge's stream `id`, end to end. */
  function WrittenTo(ps: seq<Packet>, id: uint32): seq<byte>
  {
    if ps == [] then [] else WrittenTo(ps[..|ps| - 1], id) + PayloadTo(ps[|ps| - 1], id)
  }

  function PayloadTo(p: Packet, id: uint32): seq<byte>
  {
    if p.command == CMD_WRTE && p.arg1 == id then p.payload else []
  }

  lemma WrittenSnoc(ps: seq<Packet>, p: Packet, id: uint32)
    ensures WrittenTo(ps + [p], id) == WrittenTo(ps, id) + PayloadTo(p, id)
  {
    assert (ps + [p])[..|ps|] == ps;
  }

  /** What the conn of stream v is due: the WRTEs for its ID taken since it was registered. */
  function Due(s: Session, v: Svc): seq<byte>
  {
    WrittenTo(TakenSince(s, v), v.localID)
  }

  predicate InHand(s: Session, i: nat)
  {
    s.loop.Delivering? && s.loop.i == i
  }

  ghost predicate Delivered(s: Session)
  {
    && s.client.taken <= |s.client.sent| && (s.loop.Delivering? ==> s.loop.i < |s.svcs|)
    && forall i :: 0 <= i < |s.svcs| ==> DeliveredTo(s, i)
  }

  /** What the read loop holds for stream i. */
  function Hand(s: Session, i: nat): Option<seq<byte>>
  {
    if InHand(s, i) then Some(s.loop.payload) else None
  }

  ghost predicate DeliveredTo(s: Session, i: nat)
    requires i < |s.svcs|
  {
    && s.svcs[i].log.since <= s.client.taken
    && DeliveryOk(s.svcs[i], Due(s, s.svcs[i]), Hand(s, i), InMap(s, i, s.svcs[i].localID) && !s.loop.Stopped?)
  }

  /** The conn has a prefix of what it is due; all of it while the stream is registered and the loop runs. */
  ghost predicate DeliveryOk(v: Svc, due: seq<byte>, hand: Option<seq<byte>>, current: bool)
  {
    && v.log.delivered <= due && (v.pc.Fresh? ==> v.log.delivered == [] && hand.None?)
    && match hand
       case Some(payload) => v.log.delivered + payload == due
       case None => current ==> v.log.delivered == due
  }

  /** Only conn.Write's result changes what was delivered. */
  lemma EffectOnDelivered(s: Session, a: Action)
    requires Enabled(s, a) && Effect(s, a).Update?
    ensures var v, w := s.svcs[Effect(s, a).i], Effect(s, a).v;
            w.log.delivered == v.log.delivered + if a.Deliver? then s.loop.payload[..a.n] else []
  {
    match a {
      case Internal(i, c) => StepOnDelivered(s.svcs[i], c, s.shake.maxPayload);
      case _ =>
    }
  }

  lemma StepOnDelivered(v: Svc, c: Choice, m: uint32)
    requires CanStep(v, c)
    ensures StepSvc(v, c, m).log.delivered == v.log.delivered
  {
  }

  lemma LoopAfter(s: Session, a: Action, i: nat)
    requires Enabled(s, a)
    ensures var t := Apply(s, a);
            && (InHand(t, i) <==> if a.Take? then
                  var p := s.client.sent[s.client.taken];
                  p.command == CMD_WRTE && p.arg1 in s.table && s.table[p.arg1] == i
                else InHand(s, i) && !a.Deliver?)
            && (InHand(t, i) && !a.Take? ==> t.loop == s.loop)
            && (InHand(t, i) && a.Take? ==> t.loop.payload == s.client.sent[s.client.taken].payload)
            && (s.loop.Stopped? ==> t.loop.Stopped?)
            && (a.Deliver? && !t.loop.Stopped? ==> a.n == |s.loop.payload|)
  {
  }

  lemma TakeDelivers(s: Session, a: Action, i: nat)
    requires MapOk(s) && Delivered(s) && Enabled(s, a) && a.Take? && i < |s.svcs|
    ensures i < |Apply(s, a).svcs| && DeliveredTo(Apply(s, a), i)
  {
    var t, v, p := Apply(s, a), s.svcs[i], s.client.sent[s.client.taken];
    EffectIsAll(s, a);
    LoopAfter(s, a, i);
    ActionOnLoop(s, a, i);
    assert DeliveredTo(s, i);
    assert TakenSince(t, v) == TakenSince(s, v) + [p];
    WrittenSnoc(TakenSince(s, v), p, v.localID);
    if InMap(t, i, v.localID) {
      MapStep(s, a, i);
    }
  }

  /** conn.Write was given the payload the loop holds for stream i. */
  lemma HandDelivers(s: Session, a: Action, i: nat)
    requires Delivered(s) && Enabled(s, a) && a.Deliver? && i == s.loop.i
    ensures i < |Apply(s, a).svcs| && DeliveredTo(Apply(s, a), i)
  {
    var t, v, payload := Apply(s, a), s.svcs[i], s.loop.payload;
    EffectIsAll(s, a);
    LoopAfter(s, a, i);
    assert DeliveredTo(s, i) && Due(t, t.svcs[i]) == Due(s, v);
    CutIsPrefix(v.log.delivered, payload, a.n, []);
    assert v.log.delivered + payload + [] == v.log.delivered + payload && payload[..|payload|] == payload;
  }

  /** What an action that is not about stream i's deliveries leaves of them. */
  lemma OtherLeavesDue(s: Session, a: Action, i: nat)
    requires Enabled(s, a) && !a.Take? && i < |s.svcs| && s.client.taken <= |s.client.sent|
    requires !(Registers(s, a) && Effect(s, a).i == i) && !(a.Deliver? && i == s.loop.i)
    ensures i < |Apply(s, a).svcs|
    ensures var v, w := s.svcs[i], Apply(s, a).svcs[i];
            && w.log.since == v.log.since && w.log.delivered == v.log.delivered && (v.pc.Fresh? <==> w.pc.Fresh?)
            && Due(Apply(s, a), w) == Due(s, v) && s.client.taken == Apply(s, a).client.taken && w.localID == v.localID
  {
    var t, v := Apply(s, a), s.svcs[i];
    EffectIsAll(s, a);
    ActionOnLoop(s, a, i);
    if Effect(s, a).Update? && Effect(s, a).i == i {
      EffectOnAcks(s, a);
      EffectOnDelivered(s, a);
    }
    assert v.log.since <= s.client.taken ==>
      s.client.sent[v.log.since..s.client.taken] == t.client.sent[v.log.since..s.client.taken];
  }

  lemma OtherDelivers(s: Session, a: Action, i: nat)
    requires MapOk(s) && Delivered(s) && Enabled(s, a) && !a.Take? && i < |s.svcs|
    requires !(Registers(s, a) && Effect(s, a).i == i) && !(a.Deliver? && i == s.loop.i)
    ensures i < |Apply(s, a).svcs| && DeliveredTo(Apply(s, a), i)
  {
    OtherLeavesDue(s, a, i);
    LoopAfter(s, a, i);
    assert DeliveredTo(s, i);
    if InMap(Apply(s, a), i, s.svcs[i].localID) {
      MapStep(s, a, i);
    }
  }

  lemma RegisterDelivers(s: Session, a: Action)
    requires Delivered(s) && Enabled(s, a) && Registers(s, a)
    ensures Effect(s, a).i < |Apply(s, a).svcs| && DeliveredTo(Apply(s, a), Effect(s, a).i)
  {
    var t, i := Apply(s, a), Effect(s, a).i;
    EffectIsAll(s, a);
    LoopAfter(s, a, i);
    ActionOnLoop(s, a, i);
    assert DeliveredTo(s, i);
    EffectOnAcks(s, a);
    assert TakenSince(t, t.svcs[i]) == [];
  }

  lemma StepDeliversTo(s: Session, a: Action, i: nat)
    requires MapOk(s) && Delivered(s) && Enabled(s, a) && i < |Apply(s, a).svcs|
    ensures DeliveredTo(Apply(s, a), i)
  {
    if i >= |s.svcs| {
      NewcomerUndelivered(s, a);
    } else if a.Take? {
      TakeDelivers(s, a, i);
    } else if Registers(s, a) && Effect(s, a).i == i {
      RegisterDelivers(s, a);
    } else if a.Deliver? && i == s.loop.i {
      HandDelivers(s, a, i);
    } else {
      OtherDelivers(s, a, i);
    }
  }

  lemma StepKeepsHand(s: Session, a: Action)
    requires MapOk(s) && Delivered(s) && Enabled(s, a)
    ensures var t := Apply(s, a);
            t.client.taken <= |t.client.sent| && (t.loop.Delivering? ==> t.loop.i < |s.svcs| <= |t.svcs|)
  {
    EffectIsAll(s, a);
    ActionOnLoop(s, a, 0);
    if Apply(s, a).loop.Delivering? {
      LoopAfter(s, a, Apply(s, a).loop.i);
    }
  }

  lemma StepKeepsDelivered(s: Session, a: Action)
    requires MapOk(s) && Delivered(s) && Enabled(s, a)
    ensures Delivered(Apply(s, a))
  {
    var t := Apply(s, a);
    StepKeepsHand(s, a);
    forall i | 0 <= i < |t.svcs| ensures DeliveredTo(t, i) {
      StepDeliversTo(s, a, i);
    }
  }

  lemma NewcomerUndelivered(s: Session, a: Action)
    requires MapOk(s) && Delivered(s) && Enabled(s, a)
    ensures |Apply(s, a).svcs| <= |s.svcs| + 1
    ensures |Apply(s, a).svcs| == |s.svcs| + 1 ==> DeliveredTo(Apply(s, a), |s.svcs|)
  {
    EffectIsAll(s, a);
    LoopAfter(s, a, |s.svcs|);
    StepKeepsMap(s, a);
  }

  lemma {:induction false} RunKeepsDelivered(run: seq<Session>, k: nat)
    requires Run(run) && k < |run|
    ensures Delivered(run[k])
  {
    if k > 0 {
      RunKeepsDelivered(run, k - 1);
      NextKeepsDelivered(run, k);
    }
  }

  lemma NextKeepsDelivered(run: seq<Session>, k: nat)
    requires Run(run) && 0 < k < |run| && Delivered(run[k - 1])
    ensures Delivered(run[k])
  {
    assert MapOk(run[k - 1]) by { RunKeepsInv(run, k - 1); }
    var a := StepOf(run, k);
    StepKeepsDelivered(run[k - 1], a);
  }

  /**
   * In every run the bytes a stream's conn has accepted are a prefix of the payloads of the client's WRTEs for
   * its ID, taken since it was registered; and all of them whenever it is registered and the read loop is idle.
   */
  lemma DeliveredIsPrefixOfWritten(run: seq<Session>, k: nat, i: nat)
    requires Run(run) && k < |run| && i < |run[k].svcs|
    ensures var s, v := run[k], run[k].svcs[i];
            && v.log.delivered <= WrittenTo(TakenSince(s, v), v.localID)
            && (s.loop.Idle? && InMap(s, i, v.localID) ==> v.log.delivered == WrittenTo(TakenSince(s, v), v.localID))
  {
    RunKeepsDelivered(run, k);
    assert DeliveredTo(run[k], i);
  }
}
