/** What every stream and the session's tables satisfy in every run, whatever the client does. */
module StreamInvariant {
  import opened Bytes
  import opened Adbwire
  import opened Emissions
  import opened Multiplexer

  // ---- One stream

  predicate Early(pc: Pc)
  {
    pc.Fresh? || pc.Dialing? || pc.Handling? || pc.Attaching? || pc.Marking? || pc.Greeting?
  }

  /** finish has run past removeService. */
  predicate Left(pc: Pc)
  {
    pc.Checking? || pc.Deciding? || pc.Choosing? || pc.Parting? || pc.Finished?
  }

  predicate Finishing(pc: Pc)
  {
    pc.Closing? || pc.Leaving? || Left(pc)
  }

  function Payloads(ps: seq<Packet>): seq<byte>
  {
    if ps == [] then [] else Payloads(ps[..|ps| - 1]) + ps[|ps| - 1].payload
  }

  /** The bytes read and not yet written: a slice of the one buffer. */
  function Pending(v: Svc): seq<byte>
  {
    if (v.pc.Loading? || v.pc.Writing?) && v.pc.n <= |v.buf| then v.buf[..v.pc.n] else []
  }

  /** The OPENs and WRTEs the stream has written. */
  function Requests(v: Svc): nat
  {
    |v.log.wrtes| + if v.kind == Outbound then |v.log.greeting| else 0
  }

  function Bit(b: bool): nat { if b then 1 else 0 }

  predicate IsGreeting(v: Svc, p: Packet)
  {
    if v.kind == Outbound then p == Packet(CMD_OPEN, v.localID, 0, v.name + [0])
    else p.command == CMD_OKAY && p.arg0 == v.localID && p.payload == [] && (p.arg1 == 0 || p.arg1 == v.remoteID)
  }

  predicate IsWrte(v: Svc, p: Packet)
  {
    && p.command == CMD_WRTE && p.arg0 == v.localID && p.arg1 == v.remoteID != 0
    && if v.kind == Local then p.payload == v.buf else 1 <= |p.payload| <= |v.buf|
  }

  predicate IsParting(v: Svc, p: Packet)
  {
    p.command == CMD_CLSE && (p.arg0 == 0 || p.arg0 == v.localID) && (p.arg1 == 0 || p.arg1 == v.remoteID) &&
      p.payload == []
  }

  /** What holds of a stream wherever its goroutine is. */
  ghost predicate Control(v: Svc)
  {
    && |v.log.greeting| <= 1 && |v.log.parting| <= 1
    && (v.log.greeting == [] ==> v.log.wrtes == []) && (v.kind == Local ==> |v.log.wrtes| <= 1)
    && (v.kind != Local ==> |v.buf| <= MAX_WRITE_PAYLOAD)
    && At(v)
  }

  /** What holds of it at each program counter. */
  ghost predicate At(v: Svc)
  {
    match v.pc
    case Fresh => Untouched(v)
    case Dialing => Untouched(v) && v.kind == Inbound
    case Handling => Untouched(v) && v.kind == Local
    case Attaching => Untouched(v) && v.kind == Outbound
    case Marking => Silent(v) && v.kind != Outbound
    case Greeting(_) => Silent(v) && (v.kind != Outbound ==> v.isOpen)
    case Starting => Talking(v) && v.kind != Local && v.log.wrtes == [] && v.buf == []
    case Reading => Talking(v) && v.kind != Local
    case Loading(n, next) => Talking(v) && SliceOk(v, n, next)
    case Writing(remote, n, next) => Talking(v) && SliceOk(v, n, next)
    case Waiting(next) =>
      && Talking(v)
      && if next == ToPump then v.kind == Outbound && v.log.wrtes == [] && v.buf == []
         else v.log.wrtes != [] && (v.kind == Local ==> next == ToFinish)
    case Closing => v.log.parting == []
    case Leaving => v.log.parting == [] && v.done
    case Checking => v.log.parting == [] && v.done
    case Deciding(_) => v.log.parting == [] && v.done
    case Choosing(_) => v.log.parting == [] && v.done
    case Parting(_, _) => v.log.parting == [] && v.done
    case Finished(silent) => (silent ==> v.log.parting == []) && v.done
  }

  ghost predicate Silent(v: Svc)
  {
    v.log.greeting == [] && v.log.parting == [] && v.log.consumed == 0 && (v.kind != Local ==> v.buf == [])
  }

  ghost predicate Untouched(v: Svc) { Silent(v) && v.buf == [] }

  ghost predicate Talking(v: Svc) { v.log.greeting != [] && v.log.parting == [] }

  predicate SliceOk(v: Svc, n: nat, next: Then)
  {
    && n <= |v.buf| && next != ToPump
    && if v.kind == Local then n == |v.buf| && next == ToFinish && v.log.wrtes == [] else 1 <= n
  }

  /** The packets written name the right streams, and what finish has loaded is what it will say. */
  ghost predicate Addressed(v: Svc)
  {
    && (forall p :: p in v.log.greeting ==> IsGreeting(v, p))
    && (forall p :: p in v.log.wrtes ==> IsWrte(v, p))
    && (forall p :: p in v.log.parting ==> IsParting(v, p))
    && (v.log.wrtes != [] ==> v.remoteID != 0)
    && (v.kind != Outbound && v.log.greeting != [] ==> v.isOpen)
    && match v.pc
       case Greeting(remote) => remote == 0 || remote == v.remoteID
       case Writing(remote, _, _) => remote == v.remoteID != 0
       case Deciding(remote) => (remote == 0 || remote == v.remoteID) && (remote == 0 ==> v.log.wrtes == [])
       case Choosing(remote) => remote == 0 || remote == v.remoteID
       case Parting(arg0, remote) => (remote == 0 || remote == v.remoteID) && (arg0 == 0 || arg0 == v.localID)
       case Finished(silent) => silent ==> v.log.wrtes == [] && (v.log.greeting == [] || v.kind == Outbound)
       case _ => true
  }

  /** The one buffer is never overwritten before its bytes are written: nothing is lost, doubled or moved. */
  ghost predicate Pumped(v: Svc)
  {
    v.kind == Local || if Finishing(v.pc) then Payloads(v.log.wrtes) <= v.log.read
                       else Payloads(v.log.wrtes) + Pending(v) == v.log.read
  }

  /** Tokens: what was asked, what was granted, what is in the channel. */
  ghost predicate Counted(v: Svc)
  {
    && v.log.consumed + Bit(v.token) + v.log.dropped == v.log.acks
    && if Finishing(v.pc) then Requests(v) <= v.log.consumed + 1 else Requests(v) == v.log.consumed + Bit(v.pc.Waiting?)
  }

  ghost predicate SvcInv(v: Svc)
  {
    Control(v) && Addressed(v) && Pumped(v) && Counted(v)
  }

  lemma PayloadsSnoc(ps: seq<Packet>, p: Packet)
    ensures Payloads(ps + [p]) == Payloads(ps) + p.payload
  {
    assert (ps + [p])[..|ps|] == ps;
  }

  lemma StepKeepsInv(v: Svc, c: Choice, m: uint32)
    requires SvcInv(v) && CanStep(v, c) && m <= MAX_WRITE_PAYLOAD
    ensures SvcInv(StepSvc(v, c, m))
  {
    if Early(v.pc) {
      OpeningKeepsInv(v, c, m);
    } else if v.pc.Reading? {
      ReadKeepsInv(v, c, m);
    } else if v.pc.Closing? || v.pc.Checking? {
      CheckKeepsInv(v, c, m);
    } else if v.pc.Deciding? || v.pc.Choosing? {
      DecideKeepsInv(v, c, m);
    } else {
      PumpKeepsInv(v, c, m);
    }
  }

  lemma OpeningKeepsInv(v: Svc, c: Choice, m: uint32)
    requires SvcInv(v) && CanStep(v, c) && Early(v.pc)
    ensures SvcInv(StepSvc(v, c, m))
  {
    OpeningKeepsControl(v, c, m);
    OpeningKeepsCounts(v, c, m);
    OpeningKeepsAddressed(v, c, m);
  }

  lemma OpeningKeepsControl(v: Svc, c: Choice, m: uint32)
    requires Control(v) && CanStep(v, c) && Early(v.pc)
    ensures Control(StepSvc(v, c, m))
  {
  }

  lemma OpeningKeepsCounts(v: Svc, c: Choice, m: uint32)
    requires Control(v) && Pumped(v) && Counted(v) && CanStep(v, c) && Early(v.pc)
    ensures Pumped(StepSvc(v, c, m)) && Counted(StepSvc(v, c, m))
  {
    var w := StepSvc(v, c, m);
    assert w.log == v.log && w.kind == v.kind;
  }

  lemma OpeningKeepsAddressed(v: Svc, c: Choice, m: uint32)
    requires Control(v) && Addressed(v) && CanStep(v, c) && Early(v.pc)
    ensures Addressed(StepSvc(v, c, m))
  {
  }

  /** What a step of the goroutine alone leaves as it was: its identity, its packets, what others count of it. */
  lemma StepFrame(v: Svc, c: Choice, m: uint32)
    requires CanStep(v, c)
    ensures var w := StepSvc(v, c, m);
            && w.kind == v.kind && w.localID == v.localID && w.name == v.name && w.remoteID == v.remoteID
            && w.log == v.log.(read := w.log.read, consumed := w.log.consumed, gaveUp := w.log.gaveUp)
            && !v.pc.Fresh? && !w.pc.Fresh? && w.pc != Finished(false)
  {
    if Early(v.pc) || v.pc.Starting? {
      EarlyFrame(v, c, m);
    } else if Finishing(v.pc) {
      EndingFrame(v, c, m);
    } else {
      PumpFrame(v, c, m);
    }
  }

  lemma EarlyFrame(v: Svc, c: Choice, m: uint32)
    requires CanStep(v, c) && (Early(v.pc) || v.pc.Starting?)
    ensures var w := StepSvc(v, c, m);
            && w.kind == v.kind && w.localID == v.localID && w.name == v.name && w.remoteID == v.remoteID
            && w.log == v.log && !v.pc.Fresh? && !w.pc.Fresh? && !w.pc.Finished?
  {
  }

  lemma EndingFrame(v: Svc, c: Choice, m: uint32)
    requires CanStep(v, c) && Finishing(v.pc)
    ensures var w := StepSvc(v, c, m);
            && w.kind == v.kind && w.localID == v.localID && w.name == v.name && w.remoteID == v.remoteID
            && w.log == v.log && !v.pc.Fresh? && !w.pc.Fresh? && w.pc != Finished(false)
  {
    if v.pc.Deciding? || v.pc.Choosing? {
      assert StepSvc(v, c, m) == v.(pc := StepSvc(v, c, m).pc);
    } else {
      assert v.pc.Closing? || v.pc.Checking?;
    }
  }

  lemma PumpFrame(v: Svc, c: Choice, m: uint32)
    requires CanStep(v, c) && !Early(v.pc) && !v.pc.Starting? && !Finishing(v.pc)
    ensures var w := StepSvc(v, c, m);
            && w.kind == v.kind && w.localID == v.localID && w.name == v.name && w.remoteID == v.remoteID
            && w.log == v.log.(read := w.log.read, consumed := w.log.consumed, gaveUp := w.log.gaveUp)
            && !v.pc.Fresh? && !w.pc.Fresh? && !w.pc.Finished?
  {
  }

  lemma ReadKeepsInv(v: Svc, c: Choice, m: uint32)
    requires SvcInv(v) && CanStep(v, c) && v.pc.Reading?
    ensures SvcInv(StepSvc(v, c, m))
  {
    ReadKeepsControl(v, c, m);
    ReadKeepsAddressed(v, c, m);
    assert (c.data + v.buf[|c.data|..])[..|c.data|] == c.data;
  }

  lemma ReadKeepsControl(v: Svc, c: Choice, m: uint32)
    requires Control(v) && Counted(v) && CanStep(v, c) && v.pc.Reading?
    ensures Control(StepSvc(v, c, m)) && Counted(StepSvc(v, c, m))
  {
  }

  lemma ReadKeepsAddressed(v: Svc, c: Choice, m: uint32)
    requires Control(v) && Addressed(v) && CanStep(v, c) && v.pc.Reading?
    ensures Addressed(StepSvc(v, c, m))
  {
    var w := StepSvc(v, c, m);
    assert |w.buf| == |v.buf| && w.log.wrtes == v.log.wrtes && w.remoteID == v.remoteID && w.localID == v.localID;
    forall p | p in w.log.wrtes ensures IsWrte(w, p) {
      assert IsWrte(v, p);
    }
  }

  lemma PumpKeepsInv(v: Svc, c: Choice, m: uint32)
    requires SvcInv(v) && CanStep(v, c) && m <= MAX_WRITE_PAYLOAD
    requires v.pc.Starting? || v.pc.Loading? || v.pc.Waiting?
    ensures SvcInv(StepSvc(v, c, m))
  {
    match v.pc {
      case Starting => BufferKeepsInv(v, c, m);
      case Loading(_, _) => LoadKeepsInv(v, c, m);
      case _ => WaitKeepsInv(v, c, m);
    }
  }

  lemma BufferKeepsInv(v: Svc, c: Choice, m: uint32)
    requires SvcInv(v) && CanStep(v, c) && m <= MAX_WRITE_PAYLOAD && v.pc.Starting?
    ensures SvcInv(StepSvc(v, c, m))
  {
  }

  lemma LoadKeepsInv(v: Svc, c: Choice, m: uint32)
    requires SvcInv(v) && CanStep(v, c) && v.pc.Loading?
    ensures SvcInv(StepSvc(v, c, m))
  {
    if v.remoteID == 0 {
      GivingUpKeepsInv(v);
    } else {
      LoadedKeepsInv(v);
    }
  }

  lemma LoadedKeepsInv(v: Svc)
    requires SvcInv(v) && v.pc.Loading? && v.remoteID != 0
    ensures SvcInv(v.(pc := Writing(v.remoteID, v.pc.n, v.pc.next)))
  {
    var w := v.(pc := Writing(v.remoteID, v.pc.n, v.pc.next));
    forall p | p in w.log.wrtes ensures IsWrte(w, p) {
      assert IsWrte(v, p);
    }
  }

  lemma WaitKeepsInv(v: Svc, c: Choice, m: uint32)
    requires SvcInv(v) && CanStep(v, c) && v.pc.Waiting?
    ensures SvcInv(StepSvc(v, c, m))
  {
    if c.Cancelled? {
      GivingUpKeepsInv(v);
    } else {
      TakenKeepsInv(v, c, m);
    }
  }

  lemma TakenKeepsInv(v: Svc, c: Choice, m: uint32)
    requires SvcInv(v) && CanStep(v, c) && v.pc.Waiting? && c.Granted?
    ensures SvcInv(StepSvc(v, c, m))
  {
    var w := StepSvc(v, c, m);
    forall p | p in w.log.wrtes ensures IsWrte(w, p) {
      assert IsWrte(v, p);
    }
  }

  lemma GivingUpKeepsInv(v: Svc)
    requires SvcInv(v) && (v.pc.Loading? || v.pc.Waiting?)
    ensures SvcInv(v.(log := v.log.(gaveUp := true), pc := Closing))
  {
    var w := v.(log := v.log.(gaveUp := true), pc := Closing);
    forall p | p in w.log.wrtes ensures IsWrte(w, p) {
      assert IsWrte(v, p);
    }
  }

  lemma CheckKeepsInv(v: Svc, c: Choice, m: uint32)
    requires SvcInv(v) && CanStep(v, c) && (v.pc.Closing? || v.pc.Checking?)
    ensures SvcInv(StepSvc(v, c, m))
  {
  }

  lemma DecideKeepsInv(v: Svc, c: Choice, m: uint32)
    requires SvcInv(v) && CanStep(v, c) && (v.pc.Deciding? || v.pc.Choosing?)
    ensures SvcInv(StepSvc(v, c, m))
  {
  }

  lemma SaidKeepsInv(v: Svc, o: Outcome)
    requires SvcInv(v) && Speaking(v)
    ensures SvcInv(Said(v, o))
  {
    match v.pc {
      case Greeting(_) => GreetingKeepsInv(v, o);
      case Parting(_, _) => PartingKeepsInv(v, o);
      case _ =>
        WritingKeepsControl(v, o);
        WritingKeepsAddressed(v, o);
        WritingKeepsPumped(v, o);
    }
  }

  lemma GreetingKeepsInv(v: Svc, o: Outcome)
    requires SvcInv(v) && v.pc.Greeting?
    ensures SvcInv(Said(v, o))
  {
  }

  lemma PartingKeepsInv(v: Svc, o: Outcome)
    requires SvcInv(v) && v.pc.Parting?
    ensures SvcInv(Said(v, o))
  {
  }

  lemma WritingKeepsControl(v: Svc, o: Outcome)
    requires Control(v) && Counted(v) && Speaking(v) && v.pc.Writing?
    ensures Control(Said(v, o)) && Counted(Said(v, o))
  {
  }

  lemma WritingKeepsAddressed(v: Svc, o: Outcome)
    requires Control(v) && Addressed(v) && Speaking(v) && v.pc.Writing?
    ensures Addressed(Said(v, o))
  {
    var m, w := Message(v), Said(v, o);
    assert IsWrte(w, m);
    forall p | p in w.log.wrtes ensures IsWrte(w, p) {
      assert p in v.log.wrtes || p == m;
    }
  }

  lemma WritingKeepsPumped(v: Svc, o: Outcome)
    requires Pumped(v) && Speaking(v) && v.pc.Writing?
    ensures Pumped(Said(v, o))
  {
    var w := Said(v, o);
    if o == Refused {
      assert w.log.wrtes == v.log.wrtes;
    } else {
      PayloadsSnoc(v.log.wrtes, Message(v));
      assert Pending(w) == [] && Payloads(w.log.wrtes) == Payloads(v.log.wrtes) + Pending(v);
    }
  }

  lemma AckCasKeepsInv(v: Svc, remote: uint32)
    requires SvcInv(v)
    ensures SvcInv(AckCas(v, remote))
  {
  }

  lemma AckMarkKeepsInv(v: Svc)
    requires SvcInv(v)
    ensures SvcInv(AckMark(v))
  {
  }

  lemma AckTokenKeepsInv(v: Svc)
    requires SvcInv(v)
    ensures SvcInv(AckToken(v))
  {
  }

  lemma CloseKeepsInv(v: Svc)
    requires SvcInv(v)
    ensures SvcInv(CloseSvc(v))
  {
  }

  lemma StartKeepsInv(v: Svc, taken: nat)
    requires SvcInv(v) && v.pc.Fresh?
    ensures SvcInv(Started(v, taken))
  {
  }

  lemma LeaveKeepsInv(v: Svc)
    requires SvcInv(v) && v.pc.Leaving?
    ensures SvcInv(v.(pc := Checking))
  {
  }

  lemma FedKeepsInv(v: Svc, data: seq<byte>)
    requires SvcInv(v)
    ensures SvcInv(Fed(v, data))
  {
  }

  // ---- The session

  datatype Change = Nothing | Update(i: nat, v: Svc) | Creation(v: Svc)

  /** What an action does to the streams: at most one of them changes, or one is created. */
  function Effect(s: Session, a: Action): Change
    requires Enabled(s, a)
  {
    match a
    case Internal(i, c) => Update(i, StepSvc(s.svcs[i], c, s.shake.maxPayload))
    case Say(i, o) => Update(i, Said(s.svcs[i], o))
    case Leave(i) => Update(i, s.svcs[i].(pc := Checking))
    case Register(i) => Update(i, Started(s.svcs[i], s.client.taken))
    case CloseOne(i) => Update(i, CloseSvc(s.svcs[i]))
    case Deliver(n, _) => Update(s.loop.i, Fed(s.svcs[s.loop.i], s.loop.payload[..n]))
    case LoopStep => Update(s.loop.i, Looped(s.svcs[s.loop.i], s.loop, s.client.taken))
    case Accept(name) => Creation(NewSvc(Outbound, s.nextLocalID, 0, name))
    case Take(_) => if Opens(s, s.client.sent[s.client.taken]) then Creation(Opening(s, s.client.sent[s.client.taken]))
                    else Nothing
    case _ => Nothing
  }

  /** What the read loop's own step does to the stream it handles. */
  function Looped(v: Svc, loop: LoopPc, taken: nat): Svc
  {
    match loop
    case Registering(_) => Started(v, taken)
    case Acking(_, remote, stage) => Acked(v, remote, stage)
    case _ => CloseSvc(v)
  }

  lemma EffectIsAll(s: Session, a: Action)
    requires Enabled(s, a)
    ensures match Effect(s, a)
            case Nothing => Apply(s, a).svcs == s.svcs
            case Update(i, v) => i < |s.svcs| && Apply(s, a).svcs == s.svcs[i := v]
            case Creation(v) => Apply(s, a).svcs == s.svcs + [v] && v.pc.Fresh? && v.localID == s.nextLocalID
  {
  }

  ghost predicate AllStreams(s: Session)
  {
    forall i :: 0 <= i < |s.svcs| ==> SvcInv(s.svcs[i])
  }

  /** A stream that putService has registered and removeService has not been asked to remove. */
  predicate Mapped(v: Svc)
  {
    !v.pc.Fresh? && !Left(v.pc)
  }

  /** The service map names streams that exist and are in use, under their own IDs. */
  ghost predicate Tables(s: Session)
  {
    MapOk(s) && Bounds(s)
  }

  ghost predicate MapOk(s: Session)
  {
    forall id :: id in s.table ==>
      s.table[id] < |s.svcs| && s.svcs[s.table[id]].localID == id && Mapped(s.svcs[s.table[id]])
  }

  ghost predicate Bounds(s: Session)
  {
    && 1 <= s.shake.maxPayload <= MAX_WRITE_PAYLOAD
    && s.client.taken <= |s.client.sent| && s.client.seen <= |s.link.out|
  }

  lemma EffectKeepsSvcInv(s: Session, a: Action)
    requires AllStreams(s) && Tables(s) && Enabled(s, a)
    ensures match Effect(s, a)
            case Nothing => true
            case Update(_, v) => SvcInv(v)
            case Creation(v) => SvcInv(v)
  {
    match a {
      case Internal(i, c) => StepKeepsInv(s.svcs[i], c, s.shake.maxPayload);
      case Say(i, o) => SaidKeepsInv(s.svcs[i], o);
      case Leave(i) => LeaveKeepsInv(s.svcs[i]);
      case Register(i) => StartKeepsInv(s.svcs[i], s.client.taken);
      case CloseOne(i) => CloseKeepsInv(s.svcs[i]);
      case Deliver(n, _) => FedKeepsInv(s.svcs[s.loop.i], s.loop.payload[..n]);
      case LoopStep => LoopedKeepsInv(s.svcs[s.loop.i], s.loop, s.client.taken);
      case _ =>
    }
  }

  lemma LoopedKeepsInv(v: Svc, loop: LoopPc, taken: nat)
    requires SvcInv(v) && (loop.Registering? ==> v.pc.Fresh?)
    ensures SvcInv(Looped(v, loop, taken))
  {
    match loop {
      case Registering(_) => StartKeepsInv(v, taken);
      case Acking(_, remote, CasRemote) => AckCasKeepsInv(v, remote);
      case Acking(_, _, MarkOpened) => AckMarkKeepsInv(v);
      case Acking(_, _, PutToken) => AckTokenKeepsInv(v);
      case _ => CloseKeepsInv(v);
    }
  }

  lemma StepKeepsStreams(s: Session, a: Action)
    requires AllStreams(s) && Tables(s) && Enabled(s, a)
    ensures AllStreams(Apply(s, a))
  {
    var t := Apply(s, a);
    EffectIsAll(s, a);
    EffectKeepsSvcInv(s, a);
    forall j | 0 <= j < |t.svcs| ensures SvcInv(t.svcs[j]) {
      assert j < |s.svcs| ==> SvcInv(s.svcs[j]);
    }
  }

  /** What no step changes about a stream. */
  predicate Steady(v: Svc, w: Svc)
  {
    && w.localID == v.localID && w.kind == v.kind && w.name == v.name
    && (v.pc.Fresh? <==> w.pc.Fresh?) && (Mapped(v) <==> Mapped(w))
  }

  lemma StepIsSteady(v: Svc, c: Choice, m: uint32)
    requires CanStep(v, c)
    ensures Steady(v, StepSvc(v, c, m))
  {
  }

  lemma SaidIsSteady(v: Svc, o: Outcome)
    requires Speaking(v)
    ensures Steady(v, Said(v, o))
  {
  }

  /** Nothing is put into the service map or taken out of it. */
  predicate Settled(s: Session, a: Action)
  {
    !a.Register? && !a.Leave? && !a.CloseDrain? && !(a.LoopStep? && s.loop.Registering?)
  }

  lemma EffectIsSteady(s: Session, a: Action)
    requires Enabled(s, a) && Settled(s, a) && Effect(s, a).Update?
    ensures Effect(s, a).i < |s.svcs| && Steady(s.svcs[Effect(s, a).i], Effect(s, a).v)
  {
    match a {
      case Internal(i, c) => StepIsSteady(s.svcs[i], c, s.shake.maxPayload);
      case Say(i, o) => SaidIsSteady(s.svcs[i], o);
      case _ =>
    }
  }

  lemma SettledKeepsTable(s: Session, a: Action)
    requires Enabled(s, a) && Settled(s, a)
    ensures Apply(s, a).table == s.table
  {
  }

  /** Steady changes keep the map in order. */
  lemma MapFrame(s: Session, t: Session, e: Change)
    requires MapOk(s) && t.table == s.table
    requires match e
             case Nothing => t.svcs == s.svcs
             case Update(i, v) => i < |s.svcs| && t.svcs == s.svcs[i := v] && Steady(s.svcs[i], v)
             case Creation(v) => t.svcs == s.svcs + [v]
    ensures MapOk(t)
  {
  }

  lemma StepKeepsMap(s: Session, a: Action)
    requires MapOk(s) && Enabled(s, a)
    ensures MapOk(Apply(s, a))
  {
    if Settled(s, a) {
      SettledKeepsTable(s, a);
      EffectIsAll(s, a);
      if Effect(s, a).Update? {
        EffectIsSteady(s, a);
      }
      MapFrame(s, Apply(s, a), Effect(s, a));
    } else {
      match a {
        case Register(i) => RegisteredKeepsMap(s, i);
        case LoopStep => RegisteredKeepsMap(s, s.loop.i);
        case Leave(_) => LeaveKeepsMap(s, a.i);
        case _ =>
      }
    }
  }

  lemma RegisteredKeepsMap(s: Session, i: nat)
    requires MapOk(s) && i < |s.svcs|
    ensures MapOk(Registered(s, i))
  {
  }

  lemma LeaveKeepsMap(s: Session, i: nat)
    requires MapOk(s) && Enabled(s, Leave(i))
    ensures MapOk(Apply(s, Leave(i)))
  {
  }

  lemma StepKeepsBounds(s: Session, a: Action)
    requires MapOk(s) && Bounds(s) && Enabled(s, a)
    ensures Bounds(Apply(s, a))
  {
    EffectIsAll(s, a);
  }

  /** Every state of every run. */
  lemma {:induction false} RunKeepsInv(run: seq<Session>, k: nat)
    requires Run(run) && k < |run|
    ensures AllStreams(run[k]) && Tables(run[k])
  {
    if k > 0 {
      RunKeepsInv(run, k - 1);
      var a := StepOf(run, k);
      StepKeepsStreams(run[k - 1], a);
      StepKeepsMap(run[k - 1], a);
      StepKeepsBounds(run[k - 1], a);
    }
  }
}
