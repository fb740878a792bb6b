/**
 Streams the client opens: each OPEN let through gets one stream, which keeps to the ID the client opened it under.
 */
module Openings {
  import opened Bytes
  import opened Adbwire
  import opened Emissions
  import opened Multiplexer
  import opened StreamInvariant
  import opened CloseDiscipline
  import opened Handshaking
  import WireFormats

  // ---- One stream

  predicate AllTo(ps: seq<Packet>, remote: uint32)
  {
    forall k :: 0 <= k < |ps| ==> ps[k].arg1 == remote
  }

  /** A CLSE under the stream's own ID once it was opened, which it is when it has greeted; else under 0. */
  predicate ClosesAs(v: Svc, arg0: uint32)
  {
    (arg0 == v.localID && v.isOpen) || (arg0 == 0 && v.log.greeting == [])
  }

  /** What it has loaded, and not said yet, is that ID too; and it does not end in silence. */
  predicate Loads(v: Svc, remote: uint32)
  {
    match v.pc
    case Greeting(r) => r == remote && v.isOpen
    case Writing(r, _, _) => r == remote
    case Deciding(r) => r == remote
    case Choosing(r) => r == remote
    case Parting(arg0, r) => r == remote && ClosesAs(v, arg0)
    case Finished(silent) => !silent
    case _ => true
  }

  /** A stream of this remote ID, which it has had from the first. */
  predicate Named(v: Svc, remote: uint32)
  {
    && v.remoteID == remote && v.kind != Outbound && Loads(v, remote)
    && AllTo(v.log.greeting, remote) && AllTo(v.log.wrtes, remote) && AllTo(v.log.parting, remote)
    && (v.log.greeting != [] ==> v.isOpen)
    && (forall k :: 0 <= k < |v.log.parting| ==> ClosesAs(v, v.log.parting[k].arg0))
  }

  lemma StepKeepsNamed(v: Svc, c: Choice, m: uint32, remote: uint32)
    requires Named(v, remote) && remote != 0 && CanStep(v, c) && Control(v)
    ensures Named(StepSvc(v, c, m), remote)
  {
    StepFrame(v, c, m);
    StepLoads(v, c, m, remote);
  }

  lemma StepLoads(v: Svc, c: Choice, m: uint32, remote: uint32)
    requires Loads(v, remote) && v.remoteID == remote != 0 && CanStep(v, c) && !v.pc.Attaching?
    requires v.log.greeting != [] ==> v.isOpen
    ensures Loads(StepSvc(v, c, m), remote) && (v.isOpen ==> StepSvc(v, c, m).isOpen)
  {
  }

  lemma SaidKeepsNamed(v: Svc, o: Outcome, remote: uint32)
    requires Named(v, remote) && Speaking(v) && Control(v)
    ensures Named(Said(v, o), remote)
  {
    match v.pc {
      case Greeting(_) => assert v.log.greeting == [] == v.log.parting && Message(v).arg1 == remote;
      case Parting(_, _) => assert v.log.parting == [];
      case Writing(_, _, _) => assert v.log.greeting != [] && Message(v).arg1 == remote;
    }
  }

  lemma AckedKeepsNamed(v: Svc, id: uint32, stage: AckStage, remote: uint32)
    requires Named(v, remote) && remote != 0
    ensures Named(Acked(v, id, stage), remote)
  {
  }

  lemma TouchKeepsNamed(v: Svc, data: seq<byte>, taken: nat, remote: uint32)
    requires Named(v, remote)
    ensures Named(CloseSvc(v), remote) && Named(Fed(v, data), remote)
    ensures Named(v.(pc := Checking), remote) && Named(Started(v, taken), remote)
  {
  }

  /** A stream that has its remote ID gives up only when it is closed while it waits for a token. */
  lemma GivesUpOnlyClosed(v: Svc, c: Choice, m: uint32)
    requires CanStep(v, c) && v.remoteID != 0 && !v.log.gaveUp
    ensures StepSvc(v, c, m).log.gaveUp ==> v.pc.Waiting? && v.done
  {
  }

  /** Everything a named stream has said goes to its ID; its data and its greeting come from its own. */
  lemma NamedSpeaks(v: Svc, remote: uint32)
    requires Named(v, remote) && SvcInv(v)
    ensures forall p :: p in Spoken(v.log) ==> p.arg1 == remote
    ensures forall p :: p in Spoken(v.log) ==> p.arg0 == v.localID || (p.command == CMD_CLSE && p.arg0 == 0)
    ensures v.log.greeting != [] ==> forall p :: p in Spoken(v.log) ==> p.arg0 == v.localID
    ensures !v.isOpen ==> forall p :: p in Spoken(v.log) ==> p.command == CMD_CLSE && p.arg0 == 0
  {
    forall p | p in Spoken(v.log)
      ensures p.arg1 == remote && (p.arg0 == v.localID || (p.command == CMD_CLSE && p.arg0 == 0))
      ensures v.log.greeting != [] ==> p.arg0 == v.localID
      ensures !v.isOpen ==> p.command == CMD_CLSE && p.arg0 == 0
    {
      if p in v.log.parting {
        var k :| 0 <= k < |v.log.parting| && v.log.parting[k] == p;
        assert ClosesAs(v, v.log.parting[k].arg0) && IsParting(v, p);
      } else if p in v.log.wrtes {
        assert IsWrte(v, p);
      } else {
        assert IsGreeting(v, p);
      }
    }
  }

  // ---- The session

  /** The OPEN that asks for a stream of this kind and name; a service that begins with "reverse:" is a local one. */
  predicate AsksFor(p: Packet, v: Svc)
  {
    && p.command == CMD_OPEN && p.payload == v.name + [0] && v.kind != Outbound
    && (v.kind == Local <==> WireFormats.Ascii("reverse:") <= v.name)
  }

  /** How many of the client's packets had been taken when the stream's OPEN had. */
  function TakenBy(s: Session, i: nat): nat
    requires i < |s.svcs|
  {
    if s.svcs[i].pc.Fresh? then s.client.taken else s.svcs[i].log.since
  }

  /** The n-th packet is the OPEN of this stream. */
  ghost predicate ArisesFrom(s: Session, i: nat, n: nat)
    requires i < |s.svcs|
  {
    && 0 < n <= s.client.taken <= |s.client.sent| && s.shake.authorized
    && AsksFor(s.client.sent[n - 1], s.svcs[i])
    && (s.client.sent[n - 1].arg0 != 0 ==> Named(s.svcs[i], s.client.sent[n - 1].arg0))
  }

  /** Unless it is a listener's, the stream has its OPEN; not yet registered, it is the one the read loop is at. */
  ghost predicate ArisenAt(s: Session, i: nat)
    requires i < |s.svcs|
  {
    s.svcs[i].kind != Outbound ==>
      (s.svcs[i].pc.Fresh? ==> s.loop == Registering(i)) && ArisesFrom(s, i, TakenBy(s, i))
  }

  ghost predicate Arisen(s: Session)
  {
    forall i :: 0 <= i < |s.svcs| ==> ArisenAt(s, i)
  }

  /** Only the read loop's own step takes it away from a stream it registers. */
  lemma RegisteringStays(s: Session, a: Action)
    requires Enabled(s, a) && s.loop.Registering? && !a.LoopStep?
    ensures Apply(s, a).loop == s.loop && Apply(s, a).client.taken == s.client.taken
  {
  }

  lemma ReverseIsSpelled()
    ensures WireFormats.Ascii("reverse:") == REVERSE_PREFIX
  {
  }

  /** What a step does to a stream that has its remote ID from the client. */
  lemma UpdateKeepsNamed(s: Session, a: Action, remote: uint32)
    requires Enabled(s, a) && Effect(s, a).Update? && Effect(s, a).i < |s.svcs| && remote != 0
    requires Control(s.svcs[Effect(s, a).i]) && Named(s.svcs[Effect(s, a).i], remote)
    ensures Named(Effect(s, a).v, remote)
  {
    match a {
      case Internal(i, c) => StepKeepsNamed(s.svcs[i], c, s.shake.maxPayload, remote);
      case Say(i, o) => SaidKeepsNamed(s.svcs[i], o, remote);
      case Deliver(n, _) => TouchKeepsNamed(s.svcs[s.loop.i], s.loop.payload[..n], 0, remote);
      case LoopStep => LoopedKeepsNamed(s.svcs[s.loop.i], s.loop, s.client.taken, remote);
      case Leave(i) => TouchKeepsNamed(s.svcs[i], [], 0, remote);
      case CloseOne(i) => TouchKeepsNamed(s.svcs[i], [], 0, remote);
      case _ =>
    }
  }

  lemma LoopedKeepsNamed(v: Svc, loop: LoopPc, taken: nat, remote: uint32)
    requires Named(v, remote) && remote != 0
    ensures Named(Looped(v, loop, taken), remote)
  {
    match loop {
      case Acking(_, id, stage) => AckedKeepsNamed(v, id, stage, remote);
      case _ => TouchKeepsNamed(v, [], taken, remote);
    }
  }

  /** What no step changes about it, and when its OPEN had been taken. */
  lemma UpdateKeepsOrigin(s: Session, a: Action)
    requires Enabled(s, a) && Effect(s, a).Update?
    ensures var e := Effect(s, a);
            && e.i < |s.svcs| && e.v.kind == s.svcs[e.i].kind && e.v.name == s.svcs[e.i].name
            && (e.v.pc.Fresh? ==> s.svcs[e.i].pc.Fresh?)
            && e.v.log.since == (if s.svcs[e.i].pc.Fresh? && !e.v.pc.Fresh? then s.client.taken
                                 else s.svcs[e.i].log.since)
            && (s.svcs[e.i].pc.Fresh? && s.loop == Registering(e.i) && a.LoopStep? ==> !e.v.pc.Fresh?)
  {
    match a {
      case Internal(i, c) => StepFrame(s.svcs[i], c, s.shake.maxPayload);
      case _ =>
    }
  }

  /** The packets taken stay, and so does the authorization. */
  lemma TakenStay(s: Session, a: Action)
    requires Enabled(s, a)
    ensures var t := Apply(s, a);
            && s.client.taken <= t.client.taken && s.client.sent <= t.client.sent
            && (s.client.taken <= |s.client.sent| ==> t.client.taken <= |t.client.sent|)
            && (s.shake.authorized ==> t.shake.authorized) && (!a.Take? ==> t.client.taken == s.client.taken)
  {
    if a.Take? {
      TakeFrame(s, a);
    } else {
      ShakeFrame(s, a);
    }
  }

  lemma ArisesOn(s: Session, t: Session, i: nat, n: nat)
    requires i < |s.svcs| && i < |t.svcs| && ArisesFrom(s, i, n)
    requires s.client.taken <= t.client.taken <= |t.client.sent| && s.client.sent <= t.client.sent
    requires t.shake.authorized && t.svcs[i].kind == s.svcs[i].kind && t.svcs[i].name == s.svcs[i].name
    requires var r := s.client.sent[n - 1].arg0; r != 0 && Named(s.svcs[i], r) ==> Named(t.svcs[i], r)
    ensures ArisesFrom(t, i, n)
  {
    assert t.client.sent[n - 1] == s.client.sent[n - 1];
  }

  /** What a step leaves of a stream: its kind and name, when its OPEN had been taken, and the ID it was named by. */
  lemma StepKeepsOrigin(s: Session, a: Action, i: nat, remote: uint32)
    requires Enabled(s, a) && i < |s.svcs| && Control(s.svcs[i])
    requires remote != 0 ==> Named(s.svcs[i], remote)
    ensures i < |Apply(s, a).svcs|
    ensures var v, w := s.svcs[i], Apply(s, a).svcs[i];
            && w.kind == v.kind && w.name == v.name && (remote != 0 ==> Named(w, remote))
            && (w.pc.Fresh? ==> v.pc.Fresh?)
            && w.log.since == (if v.pc.Fresh? && !w.pc.Fresh? then s.client.taken else v.log.since)
            && (v.pc.Fresh? && s.loop == Registering(i) && a.LoopStep? ==> !w.pc.Fresh?)
  {
    EffectIsAll(s, a);
    if Effect(s, a).Update? && Effect(s, a).i == i {
      UpdateKeepsOrigin(s, a);
      if remote != 0 {
        UpdateKeepsNamed(s, a, remote);
      }
    }
  }

  /** A stream that is there already keeps its OPEN. */
  lemma StepKeepsArisenAt(s: Session, a: Action, i: nat)
    requires Enabled(s, a) && i < |s.svcs| && SvcInv(s.svcs[i]) && ArisenAt(s, i)
    ensures i < |Apply(s, a).svcs| && ArisenAt(Apply(s, a), i)
    ensures Apply(s, a).svcs[i].kind == s.svcs[i].kind
    ensures s.svcs[i].kind != Outbound ==> TakenBy(Apply(s, a), i) == TakenBy(s, i)
  {
    if s.svcs[i].kind == Outbound {
      StepKeepsOrigin(s, a, i, 0);
      return;
    }
    TakenStay(s, a);
    if s.svcs[i].pc.Fresh? && !a.LoopStep? {
      RegisteringStays(s, a);
    }
    var n := TakenBy(s, i);
    StepKeepsOrigin(s, a, i, s.client.sent[n - 1].arg0);
    ArisesOn(s, Apply(s, a), i, n);
  }

  /** A stream just created has its OPEN too. */
  lemma CreationArises(s: Session, a: Action)
    requires Enabled(s, a) && Effect(s, a).Creation? && TakenOk(s)
    ensures var t := Apply(s, a);
            && |t.svcs| == |s.svcs| + 1 && ArisenAt(t, |s.svcs|)
            && (a.Take? ==> t.svcs[|s.svcs|].kind != Outbound && TakenBy(t, |s.svcs|) == s.client.taken + 1)
            && (!a.Take? ==> t.svcs[|s.svcs|].kind == Outbound)
  {
    ReverseIsSpelled();
    EffectIsAll(s, a);
    if a.Take? {
      TakeFrame(s, a);
      OpeningIs(s, s.client.sent[s.client.taken]);
    }
  }

  /** The service object made for an OPEN: of its kind and name, and under its ID. */
  lemma OpeningIs(s: Session, p: Packet)
    requires Opens(s, p)
    ensures AsksFor(p, Opening(s, p)) && Opening(s, p).pc.Fresh? && s.shake.authorized
    ensures p.arg0 != 0 ==> Named(Opening(s, p), p.arg0)
  {
    ReverseIsSpelled();
    assert p.payload == p.payload[..|p.payload| - 1] + [0];
  }

  lemma StepKeepsArisen(s: Session, a: Action)
    requires Enabled(s, a) && AllStreams(s) && TakenOk(s) && Arisen(s)
    ensures Arisen(Apply(s, a))
  {
    var t := Apply(s, a);
    EffectIsAll(s, a);
    forall i | 0 <= i < |t.svcs| ensures ArisenAt(t, i) {
      if i < |s.svcs| {
        assert SvcInv(s.svcs[i]) && ArisenAt(s, i);
        StepKeepsArisenAt(s, a, i);
      } else {
        CreationArises(s, a);
      }
    }
  }

  predicate IsOpenedBy(s: Session, i: nat, n: nat)
  {
    i < |s.svcs| && s.svcs[i].kind != Outbound && TakenBy(s, i) == n
  }

  /** An OPEN that ends the session: before the client is let in, or without the terminating zero. */
  predicate IsRefused(s: Session, p: Packet)
  {
    !s.shake.authorized || p.payload == [] || p.payload[|p.payload| - 1] != 0
  }

  /** The n-th packet, if it is an OPEN, has its stream, or is the last and has ended the read loop. */
  ghost predicate ServedAt(s: Session, n: nat)
    requires 0 < n <= |s.client.sent|
  {
    s.client.sent[n - 1].command == CMD_OPEN ==>
      || (exists i: nat :: IsOpenedBy(s, i, n))
      || (n == s.client.taken && s.loop.Stopped? && IsRefused(s, s.client.sent[n - 1]))
  }

  /** Every OPEN taken has its stream, and no two streams share one. */
  ghost predicate AllServed(s: Session)
  {
    && TakenOk(s)
    && (forall n :: 0 < n <= s.client.taken ==> ServedAt(s, n))
    && (forall i, j :: 0 <= i < j < |s.svcs| && s.svcs[i].kind != Outbound && s.svcs[j].kind != Outbound ==>
          TakenBy(s, i) < TakenBy(s, j))
  }

  lemma StoppedStays(s: Session, a: Action)
    requires Enabled(s, a) && s.loop.Stopped?
    ensures !a.Take? && Apply(s, a).loop.Stopped?
  {
  }

  lemma StepKeepsServedAt(s: Session, a: Action, n: nat)
    requires Enabled(s, a) && AllStreams(s) && TakenOk(s) && Arisen(s)
    requires 0 < n <= s.client.taken && ServedAt(s, n)
    ensures n <= |Apply(s, a).client.sent| && ServedAt(Apply(s, a), n)
  {
    TakenStay(s, a);
    if i: nat :| IsOpenedBy(s, i, n) {
      assert SvcInv(s.svcs[i]) && ArisenAt(s, i);
      StepKeepsArisenAt(s, a, i);
      assert IsOpenedBy(Apply(s, a), i, n);
    } else if s.client.sent[n - 1].command == CMD_OPEN {
      StoppedStays(s, a);
      ShakeFrame(s, a);
    }
  }

  /** An OPEN just taken has made a stream, or ended the read loop. */
  lemma TakenIsServed(s: Session, a: Action)
    requires Enabled(s, a) && a.Take? && TakenOk(s)
    ensures Apply(s, a).client.taken == s.client.taken + 1 <= |Apply(s, a).client.sent|
    ensures ServedAt(Apply(s, a), s.client.taken + 1)
  {
    var t, p := Apply(s, a), s.client.sent[s.client.taken];
    TakeFrame(s, a);
    DispatchAnswers(s, p, a.random);
    if p.command == CMD_OPEN && !Ends(s.shake, p, a.random.Some?) {
      CreationArises(s, a);
      assert IsOpenedBy(t, |s.svcs|, s.client.taken + 1);
    }
  }

  lemma StepKeepsOrder(s: Session, a: Action, i: nat, j: nat)
    requires Enabled(s, a) && AllStreams(s) && Arisen(s) && AllServed(s)
    requires i < j < |Apply(s, a).svcs|
    requires Apply(s, a).svcs[i].kind != Outbound && Apply(s, a).svcs[j].kind != Outbound
    ensures TakenBy(Apply(s, a), i) < TakenBy(Apply(s, a), j)
  {
    EffectIsAll(s, a);
    assert SvcInv(s.svcs[i]) && ArisenAt(s, i);
    StepKeepsArisenAt(s, a, i);
    if j < |s.svcs| {
      assert SvcInv(s.svcs[j]) && ArisenAt(s, j);
      StepKeepsArisenAt(s, a, j);
    } else {
      CreationArises(s, a);
    }
  }

  lemma StepKeepsServed(s: Session, a: Action)
    requires Enabled(s, a) && AllStreams(s) && Arisen(s) && AllServed(s)
    ensures AllServed(Apply(s, a))
  {
    var t := Apply(s, a);
    TakenStay(s, a);
    forall n | 0 < n <= t.client.taken ensures ServedAt(t, n) {
      if n <= s.client.taken {
        assert ServedAt(s, n);
        StepKeepsServedAt(s, a, n);
      } else {
        TakenIsServed(s, a);
      }
    }
    forall i, j | 0 <= i < j < |t.svcs| && t.svcs[i].kind != Outbound && t.svcs[j].kind != Outbound
      ensures TakenBy(t, i) < TakenBy(t, j)
    {
      StepKeepsOrder(s, a, i, j);
    }
  }

  // ---- The theorems

  lemma {:induction false} RunKeepsServed(run: seq<Session>, k: nat)
    requires Run(run) && k < |run|
    ensures Arisen(run[k]) && AllServed(run[k])
  {
    if k > 0 {
      var a := StepOf(run, k);
      RunKeepsServed(run, k - 1);
      RunKeepsInv(run, k - 1);
      StepKeepsArisen(run[k - 1], a);
      StepKeepsServed(run[k - 1], a);
    }
  }

  /**
   In every run: each OPEN the read loop has taken has made exactly one stream, of its name, while the client was let
   in; or it was taken before that, or had no terminating zero, and the read loop ended with it.
   */
  lemma EachOpenHasItsStream(run: seq<Session>, k: nat, n: nat)
    requires Run(run) && k < |run|
    requires 0 < n <= run[k].client.taken <= |run[k].client.sent| && run[k].client.sent[n - 1].command == CMD_OPEN
    ensures var s := run[k];
            if n == s.client.taken && s.loop.Stopped? && IsRefused(s, s.client.sent[n - 1])
            then forall i :: 0 <= i < |s.svcs| ==> !IsOpenedBy(s, i, n)
            else exists i: nat ::
              IsOpenedBy(s, i, n) && ArisesFrom(s, i, n) && forall j :: IsOpenedBy(s, j, n) ==> j == i
  {
    var s := run[k];
    RunKeepsServed(run, k);
    assert ServedAt(s, n);
    if i: nat :| IsOpenedBy(s, i, n) {
      assert ArisenAt(s, i) && ArisesFrom(s, i, n);
      forall j | IsOpenedBy(s, j, n) ensures j == i {
      }
    }
  }

  /** Closed while it waits for a token. */
  predicate ClosedWaiting(s: Session, i: nat)
  {
    i < |s.svcs| && s.svcs[i].pc.Waiting? && s.svcs[i].done
  }

  /**
   In every run, a stream that a client opened under an ID other than 0: whatever the client acknowledges later, every
   packet of the stream goes to that ID. They come from the stream's own ID, but for the CLSE of one never opened, which
   comes from 0. On a connection that lives it has a CLSE when it has finished, and it has given up a write only if it
   was closed while it waited.
   */
  lemma OpenedKeepsItsID(run: seq<Session>, k: nat, i: nat)
    requires Run(run) && k < |run| && i < |run[k].svcs| && run[k].svcs[i].kind != Outbound
    ensures var n := TakenBy(run[k], i); 0 < n <= run[k].client.taken <= |run[k].client.sent|
    ensures var s, v, n := run[k], run[k].svcs[i], TakenBy(run[k], i);
            var ps := Own(s.link.out, Stream(i));
            var remote := s.client.sent[n - 1].arg0;
            && AsksFor(s.client.sent[n - 1], v)
            && AuthorizedAfter(run[0].shake.authNone, s.client.sent[..s.client.taken])
            && (remote != 0 ==>
                  && v.remoteID == remote
                  && (forall p :: p in ps ==> p.arg1 == remote)
                  && (forall p :: p in ps ==>
                        p.arg0 == v.localID || (p.command == CMD_CLSE && p.arg0 == 0 && |ps| == 1))
                  && (!v.isOpen ==> forall p :: p in ps ==> p.command == CMD_CLSE && p.arg0 == 0)
                  && (v.pc.Finished? && !s.link.closed && !s.link.broken ==>
                        ps != [] && ps[|ps| - 1].command == CMD_CLSE)
                  && (v.log.gaveUp ==> exists j :: 0 <= j < k && ClosedWaiting(run[j], i)))
  {
    var s, v := run[k], run[k].svcs[i];
    RunKeepsServed(run, k);
    RunKeepsShake(run, k);
    assert ArisenAt(s, i);
    var remote := s.client.sent[TakenBy(s, i) - 1].arg0;
    if remote != 0 {
      RunKeepsInv(run, k);
      RunKeepsLogged(run, k);
      assert SvcInv(v) && LoggedAt(s, i);
      NamedSpeaks(v, remote);
      if v.pc.Finished? && !s.link.closed && !s.link.broken {
        FinishedStreamHasClosed(run, k, i);
      }
      if v.log.gaveUp {
        GaveUpWhenClosed(run, k, i, remote);
      }
    }
  }

  lemma {:induction false} GaveUpWhenClosed(run: seq<Session>, k: nat, i: nat, remote: uint32)
    requires Run(run) && k < |run| && OpenedAs(run[k], i, remote) && remote != 0 && run[k].svcs[i].log.gaveUp
    ensures exists j :: 0 <= j < k && ClosedWaiting(run[j], i)
  {
    var a := StepOf(run, k);
    RunKeepsServed(run, k - 1);
    RunKeepsInv(run, k - 1);
    HadGivenUp(run[k - 1], a, i, remote);
    if run[k - 1].svcs[i].log.gaveUp {
      GaveUpWhenClosed(run, k - 1, i, remote);
    } else {
      assert ClosedWaiting(run[k - 1], i);
    }
  }

  /** A stream the client opened under this ID. */
  ghost predicate OpenedAs(s: Session, i: nat, remote: uint32)
  {
    && i < |s.svcs| && s.svcs[i].kind != Outbound && 0 < TakenBy(s, i) <= |s.client.sent|
    && s.client.sent[TakenBy(s, i) - 1].arg0 == remote
  }

  lemma HadGivenUp(s: Session, a: Action, i: nat, remote: uint32)
    requires Enabled(s, a) && AllStreams(s) && Arisen(s) && remote != 0
    requires OpenedAs(Apply(s, a), i, remote) && Apply(s, a).svcs[i].log.gaveUp
    ensures OpenedAs(s, i, remote) && (s.svcs[i].log.gaveUp || ClosedWaiting(s, i))
  {
    EffectIsAll(s, a);
    assert SvcInv(s.svcs[i]) && ArisenAt(s, i);
    StepKeepsArisenAt(s, a, i);
    TakenStay(s, a);
    if !s.svcs[i].log.gaveUp {
      GivingUp(s, a, i);
    }
  }

  lemma GivingUp(s: Session, a: Action, i: nat)
    requires Enabled(s, a) && i < |s.svcs| && s.svcs[i].remoteID != 0 && !s.svcs[i].log.gaveUp
    requires i < |Apply(s, a).svcs| && Apply(s, a).svcs[i].log.gaveUp
    ensures ClosedWaiting(s, i)
  {
    EffectIsAll(s, a);
    match a {
      case Internal(j, c) => GivesUpOnlyClosed(s.svcs[j], c, s.shake.maxPayload);
      case _ =>
    }
  }

  /** Having delivered a WRTE to the i-th stream, the read loop is about to confirm it with this packet. */
  predicate IsConfirming(s: Session, i: nat, q: Packet)
  {
    s.loop == Confirming(i) && i < |s.svcs| && q == Packet(CMD_OKAY, s.svcs[i].localID, s.svcs[i].remoteID, [])
  }

  lemma LoopSaysIt(s: Session, a: Action, m: nat)
    requires Enabled(s, a) && m < |Apply(s, a).link.out|
    requires var e := Apply(s, a).link.out[m]; e.owner == Loop && e.packet.command == CMD_OKAY
    ensures m < |s.link.out| ==> Apply(s, a).link.out[m] == s.link.out[m]
    ensures m >= |s.link.out| && !s.loop.Replying? ==>
              s.loop.Confirming? && IsConfirming(s, s.loop.i, Apply(s, a).link.out[m].packet)
    ensures m >= |s.link.out| && s.loop.Replying? ==> s.loop.packet.command == CMD_OKAY
  {
  }

  /** The OKAYs of the read loop are confirmations, from the stream's ID to the one the client opened it under. */
  lemma {:induction false} ConfirmsToItsID(run: seq<Session>, k: nat, m: nat) returns (j: nat, i: nat)
    requires Run(run) && k < |run| && m < |run[k].link.out|
    requires run[k].link.out[m].owner == Loop && run[k].link.out[m].packet.command == CMD_OKAY
    ensures j < k && IsConfirming(run[j], i, run[k].link.out[m].packet)
    ensures run[j].svcs[i].kind != Outbound ==>
              var n := TakenBy(run[j], i);
              0 < n <= |run[j].client.sent| && run[j].client.sent[n - 1].arg0 in {0, run[k].link.out[m].packet.arg1}
  {
    var a := StepOf(run, k);
    LoopSaysIt(run[k - 1], a, m);
    if m < |run[k - 1].link.out| {
      j, i := ConfirmsToItsID(run, k - 1, m);
    } else {
      EachIsAnswered(run, k - 1);
      j, i := k - 1, run[k - 1].loop.i;
      RunKeepsServed(run, j);
      assert ArisenAt(run[j], i);
    }
  }
}
