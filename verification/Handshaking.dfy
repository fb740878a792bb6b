/**
 The handshake in the protocol's own numbers (src/internal/bridge/session.go): what a client's packets settle, and what
 the read loop answers to each of them, over whole runs.
 */
module Handshaking {
  import opened Bytes
  import opened Adbwire
  import opened Emissions
  import opened Multiplexer
  import opened StreamInvariant
  import opened CloseDiscipline

  function Least(a: uint32, b: uint32): uint32
  {
    if a < b then a else b
  }

  /** The handshake g that packet p makes of h. */
  predicate Settles(h: Handshake, p: Packet, g: Handshake)
  {
    && g.authNone == h.authNone && g.deviceID == h.deviceID
    && g.version == (if p.command == CMD_CNXN then Least(p.arg0, 0x0100_0000) else h.version)
    && g.maxPayload == (if p.command == CMD_CNXN && p.arg1 != 0 then Least(p.arg1, 0x1_0000) else h.maxPayload)
    && (g.authorized <==> h.authorized || Authorizes(h.authNone, p))
  }

  /** Without authentication any CNXN authorizes; with it, an AUTH that brings a signature (2) or a public key (3). */
  predicate Authorizes(authNone: bool, p: Packet)
  {
    if authNone then p.command == CMD_CNXN else p.command == CMD_AUTH && (p.arg0 == 2 || p.arg0 == 3)
  }

  /** The packets of the handshake that have an answer; a CNXN only if there are random bytes for its challenge. */
  predicate HasAnswer(authNone: bool, p: Packet)
  {
    || p.command == CMD_SYNC || p.command == CMD_CNXN
    || (p.command == CMD_AUTH && !authNone && (p.arg0 == 2 || p.arg0 == 3))
  }

  /** The answer q to packet p, which has made the handshake g; random are the bytes of a challenge. */
  predicate IsAnswer(g: Handshake, p: Packet, random: Option<seq<byte>>, q: Packet)
  {
    if p.command == CMD_SYNC then
      q == Packet(CMD_SYNC, 1, p.arg1, [])
    else if p.command == CMD_CNXN && !g.authNone then
      random.Some? && q == Packet(CMD_AUTH, 1, 0, random.value)
    else
      q == Packet(CMD_CNXN, g.version, g.maxPayload, g.deviceID + [0])
  }

  /** The packets that end the read loop: any it does not know, and these of those it knows. */
  predicate Ends(h: Handshake, p: Packet, challenge: bool)
  {
    if p.command == CMD_CNXN then !h.authNone && !challenge
    else if p.command == CMD_AUTH then !h.authNone && p.arg0 != 2 && p.arg0 != 3
    else if p.command == CMD_OPEN then !h.authorized || p.payload == [] || p.payload[|p.payload| - 1] != 0
    else p.command !in {CMD_SYNC, CMD_OKAY, CMD_WRTE, CMD_CLSE}
  }

  /** handlePacket's first step, in these terms. */
  lemma DispatchAnswers(s: Session, p: Packet, random: Option<seq<byte>>)
    ensures var t := Dispatch(s, p, random);
            && Settles(s.shake, p, t.shake)
            && (t.loop.Replying? && !s.loop.Replying? ==>
                  HasAnswer(s.shake.authNone, p) && IsAnswer(t.shake, p, random, t.loop.packet))
            && (HasAnswer(s.shake.authNone, p) ==> t.loop.Replying? || t.loop.Stopped?)
            && (t.loop.Stopped? && !s.loop.Stopped? ==> Ends(s.shake, p, random.Some?))
            && (Ends(s.shake, p, random.Some?) ==> t.loop.Stopped?)
  {
  }

  /** The read loop ends by itself only when reading, a packet of the above, a write or a delivery has failed it. */
  lemma StopsForCause(s: Session, a: Action)
    requires Enabled(s, a) && Apply(s, a).loop.Stopped? && !s.loop.Stopped?
    ensures || a.LoopFail?
            || (a.Take? && Ends(s.shake, s.client.sent[s.client.taken], a.random.Some?))
            || (a.LoopSay? && a.o != Sent)
            || (a.Deliver? && !a.ok)
  {
    if a.Take? {
      DispatchAnswers(s, s.client.sent[s.client.taken], a.random);
    }
  }

  // ---- Over runs

  /** What packets taken one after the other settle: the last CNXN's version and the last limit, and who is let in. */
  function VersionAfter(ps: seq<Packet>): (version: uint32)
    ensures version <= 0x0100_0000
  {
    if ps == [] then 0x0100_0000
    else if ps[|ps| - 1].command == CMD_CNXN then Least(ps[|ps| - 1].arg0, 0x0100_0000)
    else VersionAfter(ps[..|ps| - 1])
  }

  function LimitAfter(ps: seq<Packet>): (n: uint32)
    ensures 1 <= n <= 0x1_0000
  {
    if ps == [] then 4096
    else if ps[|ps| - 1].command == CMD_CNXN && ps[|ps| - 1].arg1 != 0 then Least(ps[|ps| - 1].arg1, 0x1_0000)
    else LimitAfter(ps[..|ps| - 1])
  }

  ghost predicate AuthorizedAfter(authNone: bool, ps: seq<Packet>)
  {
    exists p :: p in ps && Authorizes(authNone, p)
  }

  ghost predicate ShakeIs(h: Handshake, first: Handshake, ps: seq<Packet>)
  {
    && h.authNone == first.authNone && h.deviceID == first.deviceID
    && h.version == VersionAfter(ps) && h.maxPayload == LimitAfter(ps)
    && (h.authorized <==> AuthorizedAfter(first.authNone, ps))
  }

  lemma OneMoreSettles(h: Handshake, first: Handshake, ps: seq<Packet>, p: Packet, g: Handshake)
    requires ShakeIs(h, first, ps) && Settles(h, p, g)
    ensures ShakeIs(g, first, ps + [p])
  {
    assert (ps + [p])[..|ps|] == ps;
  }

  lemma ShakeFrame(s: Session, a: Action)
    requires Enabled(s, a) && !a.Take?
    ensures var t := Apply(s, a);
            && t.shake == s.shake && t.client.taken == s.client.taken
            && s.client.sent <= t.client.sent && (a.ClientSend? || t.client.sent == s.client.sent)
  {
  }

  lemma TakeFrame(s: Session, a: Action)
    requires Enabled(s, a) && a.Take?
    ensures var t := Apply(s, a);
            t.client == s.client.(taken := s.client.taken + 1) && t.link == s.link &&
            Settles(s.shake, s.client.sent[s.client.taken], t.shake)
  {
    DispatchAnswers(s, s.client.sent[s.client.taken], a.random);
  }

  predicate TakenOk(s: Session)
  {
    s.client.taken <= |s.client.sent|
  }

  lemma StepKeepsShake(s: Session, a: Action, first: Handshake)
    requires Enabled(s, a) && TakenOk(s) && ShakeIs(s.shake, first, s.client.sent[..s.client.taken])
    ensures TakenOk(Apply(s, a))
    ensures ShakeIs(Apply(s, a).shake, first, Apply(s, a).client.sent[..Apply(s, a).client.taken])
  {
    var ps, t := s.client.sent[..s.client.taken], Apply(s, a);
    if a.Take? {
      var p := s.client.sent[s.client.taken];
      TakeFrame(s, a);
      assert t.client.sent[..t.client.taken] == ps + [p];
      OneMoreSettles(s.shake, first, ps, p, t.shake);
    } else {
      ShakeFrame(s, a);
      assert t.client.sent[..t.client.taken] == ps;
    }
  }

  /** In every state of every run the handshake is what the packets taken have settled. */
  lemma {:induction false} RunKeepsShake(run: seq<Session>, k: nat)
    requires Run(run) && k < |run|
    ensures var s := run[k];
            TakenOk(s) && ShakeIs(s.shake, run[0].shake, s.client.sent[..s.client.taken])
  {
    if k > 0 {
      var a := StepOf(run, k);
      RunKeepsShake(run, k - 1);
      StepKeepsShake(run[k - 1], a, run[0].shake);
    }
  }

  /**
   What the read loop has written, qs, for the packets ps: to each that has one its answer, in order, and an OKAY with
   its ID to a WRTE that was delivered.
   */
  ghost predicate Answers(first: Handshake, ps: seq<Packet>, qs: seq<Packet>)
  {
    if ps == [] then qs == []
    else
      var init, p := ps[..|ps| - 1], ps[|ps| - 1];
      if HasAnswer(first.authNone, p) then
        qs != [] && Answers(first, init, qs[..|qs| - 1]) && AnswersLast(first, ps, qs[|qs| - 1])
      else
        || Answers(first, init, qs)
        || (p.command == CMD_WRTE && qs != [] && IsConfirmation(p, qs[|qs| - 1]) &&
            Answers(first, init, qs[..|qs| - 1]))
  }

  predicate IsConfirmation(p: Packet, q: Packet)
  {
    q.command == CMD_OKAY && q.arg0 == p.arg1 && q.payload == []
  }

  /** The answer to the last packet, by what all have settled. */
  predicate AnswersLast(first: Handshake, ps: seq<Packet>, q: Packet)
    requires ps != []
  {
    var p := ps[|ps| - 1];
    if p.command == CMD_SYNC then
      q == Packet(CMD_SYNC, 1, p.arg1, [])
    else if p.command == CMD_CNXN && !first.authNone then
      q.command == CMD_AUTH && q.arg0 == 1 && q.arg1 == 0 && |q.payload| == 20
    else
      q == Packet(CMD_CNXN, VersionAfter(ps), LimitAfter(ps), first.deviceID + [0])
  }

  lemma AnswerAdded(first: Handshake, ps: seq<Packet>, qs: seq<Packet>, q: Packet)
    requires ps != [] && Answers(first, ps[..|ps| - 1], qs)
    ensures var p := ps[|ps| - 1];
            && (!HasAnswer(first.authNone, p) ==> Answers(first, ps, qs))
            && (HasAnswer(first.authNone, p) && AnswersLast(first, ps, q) ==> Answers(first, ps, qs + [q]))
            && (p.command == CMD_WRTE && IsConfirmation(p, q) ==> Answers(first, ps, qs + [q]))
  {
    assert (qs + [q])[..|qs|] == qs;
  }

  /** What the read loop has written, or is about to, goes with the packets taken; one that ended it has no answer. */
  ghost predicate AllAnswered(s: Session, first: Handshake)
  {
    var ps, qs := s.client.sent[..Within(s)], Own(s.link.out, Loop);
    match s.loop
    case Replying(q) =>
      && ps != [] && Answers(first, ps[..|ps| - 1], qs)
      && HasAnswer(first.authNone, ps[|ps| - 1]) && AnswersLast(first, ps, q)
    case Delivering(i, _) => Half(s, first, i)
    case Confirming(i) => Half(s, first, i)
    case Stopped => Answers(first, ps, qs) || (ps != [] && Answers(first, ps[..|ps| - 1], qs))
    case _ => Answers(first, ps, qs)
  }

  function Within(s: Session): nat
  {
    if s.client.taken <= |s.client.sent| then s.client.taken else 0
  }

  /** A WRTE to the i-th stream is being handled. */
  ghost predicate Half(s: Session, first: Handshake, i: nat)
  {
    var ps, qs := s.client.sent[..Within(s)], Own(s.link.out, Loop);
    && ps != [] && Answers(first, ps[..|ps| - 1], qs)
    && ps[|ps| - 1].command == CMD_WRTE && i < |s.svcs| && ps[|ps| - 1].arg1 == s.svcs[i].localID
  }

  lemma AnswerIs(first: Handshake, g: Handshake, ps: seq<Packet>, p: Packet, random: Option<seq<byte>>, q: Packet)
    requires ShakeIs(g, first, ps + [p]) && HasAnswer(first.authNone, p) && IsAnswer(g, p, random, q)
    requires random.Some? ==> |random.value| == 20
    ensures AnswersLast(first, ps + [p], q)
  {
  }

  lemma TakeKeepsAnswered(s: Session, a: Action, first: Handshake)
    requires Enabled(s, a) && a.Take? && MapOk(s) && AllAnswered(s, first)
    requires TakenOk(s) && ShakeIs(s.shake, first, s.client.sent[..s.client.taken])
    ensures AllAnswered(Apply(s, a), first)
  {
    var t, p, ps, qs := Apply(s, a), s.client.sent[s.client.taken], s.client.sent[..s.client.taken],
                        Own(s.link.out, Loop);
    DispatchAnswers(s, p, a.random);
    TakeFrame(s, a);
    assert t.client.sent[..t.client.taken] == ps + [p] && (ps + [p])[..|ps|] == ps;
    OneMoreSettles(s.shake, first, ps, p, t.shake);
    if t.loop.Replying? {
      AnswerIs(first, t.shake, ps, p, a.random, t.loop.packet);
    } else {
      AnswerAdded(first, ps + [p], qs, p);
      TakeLeads(s, a);
    }
  }

  /** Where the read loop goes with a packet that it does not answer at once. */
  lemma TakeLeads(s: Session, a: Action)
    requires Enabled(s, a) && a.Take? && MapOk(s) && !Apply(s, a).loop.Replying?
    ensures var t, p := Apply(s, a), s.client.sent[s.client.taken];
            && !t.loop.Confirming? && (HasAnswer(s.shake.authNone, p) ==> t.loop.Stopped?)
            && (t.loop.Delivering? ==>
                  p.command == CMD_WRTE && t.loop.i < |t.svcs| && p.arg1 == t.svcs[t.loop.i].localID)
  {
  }

  lemma OwnOfLoop(s: Session, a: Action)
    requires Enabled(s, a)
    ensures Own(Apply(s, a).link.out, Loop) == Own(s.link.out, Loop) +
              if a.LoopSay? && a.o != Refused then [LoopMessage(s)] else []
  {
    var out, out' := s.link.out, Apply(s, a).link.out;
    if out' != out {
      assert |out'| == |out| + 1 && out' == out + [out'[|out|]];
      OwnSnoc(out, out'[|out|], Loop);
    }
  }

  /** While the read loop is at a packet, all before it have been answered. */
  lemma BeforeLast(s: Session, first: Handshake)
    requires AllAnswered(s, first) && (s.loop.Replying? || s.loop.Confirming? || s.loop.Delivering?)
    ensures var ps := s.client.sent[..Within(s)];
            ps != [] && Answers(first, ps[..|ps| - 1], Own(s.link.out, Loop))
    ensures s.loop.Replying? ==> AnswersNow(s, first, s.loop.packet)
  {
  }

  ghost predicate AnswersNow(s: Session, first: Handshake, q: Packet)
  {
    var ps := s.client.sent[..Within(s)];
    ps != [] && HasAnswer(first.authNone, ps[|ps| - 1]) && AnswersLast(first, ps, q)
  }

  lemma SayKeepsAnswered(s: Session, a: Action, first: Handshake)
    requires Enabled(s, a) && a.LoopSay? && AllAnswered(s, first)
    ensures AllAnswered(Apply(s, a), first)
  {
    var t, ps, qs, q := Apply(s, a), s.client.sent[..Within(s)], Own(s.link.out, Loop), LoopMessage(s);
    OwnOfLoop(s, a);
    BeforeLast(s, first);
    AnswerAdded(first, ps, qs, q);
    assert t.client == s.client && Own(t.link.out, Loop) == if a.o == Refused then qs else qs + [q];
    assert s.loop.Confirming? ==> Half(s, first, s.loop.i);
    assert s.loop.Replying? ==> AnswersNow(s, first, q);
    SaidIsAnswered(s, t, first, q, a.o);
  }

  lemma SaidIsAnswered(s: Session, t: Session, first: Handshake, q: Packet, o: Outcome)
    requires var ps, qs := s.client.sent[..Within(s)], Own(s.link.out, Loop);
             && ps != [] && Answers(first, ps[..|ps| - 1], qs) && (o != Refused ==> Answers(first, ps, qs + [q]))
             && Own(t.link.out, Loop) == if o == Refused then qs else qs + [q]
    requires t.client == s.client && t.loop == if o == Sent then Idle else Stopped
    ensures AllAnswered(t, first)
  {
  }

  lemma OtherKeepsAnswered(s: Session, a: Action, first: Handshake)
    requires Enabled(s, a) && !a.LoopSay? && !a.Take? && TakenOk(s) && AllAnswered(s, first)
    ensures AllAnswered(Apply(s, a), first)
  {
    var t := Apply(s, a);
    ShakeFrame(s, a);
    OwnOfLoop(s, a);
    assert t.client.sent[..t.client.taken] == s.client.sent[..s.client.taken];
    LoopLeads(s, a);
    SameAnswered(s, t, first);
  }

  /** What is written and taken being the same, the read loop goes on, or ends. */
  lemma SameAnswered(s: Session, t: Session, first: Handshake)
    requires AllAnswered(s, first) && t.client.sent[..Within(t)] == s.client.sent[..Within(s)]
    requires Own(t.link.out, Loop) == Own(s.link.out, Loop)
    requires |s.svcs| <= |t.svcs| && (forall i :: 0 <= i < |s.svcs| ==> t.svcs[i].localID == s.svcs[i].localID)
    requires || t.loop == s.loop
             || (s.loop.Delivering? && (t.loop.Stopped? || t.loop == Confirming(s.loop.i)))
             || (!AtPacket(s.loop) && !AtPacket(t.loop) && !s.loop.Stopped?)
    ensures AllAnswered(t, first)
  {
  }

  predicate AtPacket(loop: LoopPc)
  {
    loop.Replying? || loop.Delivering? || loop.Confirming?
  }

  /** What the other steps do to the read loop. */
  lemma LoopLeads(s: Session, a: Action)
    requires Enabled(s, a) && !a.LoopSay? && !a.Take?
    ensures var t := Apply(s, a);
            && |s.svcs| <= |t.svcs| && (forall i :: 0 <= i < |s.svcs| ==> t.svcs[i].localID == s.svcs[i].localID)
            && (|| t.loop == s.loop
                || (s.loop.Delivering? && (t.loop.Stopped? || t.loop == Confirming(s.loop.i)))
                || (!AtPacket(s.loop) && !AtPacket(t.loop) && !s.loop.Stopped?))
  {
    EffectIsAll(s, a);
    match Effect(s, a) {
      case Update(i, v) => UpdateKeepsID(s, a);
      case _ =>
    }
  }

  lemma UpdateKeepsID(s: Session, a: Action)
    requires Enabled(s, a) && Effect(s, a).Update?
    ensures Effect(s, a).i < |s.svcs| && Effect(s, a).v.localID == s.svcs[Effect(s, a).i].localID
  {
    match a {
      case Internal(i, c) => StepFrame(s.svcs[i], c, s.shake.maxPayload);
      case _ =>
    }
  }

  /**
   In every run: to each packet of the handshake the client has sent and the read loop has taken, its answer has been
   written, in order and with the values settled by then; of the last, if the loop is at it or has ended with it, it is
   still to be written or was turned away. The read loop writes nothing else but the OKAYs to WRTEs.
   */
  lemma {:induction false} EachIsAnswered(run: seq<Session>, k: nat)
    requires Run(run) && k < |run|
    ensures AllAnswered(run[k], run[0].shake)
  {
    if k > 0 {
      var a := StepOf(run, k);
      EachIsAnswered(run, k - 1);
      RunKeepsShake(run, k - 1);
      RunKeepsInv(run, k - 1);
      if a.Take? {
        TakeKeepsAnswered(run[k - 1], a, run[0].shake);
      } else if a.LoopSay? {
        SayKeepsAnswered(run[k - 1], a, run[0].shake);
      } else {
        OtherKeepsAnswered(run[k - 1], a, run[0].shake);
      }
    }
  }

  /** A CNXN among the answers carries the least of two versions, the least of two limits and the device's name. */
  predicate IsCnxn(first: Handshake, ps: seq<Packet>, q: Packet)
  {
    q == Packet(CMD_CNXN, VersionAfter(ps), LimitAfter(ps), first.deviceID + [0])
  }

  lemma {:induction false} CnxnAnswers(first: Handshake, ps: seq<Packet>, qs: seq<Packet>, k: nat) returns (n: nat)
    requires Answers(first, ps, qs) && k < |qs| && qs[k].command == CMD_CNXN
    ensures n <= |ps| && IsCnxn(first, ps[..n], qs[k])
  {
    var init := ps[..|ps| - 1];
    if Answers(first, init, qs) {
      n := CnxnAnswers(first, init, qs, k);
      assert init[..n] == ps[..n];
    } else if k == |qs| - 1 {
      n := |ps|;
      assert ps[..n] == ps;
    } else {
      n := CnxnAnswers(first, init, qs[..|qs| - 1], k);
      assert init[..n] == ps[..n];
    }
  }

  /**
   Every CNXN the client is sent: the version and the payload limit settled by some first part of its own packets, never
   above the classic version and 64 KiB, and the device's name with a zero after it.
   */
  lemma EveryCnxn(run: seq<Session>, k: nat, j: nat) returns (n: nat)
    requires Run(run) && k < |run|
    requires j < |Own(run[k].link.out, Loop)| && Own(run[k].link.out, Loop)[j].command == CMD_CNXN
    ensures var s, q := run[k], Own(run[k].link.out, Loop)[j];
            && n <= s.client.taken <= |s.client.sent| && IsCnxn(run[0].shake, s.client.sent[..n], q)
            && q.arg0 <= 0x0100_0000 && 1 <= q.arg1 <= 0x1_0000
  {
    var s := run[k];
    EachIsAnswered(run, k);
    RunKeepsShake(run, k);
    var ps, qs := s.client.sent[..s.client.taken], Own(s.link.out, Loop);
    if Answers(run[0].shake, ps, qs) {
      n := CnxnAnswers(run[0].shake, ps, qs, j);
      assert ps[..n] == s.client.sent[..n];
    } else {
      n := CnxnAnswers(run[0].shake, ps[..|ps| - 1], qs, j);
      assert ps[..|ps| - 1][..n] == s.client.sent[..n];
    }
  }
}
