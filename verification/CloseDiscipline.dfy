/** What each stream writes over its life: one greeting, data, and at most one CLSE, which is its last word. */
module CloseDiscipline {
  import opened Bytes
  import opened Adbwire
  import opened Emissions
  import opened Multiplexer
  import opened StreamInvariant

  /** The packets of one writer, in the order they went out. */
  function Own(out: seq<Emission>, owner: Owner): seq<Packet>
  {
    if out == [] then []
    else Own(out[..|out| - 1], owner) + if out[|out| - 1].owner == owner then [out[|out| - 1].packet] else []
  }

  lemma OwnSnoc(out: seq<Emission>, e: Emission, owner: Owner)
    ensures Own(out + [e], owner) == Own(out, owner) + if e.owner == owner then [e.packet] else []
  {
    assert (out + [e])[..|out|] == out;
  }

  function Spoken(l: Log): seq<Packet>
  {
    l.greeting + l.wrtes + l.parting
  }

  /** Having decided to say CLSE, finish has seen the stream opened or its remote ID set. */
  ghost predicate Announced(v: Svc)
  {
    v.pc.Choosing? || v.pc.Parting? || v.pc == Finished(false) ==> v.isOpen || v.remoteID != 0
  }

  /** The record of stream i is what it has on the connection, and it can only have left out its CLSE on a dead one. */
  ghost predicate LoggedAt(s: Session, i: nat)
    requires i < |s.svcs|
  {
    && Own(s.link.out, Stream(i)) == Spoken(s.svcs[i].log) && Announced(s.svcs[i])
    && (s.svcs[i].pc == Finished(false) && s.svcs[i].log.parting == [] ==> s.link.closed || s.link.broken)
  }

  /** The connection's record is the streams' own records, and a missing CLSE has a reason. */
  ghost predicate Logged(s: Session)
  {
    && (forall i :: 0 <= i < |s.svcs| ==> LoggedAt(s, i))
    && (forall i :: |s.svcs| <= i ==> Own(s.link.out, Stream(i)) == [])
  }

  /** A write extends what the stream has said by the packet it began, at the end. */
  lemma SaidExtendsSpoken(v: Svc, o: Outcome)
    requires Control(v) && Speaking(v)
    ensures Spoken(Said(v, o).log) == Spoken(v.log) + if o == Refused then [] else [Message(v)]
  {
    SpokenExtends(v.log, Said(v, o).log, if o == Refused then [] else [Message(v)]);
  }

  lemma SpokenExtends(l: Log, l': Log, begun: seq<Packet>)
    requires l.parting == []
    requires || (l'.greeting == l.greeting + begun && l'.wrtes == l.wrtes == [] && l'.parting == [])
             || (l'.greeting == l.greeting && l'.wrtes == l.wrtes + begun && l'.parting == [])
             || (l'.greeting == l.greeting && l'.wrtes == l.wrtes && l'.parting == begun)
    ensures Spoken(l') == Spoken(l) + begun
  {
    Assoc(l.greeting, l.wrtes, begun);
  }

  lemma SaidKeepsAnnounced(v: Svc, o: Outcome)
    requires Announced(v) && Speaking(v)
    ensures Announced(Said(v, o))
  {
  }

  lemma StepKeepsSpoken(v: Svc, c: Choice, m: uint32)
    requires CanStep(v, c)
    ensures var l, l' := v.log, StepSvc(v, c, m).log;
            l'.greeting == l.greeting && l'.wrtes == l.wrtes && l'.parting == l.parting
    ensures StepSvc(v, c, m).pc != Finished(false)
  {
    StepFrame(v, c, m);
  }

  lemma StepKeepsAnnounced(v: Svc, c: Choice, m: uint32)
    requires Addressed(v) && Announced(v) && CanStep(v, c)
    ensures Announced(StepSvc(v, c, m))
  {
  }

  /** What an action leaves of the stream it touches, unless it makes the stream speak. */
  lemma EffectKeepsSpoken(s: Session, a: Action)
    requires Enabled(s, a) && Effect(s, a).Update? && !a.Say?
    requires Addressed(s.svcs[Effect(s, a).i]) && Announced(s.svcs[Effect(s, a).i])
    ensures var v, w := s.svcs[Effect(s, a).i], Effect(s, a).v;
            && Spoken(w.log) == Spoken(v.log) && Announced(w)
            && (w.pc == Finished(false) && w.log.parting == [] ==> v.pc == Finished(false) && v.log.parting == [])
  {
    if a.Internal? {
      StepKeepsSpoken(s.svcs[a.i], a.c, s.shake.maxPayload);
      StepKeepsAnnounced(s.svcs[a.i], a.c, s.shake.maxPayload);
    } else {
      PassiveKeepsSpoken(s, a);
    }
  }

  lemma PassiveKeepsSpoken(s: Session, a: Action)
    requires Enabled(s, a) && Effect(s, a).Update? && !a.Say? && !a.Internal?
    requires Announced(s.svcs[Effect(s, a).i])
    ensures var v, w := s.svcs[Effect(s, a).i], Effect(s, a).v;
            && w.log.greeting == v.log.greeting && w.log.wrtes == v.log.wrtes && w.log.parting == v.log.parting
            && Announced(w) && (w.pc.Finished? ==> v.pc == w.pc)
  {
    if a.LoopStep? {
      LoopedKeepsSpoken(s.svcs[s.loop.i], s.loop, s.client.taken);
    }
  }

  lemma LoopedKeepsSpoken(v: Svc, loop: LoopPc, taken: nat)
    requires Announced(v)
    ensures var w := Looped(v, loop, taken);
            && w.log.greeting == v.log.greeting && w.log.wrtes == v.log.wrtes && w.log.parting == v.log.parting
            && Announced(w) && (w.pc.Finished? ==> v.pc == w.pc)
  {
  }

  /** Only a stream's own write adds to what it has said. */
  lemma EffectOnLog(s: Session, a: Action, owner: Owner)
    requires Enabled(s, a) && owner.Stream?
    ensures var out := Apply(s, a).link.out;
            Own(out, owner) == Own(s.link.out, owner) +
              if a.Say? && owner == Stream(a.i) && a.o != Refused then [Message(s.svcs[a.i])] else []
    ensures (s.link.closed ==> Apply(s, a).link.closed) && (s.link.broken ==> Apply(s, a).link.broken)
  {
    var out, out' := s.link.out, Apply(s, a).link.out;
    if out' != out {
      assert |out'| == |out| + 1 && out' == out + [out'[|out|]];
      OwnSnoc(out, out'[|out|], owner);
    }
  }

  lemma WriteKeepsStream(s: Session, a: Action)
    requires AllStreams(s) && Logged(s) && Enabled(s, a) && a.Say?
    ensures a.i < |s.svcs| == |Apply(s, a).svcs| && LoggedAt(Apply(s, a), a.i)
  {
    EffectOnLog(s, a, Stream(a.i));
    assert SvcInv(s.svcs[a.i]) && LoggedAt(s, a.i);
    SaidExtendsSpoken(s.svcs[a.i], a.o);
    SaidKeepsAnnounced(s.svcs[a.i], a.o);
  }

  lemma StepKeepsStream(s: Session, a: Action, i: nat)
    requires AllStreams(s) && Logged(s) && Enabled(s, a) && i < |Apply(s, a).svcs|
    ensures LoggedAt(Apply(s, a), i)
  {
    if a.Say? && a.i == i {
      WriteKeepsStream(s, a);
      return;
    }
    EffectIsAll(s, a);
    EffectOnLog(s, a, Stream(i));
    if i < |s.svcs| {
      assert LoggedAt(s, i);
      if Effect(s, a).Update? && Effect(s, a).i == i {
        assert SvcInv(s.svcs[i]);
        EffectKeepsSpoken(s, a);
      }
    }
  }

  lemma StepKeepsLogged(s: Session, a: Action)
    requires AllStreams(s) && Logged(s) && Enabled(s, a)
    ensures Logged(Apply(s, a))
  {
    var t := Apply(s, a);
    EffectIsAll(s, a);
    forall i | 0 <= i < |t.svcs| ensures LoggedAt(t, i) {
      StepKeepsStream(s, a, i);
    }
    forall i | |t.svcs| <= i ensures Own(t.link.out, Stream(i)) == [] {
      EffectOnLog(s, a, Stream(i));
    }
  }

  lemma {:induction false} RunKeepsLogged(run: seq<Session>, k: nat)
    requires Run(run) && k < |run|
    ensures Logged(run[k])
  {
    if k > 0 {
      RunKeepsLogged(run, k - 1);
      RunKeepsInv(run, k - 1);
      var a := StepOf(run, k);
      StepKeepsLogged(run[k - 1], a);
    }
  }

  /** In every run only the last packet on the connection can have been cut, and then the connection has failed. */
  lemma {:induction false} OnlyLastIsCut(run: seq<Session>, k: nat)
    requires Run(run) && k < |run|
    ensures OnlyLastTorn(run[k].link)
  {
    if k > 0 {
      OnlyLastIsCut(run, k - 1);
      var a := StepOf(run, k);
      StepKeepsOnlyLastTorn(run[k - 1], a);
    }
  }

  lemma StepKeepsOnlyLastTorn(s: Session, a: Action)
    requires OnlyLastTorn(s.link) && Enabled(s, a)
    ensures OnlyLastTorn(Apply(s, a).link)
  {
    match a {
      case Say(i, o) => EmitKeepsOnlyLastTorn(s.link, Stream(i), Message(s.svcs[i]), o);
      case LoopSay(o) => EmitKeepsOnlyLastTorn(s.link, Loop, LoopMessage(s), o);
      case _ =>
    }
  }

  // ---- The theorems

  /** What a stream may say: one OPEN or OKAY, then WRTEs, then at most one CLSE and nothing more. */
  ghost predicate WellSpoken(v: Svc, ps: seq<Packet>)
  {
    forall a :: 0 <= a < |ps| ==>
      if ps[a].command == CMD_CLSE then a == |ps| - 1 && IsParting(v, ps[a])
      else if a == 0 then IsGreeting(v, ps[a])
      else IsWrte(v, ps[a])
  }

  lemma SpokenIsWellSpoken(v: Svc)
    requires Control(v) && Addressed(v)
    ensures WellSpoken(v, Spoken(v.log))
  {
    var l, ps := v.log, Spoken(v.log);
    forall a | 0 <= a < |ps|
      ensures if ps[a].command == CMD_CLSE then a == |ps| - 1 && IsParting(v, ps[a])
              else if a == 0 then IsGreeting(v, ps[a])
              else IsWrte(v, ps[a])
    {
      if a < |l.greeting| {
        assert ps[a] == l.greeting[a] && IsGreeting(v, l.greeting[a]);
      } else if a < |l.greeting| + |l.wrtes| {
        assert ps[a] == l.wrtes[a - |l.greeting|] && IsWrte(v, ps[a]);
      } else {
        assert ps[a] == l.parting[a - |l.greeting| - |l.wrtes|] && IsParting(v, ps[a]);
      }
    }
  }

  /** In every run each stream says at most one CLSE, last, and has left the service map when it says it. */
  lemma AtMostOneClose(run: seq<Session>, k: nat, i: nat)
    requires Run(run) && k < |run| && i < |run[k].svcs|
    ensures var s := run[k];
            var ps := Own(s.link.out, Stream(i));
            && WellSpoken(s.svcs[i], ps)
            && ((exists p :: p in ps && p.command == CMD_CLSE) || s.svcs[i].pc.Parting? ==> i !in s.table.Values)
  {
    var s := run[k];
    RunKeepsInv(run, k);
    RunKeepsLogged(run, k);
    assert SvcInv(s.svcs[i]) && LoggedAt(s, i);
    SpokenIsWellSpoken(s.svcs[i]);
    if p :| p in Spoken(s.svcs[i].log) && p.command == CMD_CLSE {
      assert p in s.svcs[i].log.parting;
      assert s.svcs[i].pc.Finished?;
    }
  }

  /**
   * While the session is open and its connection whole, a finished stream has said exactly one CLSE, or
   * finish chose silence. Silence is only for a stream that sent no data and at most an OPEN; a stream that
   * is to this day neither opened nor given a remote ID was silent.
   */
  lemma FinishedStreamHasClosed(run: seq<Session>, k: nat, i: nat)
    requires Run(run) && k < |run| && i < |run[k].svcs| && run[k].svcs[i].pc.Finished?
    requires !run[k].link.closed && !run[k].link.broken
    ensures var v, ps := run[k].svcs[i], Own(run[k].link.out, Stream(i));
            && (v.pc.silent ==> ps == [] || (|ps| == 1 && v.kind == Outbound && ps[0].command == CMD_OPEN))
            && (!v.pc.silent ==> ps != [] && ps[|ps| - 1].command == CMD_CLSE)
            && (!v.isOpen && v.remoteID == 0 ==> v.pc.silent)
  {
    var v := run[k].svcs[i];
    RunKeepsInv(run, k);
    RunKeepsLogged(run, k);
    assert SvcInv(v) && LoggedAt(run[k], i);
    if v.pc.silent {
      assert Spoken(v.log) == v.log.greeting;
      assert v.log.greeting != [] ==> IsGreeting(v, v.log.greeting[0]);
    } else {
      assert Spoken(v.log)[|Spoken(v.log)| - 1] == v.log.parting[0] && IsParting(v, v.log.parting[0]);
    }
  }

  /** finish has loaded a zero remote ID and is about to find the stream not opened. */
  predicate FoundUnopened(s: Session, i: nat)
  {
    i < |s.svcs| && s.svcs[i].pc == Deciding(0) && !s.svcs[i].isOpen
  }

  /** Finish chose silence because it found the stream unopened, after having found no remote ID. */
  lemma {:induction false} SilenceWasDecided(run: seq<Session>, k: nat, i: nat)
    requires Run(run) && k < |run| && i < |run[k].svcs| && run[k].svcs[i].pc == Finished(true)
    ensures exists j :: 0 <= j < k && FoundUnopened(run[j], i)
  {
    if k > 0 {
      SilencedAt(run, k, i);
      if !FoundUnopened(run[k - 1], i) {
        SilenceWasDecided(run, k - 1, i);
      }
    }
  }

  lemma SilencedAt(run: seq<Session>, k: nat, i: nat)
    requires Run(run) && 0 < k < |run| && i < |run[k].svcs| && run[k].svcs[i].pc == Finished(true)
    ensures i < |run[k - 1].svcs| && (run[k - 1].svcs[i].pc == Finished(true) || FoundUnopened(run[k - 1], i))
  {
    var a := StepOf(run, k);
    SilencedBy(run[k - 1], a, i);
  }

  lemma SilencedBy(s: Session, a: Action, i: nat)
    requires Enabled(s, a) && i < |Apply(s, a).svcs| && Apply(s, a).svcs[i].pc == Finished(true)
    ensures i < |s.svcs|
    ensures s.svcs[i].pc == Finished(true) || (s.svcs[i].pc == Deciding(0) && !s.svcs[i].isOpen)
  {
    EffectIsAll(s, a);
    if a.Internal? && a.i == i {
      SilencedAlone(s.svcs[i], a.c, s.shake.maxPayload);
    }
  }

  lemma SilencedAlone(v: Svc, c: Choice, m: uint32)
    requires CanStep(v, c) && StepSvc(v, c, m).pc == Finished(true)
    ensures v.pc == Deciding(0) && !v.isOpen
  {
  }
}
