/** As long as no local ID is given out twice, the OPENs and WRTEs with a stream's ID are that stream's own. */
module RequestsByID {
  import opened Bytes
  import opened Adbwire
  import opened Emissions
  import opened Multiplexer
  import opened StreamInvariant
  import opened FlowControl

  /** The OPENs and WRTEs of stream `id` among the emissions, whoever wrote them. */
  function Asked(out: seq<Emission>, id: uint32): seq<Packet>
  {
    if out == [] then [] else Asked(out[..|out| - 1], id) + Only(out[|out| - 1].packet, id)
  }

  function Only(p: Packet, id: uint32): seq<Packet>
  {
    if IsRequestOf(p, id) then [p] else []
  }

  /** The same packets as their writer remembers them. */
  function Asking(v: Svc): seq<Packet>
  {
    (if v.kind == Outbound then v.log.greeting else []) + v.log.wrtes
  }

  lemma AskedSnoc(out: seq<Emission>, e: Emission, id: uint32)
    ensures Asked(out + [e], id) == Asked(out, id) + Only(e.packet, id)
  {
    assert (out + [e])[..|out|] == out;
  }

  /** No local ID has been given out twice. */
  ghost predicate DistinctIDs(s: Session)
  {
    forall i, j :: 0 <= i < j < |s.svcs| ==> s.svcs[i].localID != s.svcs[j].localID
  }

  /** Every OPEN and WRTE on the connection was written by the one stream that has its ID. */
  ghost predicate AskedByOwner(s: Session)
  {
    && (s.loop.Replying? ==> s.loop.packet.command != CMD_OPEN && s.loop.packet.command != CMD_WRTE)
    && (forall i :: 0 <= i < |s.svcs| ==> Asked(s.link.out, s.svcs[i].localID) == Asking(s.svcs[i]))
    && (forall id :: (forall i :: 0 <= i < |s.svcs| ==> s.svcs[i].localID != id) ==> Asked(s.link.out, id) == [])
  }

  /** The packet an action writes, if it writes one. */
  function Written(s: Session, a: Action): Option<Packet>
    requires Enabled(s, a)
  {
    match a
    case Say(i, o) => if o == Refused then None else Some(Message(s.svcs[i]))
    case LoopSay(o) => if o == Refused then None else Some(LoopMessage(s))
    case _ => None
  }

  lemma AskedAfter(s: Session, a: Action, id: uint32)
    requires Enabled(s, a)
    ensures Asked(Apply(s, a).link.out, id) ==
            Asked(s.link.out, id) + if Written(s, a).Some? then Only(Written(s, a).value, id) else []
  {
    var out, out' := s.link.out, Apply(s, a).link.out;
    if out' != out {
      assert out' == out + [out'[|out|]];
      AskedSnoc(out, out'[|out|], id);
    }
  }

  /** A write joins the stream's requests exactly when it is an OPEN or WRTE, and then it carries its ID. */
  lemma SaidRequests(v: Svc, o: Outcome)
    requires Control(v) && Speaking(v)
    ensures Said(v, o).localID == v.localID
    ensures Asking(Said(v, o)) == Asking(v) + if o == Refused then [] else Only(Message(v), v.localID)
    ensures forall id :: id != v.localID ==> !IsRequestOf(Message(v), id)
  {
    var l, w, begun := v.log, Said(v, o).log, if o == Refused then [] else [Message(v)];
    match v.pc {
      case Greeting(_) => assert l.wrtes == w.wrtes == l.greeting == [] && w.greeting == begun;
      case Writing(_, _, _) =>
        assert w.greeting == l.greeting && w.wrtes == l.wrtes + begun;
        Assoc(if v.kind == Outbound then l.greeting else [], l.wrtes, begun);
      case Parting(_, _) => assert w.greeting == l.greeting && w.wrtes == l.wrtes;
    }
  }

  lemma OtherRequests(s: Session, a: Action)
    requires Enabled(s, a) && Effect(s, a).Update? && !a.Say?
    ensures var v, w := s.svcs[Effect(s, a).i], Effect(s, a).v;
            w.localID == v.localID && Asking(w) == Asking(v)
  {
    if a.Internal? {
      StepRequests(s.svcs[a.i], a.c, s.shake.maxPayload);
    }
  }

  lemma StepRequests(v: Svc, c: Choice, m: uint32)
    requires CanStep(v, c)
    ensures StepSvc(v, c, m).localID == v.localID && Asking(StepSvc(v, c, m)) == Asking(v)
  {
    StepFrame(v, c, m);
  }

  lemma LoopStaysPolite(s: Session, a: Action)
    requires AskedByOwner(s) && Enabled(s, a)
    ensures var t := Apply(s, a);
            t.loop.Replying? ==> t.loop.packet.command != CMD_OPEN && t.loop.packet.command != CMD_WRTE
  {
  }

  lemma StepKeepsAskedByOwner(s: Session, a: Action)
    requires AllStreams(s) && AskedByOwner(s) && Enabled(s, a) && DistinctIDs(Apply(s, a))
    ensures AskedByOwner(Apply(s, a))
  {
    var t := Apply(s, a);
    EffectIsAll(s, a);
    LoopStaysPolite(s, a);
    forall i | 0 <= i < |t.svcs| ensures Asked(t.link.out, t.svcs[i].localID) == Asking(t.svcs[i]) {
      OwnerStep(s, a, i);
    }
    forall id | forall i :: 0 <= i < |t.svcs| ==> t.svcs[i].localID != id ensures Asked(t.link.out, id) == [] {
      AskedAfter(s, a, id);
      forall i | 0 <= i < |s.svcs| ensures s.svcs[i].localID != id {
        SameID(s, a, i);
        assert t.svcs[i].localID != id;
      }
      if a.Say? {
        assert SvcInv(s.svcs[a.i]);
        SaidRequests(s.svcs[a.i], a.o);
      }
    }
  }

  lemma SameID(s: Session, a: Action, i: nat)
    requires Enabled(s, a) && i < |s.svcs|
    ensures i < |Apply(s, a).svcs| && Apply(s, a).svcs[i].localID == s.svcs[i].localID
  {
    EffectIsAll(s, a);
    if Effect(s, a).Update? {
      EffectOnAcks(s, a);
    }
  }

  lemma OwnerSays(s: Session, a: Action, i: nat)
    requires AllStreams(s) && AskedByOwner(s) && Enabled(s, a) && DistinctIDs(Apply(s, a)) && i < |Apply(s, a).svcs|
    requires a.Say?
    ensures Asked(Apply(s, a).link.out, Apply(s, a).svcs[i].localID) == Asking(Apply(s, a).svcs[i])
  {
    var t := Apply(s, a);
    AskedAfter(s, a, t.svcs[i].localID);
    assert SvcInv(s.svcs[a.i]);
    SaidRequests(s.svcs[a.i], a.o);
    assert i != a.i ==> t.svcs[i].localID != t.svcs[a.i].localID;
  }

  lemma OwnerStep(s: Session, a: Action, i: nat)
    requires AllStreams(s) && AskedByOwner(s) && Enabled(s, a) && DistinctIDs(Apply(s, a)) && i < |Apply(s, a).svcs|
    ensures Asked(Apply(s, a).link.out, Apply(s, a).svcs[i].localID) == Asking(Apply(s, a).svcs[i])
  {
    var t := Apply(s, a);
    if a.Say? {
      OwnerSays(s, a, i);
      return;
    }
    EffectIsAll(s, a);
    AskedAfter(s, a, t.svcs[i].localID);
    if Effect(s, a).Update? {
      OtherRequests(s, a);
    } else if i == |s.svcs| {
      forall j | 0 <= j < |s.svcs| ensures s.svcs[j].localID != t.svcs[i].localID {
        assert t.svcs[j].localID != t.svcs[i].localID;
      }
    }
  }

  lemma DistinctBefore(s: Session, a: Action)
    requires Enabled(s, a) && DistinctIDs(Apply(s, a))
    ensures DistinctIDs(s)
  {
    forall i, j | 0 <= i < j < |s.svcs| ensures s.svcs[i].localID != s.svcs[j].localID {
      SameID(s, a, i);
      SameID(s, a, j);
    }
  }

  lemma {:induction false} RunKeepsAskedByOwner(run: seq<Session>, k: nat)
    requires Run(run) && k < |run| && DistinctIDs(run[k])
    ensures AskedByOwner(run[k])
  {
    if k > 0 {
      var a := StepOf(run, k);
      DistinctBefore(run[k - 1], a);
      RunKeepsInv(run, k - 1);
      RunKeepsAskedByOwner(run, k - 1);
      StepKeepsAskedByOwner(run[k - 1], a);
    }
  }
}
