/**
 The service object and the bodies of its goroutine (src/internal/bridge/service.go), statement by statement, tied to
 the step machine: whatever the other goroutines do in between, each body takes exactly the machine's steps and writes
 exactly the machine's packets.
 */
module Service {
  import opened Bytes
  import opened Streams
  import opened Adbwire
  import opened Emissions
  import opened Multiplexer
  import opened StreamInvariant
  import opened CloseDiscipline
  import opened Handshaking
  import opened Openings
  import opened Line
  import WireFormats

  // ---- Histories of one stream

  /** A step of the goroutine, or of others on its fields. */
  datatype Move =
    | Step(c: Choice, maxPayload: uint32)
    | Speak(o: Outcome)
    | Unmap
    | AckBy(remote: uint32, stage: AckStage)
    | CloseBy
    | FeedBy(data: seq<byte>)

  predicate CanMove(v: Svc, m: Move)
  {
    match m
    case Step(c, _) => CanStep(v, c)
    case Speak(_) => Speaking(v)
    case Unmap => v.pc.Leaving?
    case _ => true
  }

  function Moved(v: Svc, m: Move): Svc
    requires CanMove(v, m)
  {
    match m
    case Step(c, maxPayload) => StepSvc(v, c, maxPayload)
    case Speak(o) => Said(v, o)
    case Unmap => v.(pc := Checking)
    case AckBy(remote, stage) => Acked(v, remote, stage)
    case CloseBy => CloseSvc(v)
    case FeedBy(data) => Fed(v, data)
  }

  /** The packet whose writing the move begins. */
  function Uttered(v: Svc, m: Move): seq<Packet>
    requires CanMove(v, m)
  {
    if m.Speak? && m.o != Refused then [Message(v)] else []
  }

  /** A stream in the course of a history, and what it has said until then. */
  datatype Point = Point(v: Svc, said: seq<Packet>)

  /** The machine takes the move from one point to the next; buffers are never larger than CNXN can negotiate. */
  predicate Takes(p: Point, m: Move, q: Point)
  {
    && CanMove(p.v, m) && (m.Step? ==> m.maxPayload <= MAX_WRITE_PAYLOAD)
    && q == Point(Moved(p.v, m), p.said + Uttered(p.v, m))
  }

  /** A history of one stream. */
  ghost predicate Follows(points: seq<Point>, trace: seq<Move>)
  {
    && |points| == |trace| + 1
    && forall k {:trigger trace[k]} :: 0 <= k < |trace| ==> Takes(points[k], trace[k], points[k + 1])
  }

  lemma FollowsSnoc(points: seq<Point>, trace: seq<Move>, m: Move, q: Point)
    requires Follows(points, trace) && Takes(points[|trace|], m, q)
    ensures Follows(points + [q], trace + [m])
  {
    forall k | 0 <= k < |trace| ensures (trace + [m])[k] == trace[k] {
    }
  }

  lemma OwnStepKeeps(v: Svc, c: Choice, maxPayload: uint32)
    requires SvcInv(v) && CanStep(v, c) && maxPayload <= MAX_WRITE_PAYLOAD
    ensures SvcInv(StepSvc(v, c, maxPayload)) && Spoken(StepSvc(v, c, maxPayload).log) == Spoken(v.log)
  {
    StepKeepsInv(v, c, maxPayload);
    StepKeepsSpoken(v, c, maxPayload);
  }

  lemma AckKeeps(v: Svc, remote: uint32, stage: AckStage)
    requires SvcInv(v)
    ensures SvcInv(Acked(v, remote, stage)) && Spoken(Acked(v, remote, stage).log) == Spoken(v.log)
  {
    match stage {
      case CasRemote => AckCasKeepsInv(v, remote);
      case MarkOpened => AckMarkKeepsInv(v);
      case PutToken => AckTokenKeepsInv(v);
    }
  }

  lemma SpeakKeeps(v: Svc, o: Outcome)
    requires SvcInv(v) && Speaking(v)
    ensures SvcInv(Said(v, o)) && Spoken(Said(v, o).log) == Spoken(v.log) + if o == Refused then [] else [Message(v)]
  {
    SaidKeepsInv(v, o);
    SaidExtendsSpoken(v, o);
  }

  lemma MoveKeepsInv(v: Svc, m: Move)
    requires SvcInv(v) && CanMove(v, m) && (m.Step? ==> m.maxPayload <= MAX_WRITE_PAYLOAD)
    ensures SvcInv(Moved(v, m)) && Spoken(Moved(v, m).log) == Spoken(v.log) + Uttered(v, m)
  {
    assert Spoken(v.log) + [] == Spoken(v.log);
    match m {
      case Step(c, maxPayload) => OwnStepKeeps(v, c, maxPayload);
      case Speak(o) => SpeakKeeps(v, o);
      case AckBy(remote, stage) => AckKeeps(v, remote, stage);
      case Unmap => LeaveKeepsInv(v);
      case CloseBy => CloseKeepsInv(v);
      case FeedBy(data) => FedKeepsInv(v, data);
    }
  }

  /** A history keeps the invariant of every stream, and what it writes is what the stream's record says. */
  lemma {:induction false} HistoryKeepsInv(points: seq<Point>, trace: seq<Move>, k: nat)
    requires Follows(points, trace) && k <= |trace|
    requires SvcInv(points[0].v) && Spoken(points[0].v.log) == points[0].said
    ensures SvcInv(points[k].v) && Spoken(points[k].v.log) == points[k].said
  {
    if k > 0 {
      HistoryKeepsInv(points, trace, k - 1);
      assert Takes(points[k - 1], trace[k - 1], points[k]);
      MoveKeepsInv(points[k - 1].v, trace[k - 1]);
    }
  }

  lemma MoveKeepsNamed(v: Svc, m: Move, remote: uint32)
    requires Named(v, remote) && remote != 0 && Control(v) && CanMove(v, m)
    ensures Named(Moved(v, m), remote)
  {
    match m {
      case Step(c, maxPayload) => StepKeepsNamed(v, c, maxPayload, remote);
      case Speak(o) => SaidKeepsNamed(v, o, remote);
      case AckBy(id, stage) => AckedKeepsNamed(v, id, stage, remote);
      case FeedBy(data) => TouchKeepsNamed(v, data, 0, remote);
      case _ => TouchKeepsNamed(v, [], 0, remote);
    }
  }

  lemma MoveGivesUpOnlyClosed(v: Svc, m: Move)
    requires CanMove(v, m) && v.remoteID != 0 && !v.log.gaveUp
    ensures Moved(v, m).log.gaveUp ==> v.pc.Waiting? && v.done
  {
    match m {
      case Step(c, maxPayload) => GivesUpOnlyClosed(v, c, maxPayload);
      case _ =>
    }
  }

  /** At some point of the history the stream was closed while it waited for a token. */
  ghost predicate WasClosedWaiting(points: seq<Point>)
  {
    exists k :: 0 <= k < |points| && points[k].v.pc.Waiting? && points[k].v.done
  }

  /** In any history a stream keeps the ID it was opened under, and gives up only when it is closed while it waits. */
  lemma {:induction false} HistoryKeepsNamed(points: seq<Point>, trace: seq<Move>, k: nat, remote: uint32)
    requires Follows(points, trace) && k <= |trace| && SvcInv(points[0].v)
    requires Spoken(points[0].v.log) == points[0].said && !points[0].v.log.gaveUp
    requires Named(points[0].v, remote) && remote != 0
    ensures Named(points[k].v, remote) && (points[k].v.log.gaveUp ==> WasClosedWaiting(points))
  {
    if k > 0 {
      HistoryKeepsNamed(points, trace, k - 1, remote);
      HistoryKeepsInv(points, trace, k - 1);
      assert Takes(points[k - 1], trace[k - 1], points[k]);
      MoveKeepsNamed(points[k - 1].v, trace[k - 1], remote);
      if !points[k - 1].v.log.gaveUp {
        MoveGivesUpOnlyClosed(points[k - 1].v, trace[k - 1]);
      }
    }
  }

  /** The part of a stream only its own goroutine changes. */
  datatype View = View(pc: Pc, buf: seq<byte>, read: seq<byte>, gaveUp: bool)

  function ViewOf(v: Svc): View
  {
    View(v.pc, v.buf, v.log.read, v.log.gaveUp)
  }

  /** Where a stream goes after its write. */
  function AfterSaying(v: Svc, sent: bool): Pc
  {
    match v.pc
    case Greeting(_) =>
      (if !sent then Closing
       else match v.kind
            case Inbound => Starting
            case Local => Loading(|v.buf|, ToFinish)
            case Outbound => Waiting(ToPump))
    case Writing(_, _, next) => if sent then Waiting(next) else Closing
    case _ => Finished(false)
  }

  /** Without a remote ID it gives up. */
  function Loaded(v: View, remote: uint32): View
    requires v.pc.Loading?
  {
    if remote == 0 then v.(pc := Closing, gaveUp := true) else v.(pc := Writing(remote, v.pc.n, v.pc.next))
  }

  /** A token lets it go on; a close makes it give up. */
  function Waited(v: View, granted: bool): View
    requires v.pc.Waiting?
  {
    v.(pc := AfterWait(v.pc.next, granted), gaveUp := v.gaveUp || !granted)
  }

  function AfterWait(next: Then, granted: bool): Pc
  {
    if !granted then Closing else match next case ToPump => Starting case ToRead => Reading case ToFinish => Closing
  }

  // ---- The objects

  /** The handshake and the ID counter after one packet of the read loop. */
  function Shaken(h: Multiplexer.Session, packet: Packet, random: Option<seq<byte>>): Multiplexer.Session
  {
    h.(shake := Dispatch(h, packet, random).shake, nextLocalID := Dispatch(h, packet, random).nextLocalID)
  }

  lemma SettledIsKept(h: Multiplexer.Session, packet: Packet, random: Option<seq<byte>>)
    requires packet.command !in {CMD_OPEN, CMD_CNXN, CMD_AUTH}
    ensures Shaken(h, packet, random) == h
  {
  }

  /** And after several. */
  ghost function Served(h: Multiplexer.Session, handled: seq<(Packet, Option<seq<byte>>)>): Multiplexer.Session
  {
    if handled == [] then h
    else Shaken(Served(h, handled[..|handled| - 1]), handled[|handled| - 1].0, handled[|handled| - 1].1)
  }

  ghost function PacketsOf(handled: seq<(Packet, Option<seq<byte>>)>): seq<Packet>
  {
    if handled == [] then [] else PacketsOf(handled[..|handled| - 1]) + [handled[|handled| - 1].0]
  }

  /** A packet that ends the read loop by itself: a bad OPEN, AUTH or command, or no random bytes for a challenge. */
  predicate Stops(h: Multiplexer.Session, packet: Packet, random: Option<seq<byte>>)
  {
    Dispatch(h, packet, random).loop.Stopped?
  }

  /** None of the packets ends the read loop by itself. */
  ghost predicate NoneStops(h: Multiplexer.Session, handled: seq<(Packet, Option<seq<byte>>)>)
  {
    handled == [] ||
    (var init, last := handled[..|handled| - 1], handled[|handled| - 1];
     NoneStops(h, init) && !Stops(Served(h, init), last.0, last.1))
  }

  /** What the read loop does to the addressed stream for a packet it handles. */
  function Felt(v: Svc, p: Packet): Svc
  {
    if p.command == CMD_OKAY then AckToken(AckMark(AckCas(v, p.arg0)))
    else if p.command == CMD_WRTE then Fed(v, p.payload)
    else if p.command == CMD_CLSE then CloseSvc(v)
    else v
  }

  /** The streams of the map after one handled packet, the n-th: one more for an OPEN, or the addressed one affected. */
  function Streamed(h: Multiplexer.Session, m: map<uint32, Svc>, p: Packet, n: nat): map<uint32, Svc>
  {
    if p.command == CMD_OPEN then
      if Opens(h, p) then m[h.nextLocalID := Started(Opening(h, p), n)] else m
    else if p.command in {CMD_OKAY, CMD_WRTE, CMD_CLSE} && p.arg1 in m then m[p.arg1 := Felt(m[p.arg1], p)]
    else m
  }

  lemma OthersStreamNothing(h: Multiplexer.Session, m: map<uint32, Svc>, p: Packet, n: nat)
    requires p.command !in {CMD_OPEN, CMD_OKAY, CMD_WRTE, CMD_CLSE}
    ensures Streamed(h, m, p, n) == m
  {
  }

  /** And after several. */
  ghost function StreamedAll(h: Multiplexer.Session, m: map<uint32, Svc>,
                             handled: seq<(Packet, Option<seq<byte>>)>): map<uint32, Svc>
  {
    if handled == [] then m
    else
      var init, last := handled[..|handled| - 1], handled[|handled| - 1];
      Streamed(Served(h, init), StreamedAll(h, m, init), last.0, |handled|)
  }

  lemma HandledOne(h: Multiplexer.Session, m: map<uint32, Svc>, handled: seq<(Packet, Option<seq<byte>>)>,
                   packet: Packet,
                   random: Option<seq<byte>>, ahead: seq<Packet>)
    requires ahead != [] && ahead[0] == packet
    ensures Served(h, handled + [(packet, random)]) == Shaken(Served(h, handled), packet, random)
    ensures PacketsOf(handled + [(packet, random)]) == PacketsOf(handled) + [packet]
    ensures PacketsOf(handled + [(packet, random)]) + ahead[1..] == PacketsOf(handled) + ahead
    ensures NoneStops(h, handled + [(packet, random)]) ==
              (NoneStops(h, handled) && !Stops(Served(h, handled), packet, random))
    ensures StreamedAll(h, m, handled + [(packet, random)]) ==
              Streamed(Served(h, handled), StreamedAll(h, m, handled), packet, |handled| + 1)
  {
    assert (handled + [(packet, random)])[..|handled|] == handled;
    HeadAndTail(ahead);
    Assoc(PacketsOf(handled), [packet], ahead[1..]);
  }

  /** Reading one packet takes the first of those the bytes decode to, however the stream ends. */
  lemma NextPacket(s: seq<byte>, end: IoError)
    ensures var (result, rest) := Decode(s, end);
            match result
            case Read(packet) => |rest| < |s| && DecodeAll(s).0 == [packet] + DecodeAll(rest).0
            case Failed(_) => DecodeAll(s).0 == []
  {
    assert Decode(s, end).0.Read? <==> Decode(s, Eof).0.Read?;
  }

  /** The read loop's writing of one packet, whole, cut or turned away. */
  ghost predicate Replied(before: Link, after: Link, packet: Packet, ok: bool)
  {
    || after == Emit(before, Loop, packet, if ok then Sent else Torn)
    || (!ok && after == before && (before.closed || before.broken))
  }

  /** The machine's answer to the packet is on the connection, if it has one. */
  ghost predicate Answered(h: Multiplexer.Session, packet: Packet, random: Option<seq<byte>>, before: Link, after: Link,
                           ok: bool)
  {
    var loop := Dispatch(h, packet, random).loop;
    if loop.Replying? then Replied(before, after, loop.packet, ok) else after == before && ok == !loop.Stopped?
  }

  /** The effect of a packet on the stream it addresses, and what the read loop writes for it. */
  ghost predicate StreamEffect(packet: Packet, v: Svc, w: Svc, before: Link, after: Link, ok: bool)
  {
    if packet.command == CMD_OKAY then
      ok && after == before && w == AckToken(AckMark(AckCas(v, packet.arg0)))
    else if packet.command == CMD_CLSE then
      ok && after == before && w == CloseSvc(v)
    else if packet.command == CMD_WRTE then
      // an OKAY only after the whole payload has been taken
      || (w == Fed(v, packet.payload) && Replied(before, after, Packet(CMD_OKAY, v.localID, v.remoteID, []), ok))
      || (!ok && after == before && exists n: nat :: n <= |packet.payload| && w == Fed(v, packet.payload[..n]))
    else
      true
  }

  /** The one stream the packet is for, if there is one, has felt it; else nothing has happened. */
  ghost predicate Touched(m: map<uint32, Svc>, w: map<uint32, Svc>, before: Link, after: Link, packet: Packet, ok: bool)
  {
    if packet.arg1 in m then
      packet.arg1 in w && w == m[packet.arg1 := w[packet.arg1]] &&
      StreamEffect(packet, m[packet.arg1], w[packet.arg1], before, after, ok)
    else
      ok && after == before && w == m
  }

  /** The conn of the stream takes the whole payload, or less of it and fails. */
  ghost predicate Accepts(v: Svc, w: Svc, payload: seq<byte>, ok: bool)
  {
    if ok then w == Fed(v, payload) else exists n: nat :: n <= |payload| && w == Fed(v, payload[..n])
  }

  lemma DeliveryTouches(m: map<uint32, Svc>, w: map<uint32, Svc>, before: Link, after: Link, packet: Packet,
                        taken: bool, ok: bool)
    requires packet.command == CMD_WRTE && packet.arg1 in m && packet.arg1 in w && w == m[packet.arg1 := w[packet.arg1]]
    requires Accepts(m[packet.arg1], w[packet.arg1], packet.payload, taken)
    requires var v := m[packet.arg1];
             if taken then Replied(before, after, Packet(CMD_OKAY, v.localID, v.remoteID, []), ok)
             else !ok && after == before
    ensures Touched(m, w, before, after, packet, ok)
  {
  }

  /**
   All that a packet does to the handshake and the ID counter (h), the connection (before) and the streams (m): the
   first two move as the machine's; an OPEN adds a stream or is refused; OKAY, WRTE and CLSE affect the addressed stream
   alone; any other packet is answered as by the machine.
   */
  ghost predicate PacketEffect(h: Multiplexer.Session, g: Multiplexer.Session, before: Link, after: Link, m: map<uint32,
                               Svc>,
                         w: map<uint32, Svc>, packet: Packet, random: Option<seq<byte>>, n: nat, ok: bool)
  {
    && g == Shaken(h, packet, random)
    && if packet.command == CMD_OPEN then
         && ok == Opens(h, packet) && after == before
         && w == if ok then m[h.nextLocalID := Started(Opening(h, packet), n)] else m
       else if packet.command in {CMD_OKAY, CMD_WRTE, CMD_CLSE} then Touched(m, w, before, after, packet, ok)
       else w == m && Answered(h, packet, random, before, after, ok)
  }

  /** What the handshake comes to, and what is on the connection for it, in the protocol's own numbers. */
  ghost predicate ShakesHands(h: Handshake, packet: Packet, random: Option<seq<byte>>, g: Handshake, before: Link,
                              after: Link, ok: bool)
  {
    && Settles(h, packet, g)
    && (HasAnswer(h.authNone, packet) && (packet.command != CMD_CNXN || h.authNone || random.Some?) ==>
          exists q :: IsAnswer(g, packet, random, q) && Replied(before, after, q, ok))
    && (Ends(h, packet, random.Some?) ==> !ok && after == before)
  }

  lemma EffectShakes(h: Multiplexer.Session, g: Multiplexer.Session, before: Link, after: Link, m: map<uint32, Svc>,
                     w: map<uint32, Svc>, packet: Packet, random: Option<seq<byte>>, n: nat, ok: bool)
    requires PacketEffect(h, g, before, after, m, w, packet, random, n, ok) && h.loop.Idle?
    ensures ShakesHands(h.shake, packet, random, g.shake, before, after, ok)
  {
    DispatchAnswers(h, packet, random);
  }

  lemma OpenIsEffect(h: Multiplexer.Session, g: Multiplexer.Session, link: Link, m: map<uint32, Svc>,
                     w: map<uint32, Svc>, packet: Packet, random: Option<seq<byte>>, n: nat, ok: bool)
    requires packet.command == CMD_OPEN && ok == Opens(h, packet)
    requires g == h.(nextLocalID := if ok then NextID(h.nextLocalID) else h.nextLocalID)
    requires w == if ok then m[h.nextLocalID := Started(Opening(h, packet), n)] else m
    ensures PacketEffect(h, g, link, link, m, w, packet, random, n, ok)
  {
  }

  /** Only the stream with this ID, if there is one, differs. */
  predicate SameBut(m: map<uint32, Svc>, w: map<uint32, Svc>, id: uint32)
  {
    w.Keys == m.Keys && forall k :: k in m && k != id ==> w[k] == m[k]
  }

  /** A packet handled has moved the streams; one not handled leaves the loop for cause. */
  lemma EffectIs(h: Multiplexer.Session, g: Multiplexer.Session, before: Link, after: Link, m: map<uint32, Svc>,
                 w: map<uint32, Svc>, packet: Packet, random: Option<seq<byte>>, n: nat, ok: bool)
    requires PacketEffect(h, g, before, after, m, w, packet, random, n, ok) && h.loop.Idle?
    ensures if ok then w == Streamed(h, m, packet, n) && !Stops(h, packet, random) else SameBut(m, w, packet.arg1)
    ensures !ok && packet.command != CMD_WRTE ==> Stops(h, packet, random) || after.closed || after.broken
  {
  }

  /** The last packet ended the read loop by itself. */
  ghost predicate LastStops(h: Multiplexer.Session, handled: seq<(Packet, Option<seq<byte>>)>)
  {
    handled != [] &&
    var init, last := handled[..|handled| - 1], handled[|handled| - 1];
    Stops(Served(h, init), last.0, last.1)
  }

  /**
   What the read loop has done from a handshake and counter h and streams m: g and w are what the packets handled have
   made of them; a refused packet, which was the last, has left all streams but its own alone.
   */
  ghost predicate HaveRun(h: Multiplexer.Session, g: Multiplexer.Session, m: map<uint32, Svc>, w: map<uint32, Svc>,
                          handled: seq<(Packet, Option<seq<byte>>)>, refused: bool)
  {
    && g == Served(h, handled)
    && if !refused then NoneStops(h, handled) && w == StreamedAll(h, m, handled)
       else
         && handled != []
         && var init, last := handled[..|handled| - 1], handled[|handled| - 1];
            NoneStops(h, init) && SameBut(StreamedAll(h, m, init), w, last.0.arg1)
  }

  /** Through with the packets: all of them, or up to one refused. */
  ghost predicate Through(h: Multiplexer.Session, g: Multiplexer.Session, m: map<uint32, Svc>, w: map<uint32, Svc>,
                          handled: seq<(Packet, Option<seq<byte>>)>, refused: bool, all: seq<Packet>)
  {
    HaveRun(h, g, m, w, handled, refused) && PacketsOf(handled) <= all && (!refused ==> PacketsOf(handled) == all)
  }

  /** Halfway: `ahead` is still to come of all packets. */
  ghost predicate Halfway(h: Multiplexer.Session, g: Multiplexer.Session, m: map<uint32, Svc>, w: map<uint32, Svc>,
                          handled: seq<(Packet, Option<seq<byte>>)>, all: seq<Packet>, ahead: seq<Packet>)
  {
    HaveRun(h, g, m, w, handled, false) && PacketsOf(handled) + ahead == all
  }

  lemma OneFurther(h: Multiplexer.Session, g: Multiplexer.Session, m: map<uint32, Svc>, w: map<uint32, Svc>,
                   handled: seq<(Packet, Option<seq<byte>>)>, all: seq<Packet>, packet: Packet, rest: seq<Packet>,
                   random: Option<seq<byte>>, x: map<uint32, Svc>, ok: bool)
    requires Halfway(h, g, m, w, handled, all, [packet] + rest)
    requires if ok then x == Streamed(g, w, packet, |handled| + 1) && !Stops(g, packet, random)
             else SameBut(w, x, packet.arg1)
    ensures var longer := handled + [(packet, random)];
            && (ok ==> Halfway(h, Shaken(g, packet, random), m, x, longer, all, rest))
            && (!ok ==> Through(h, Shaken(g, packet, random), m, x, longer, true, all))
            && (Stops(g, packet, random) ==> LastStops(h, longer)) && longer[|longer| - 1].0 == packet
  {
    HandledOne(h, m, handled, packet, random, [packet] + rest);
    assert (handled + [(packet, random)])[..|handled|] == handled;
    assert ([packet] + rest)[1..] == rest;
  }

  /** session: the connection all streams share, the service map and what the handshake has settled. */
  class Session {
    const line: Line
    const authNone: bool
    const deviceID: seq<byte>
    var services: map<uint32, Service>
    var nextLocalID: uint32
    var authorized: bool
    var version: uint32
    var maxPayload: uint32
    ghost var limits: set<uint32>   // all that maxPayload has been
    ghost var repr: set<Service>    // all services there have been

    constructor (line: Line, authNone: bool, deviceID: seq<byte>)
      ensures this.line == line && services == map[] && repr == {} && nextLocalID == 1 && LimitsOk()
      ensures Facade() == Initial(authNone, deviceID)
    {
      this.line, this.authNone, this.deviceID := line, authNone, deviceID;
      services, repr, nextLocalID := map[], {}, 1;
      authorized, version, maxPayload, limits := false, DEFAULT_VERSION, DEFAULT_MAX_PAYLOAD, {DEFAULT_MAX_PAYLOAD};
    }

    /** maxPayload has always been a limit that CNXN can have set. */
    ghost predicate LimitsOk()
      reads this`maxPayload, this`limits
    {
      maxPayload in limits && forall n :: n in limits ==> 0 < n <= MAX_WRITE_PAYLOAD
    }

    method SetMaxPayload(n: uint32)
      requires LimitsOk() && 0 < n <= MAX_WRITE_PAYLOAD
      modifies this`maxPayload, this`limits
      ensures LimitsOk() && maxPayload == n && limits == old(limits) + {n}
    {
      maxPayload := n;
      limits := limits + {n};
    }

    function Shake(): Handshake
      reads this
    {
      Handshake(authNone, deviceID, authorized, version, maxPayload)
    }

    /** The session as the machine sees it, its streams left aside. */
    function Facade(): Multiplexer.Session
      reads this
    {
      Multiplexer.Session([], map[], nextLocalID, Link(false, false, []), Idle, Open, Shake(), Client([], 0, 0))
    }

    method Reply(packet: Packet) returns (ok: bool)
      requires line.Valid()
      modifies line`link, line`chunks, line.conn
      ensures line.Valid() && Replied(old(line.link), line.link, packet, ok)
    {
      ghost var o;
      ok, o := line.WritePacket(packet, Loop);
    }

    /** The footprint covers the map. */
    ghost predicate Owned()
      reads this`services, this`repr
    {
      forall id {:trigger services[id]} :: id in services ==> services[id] in repr
    }

    /** The counter wraps at 32 bits and skips 0. */
    method AllocateLocalID() returns (localID: uint32)
      modifies this`nextLocalID
      ensures localID == old(nextLocalID) && nextLocalID == NextID(localID)
    {
      localID := nextLocalID;
      nextLocalID := (nextLocalID + 1) % 0x1_0000_0000;
      if nextLocalID == 0 {
        nextLocalID := 1;
      }
    }

    method PutService(localID: uint32, svc: Service)
      modifies this`services
      ensures services == old(services)[localID := svc]
    {
      services := services[localID := svc];
    }

    method GetService(localID: uint32) returns (svc: Option<Service>)
      ensures svc == if localID in services then Some(services[localID]) else None
    {
      svc := if localID in services then Some(services[localID]) else None;
    }

    method RemoveService(localID: uint32)
      modifies this`services
      ensures services == old(services) - {localID}
    {
      services := services - {localID};
    }

    /** The streams of the map are in order and as m says. */
    ghost predicate Holds(m: map<uint32, Svc>)
      reads this`services, services.Values
    {
      AreModels(services, this, m)
    }

    method StartService(kind: Kind, name: seq<byte>, remoteID: uint32, ghost taken: nat, ghost m: map<uint32, Svc>)
      returns (svc: Service)
      requires Holds(m) && Owned() && line.Valid()
      modifies this`services, this`repr, this`nextLocalID, line`created
      ensures line.Valid() && line.link == old(line.link) && fresh(svc) && Owned() && repr == old(repr) + {svc}
      ensures services == old(services)[old(nextLocalID) := svc] && Holds(m[old(nextLocalID) := svc.model])
      ensures Facade() == old(Facade()).(nextLocalID := NextID(old(nextLocalID)))
      ensures svc.kind == kind && svc.trace == [] && svc.Heard()
      ensures svc.name == name && svc.localID == old(nextLocalID) && svc.remoteID == remoteID
      ensures !svc.isOpen && !svc.attached && !svc.done && !svc.ackCh
      ensures svc.origin == svc.model == Started(NewSvc(kind, old(nextLocalID), remoteID, name), taken)
    {
      svc := NewService(kind, name, remoteID, taken, m);
      FileService(svc.localID, svc, m);
    }

    method NewService(kind: Kind, name: seq<byte>, remoteID: uint32, ghost taken: nat, ghost m: map<uint32, Svc>)
      returns (svc: Service)
      requires Holds(m) && Owned() && line.Valid()
      modifies this`nextLocalID, line`created
      ensures line.Valid() && line.link == old(line.link) && Holds(m) && Owned()
      ensures services == old(services) && repr == old(repr)
      ensures Facade() == old(Facade()).(nextLocalID := NextID(old(nextLocalID)))
      ensures fresh(svc) && svc.Valid() && svc.session == this && svc.localID == old(nextLocalID)
      ensures svc.kind == kind && svc.trace == [] && svc.Heard() && svc.name == name && svc.remoteID == remoteID
      ensures !svc.isOpen && !svc.attached && !svc.done && !svc.ackCh
      ensures svc.origin == svc.model == Started(NewSvc(kind, old(nextLocalID), remoteID, name), taken)
    {
      var localID := AllocateLocalID();
      ghost var index := line.Enrol();
      svc := new Service(this, index, kind, localID, remoteID, name, taken);
    }

    /** A service just started is as its goroutine expects it. */
    lemma StartedIsAtStart(svc: Service, m: map<uint32, Svc>, remoteID: uint32, taken: nat)
      requires Holds(m) && line.Valid() && LimitsOk() && svc in services.Values && svc.Heard() && svc.trace == []
      requires svc.origin == Started(NewSvc(svc.kind, svc.localID, remoteID, svc.name), taken)
      ensures svc.AtStart(svc.kind)
    {
      assert svc.session == this && svc.Filed();
    }

    method FileService(localID: uint32, svc: Service, ghost m: map<uint32, Svc>)
      requires Holds(m) && Owned() && svc.Valid() && svc.localID == localID && svc.session == this
      modifies this`services, this`repr
      ensures Owned() && repr == old(repr) + {svc}
      ensures services == old(services)[localID := svc] && Holds(m[localID := svc.model])
    {
      repr := repr + {svc};
      PutService(localID, svc);
    }

    method Negotiate(packet: Packet)
      requires LimitsOk()
      modifies this`version, this`maxPayload, this`limits
      ensures LimitsOk() && limits >= old(limits) && Shake() == Negotiated(old(Shake()), packet)
    {
      version := if packet.arg0 < DEFAULT_VERSION then packet.arg0 else DEFAULT_VERSION;
      if packet.arg1 > 0 {
        SetMaxPayload(if packet.arg1 > MAX_WRITE_PAYLOAD then MAX_WRITE_PAYLOAD else packet.arg1);
      }
    }

    /** CNXN: version and payload limit are capped; without authentication the session is authorized at once. */
    method HandleCnxn(packet: Packet, random: Option<seq<byte>>) returns (ok: bool)
      requires line.Valid() && LimitsOk()
      modifies this`version, this`maxPayload, this`limits, this`authorized, line`link, line`chunks, line.conn
      ensures line.Valid() && LimitsOk()
      ensures Shake() == Negotiated(old(Shake()), packet).(authorized := old(authorized) || authNone)
      ensures version == Least(packet.arg0, 0x0100_0000) && 1 <= maxPayload <= 0x1_0000
      ensures maxPayload == if packet.arg1 == 0 then old(maxPayload) else Least(packet.arg1, 0x1_0000)
      ensures authNone ==>
                Replied(old(line.link), line.link, Packet(CMD_CNXN, version, maxPayload, deviceID + [0]), ok)
      ensures !authNone && random.None? ==> !ok && line.link == old(line.link)
      ensures !authNone && random.Some? ==>
                Replied(old(line.link), line.link, Packet(CMD_AUTH, 1, 0, random.value), ok)
    {
      Negotiate(packet);
      if authNone {
        authorized := true;
        ok := Reply(Connection(Shake()));
      } else if random.None? {
        ok := false;
      } else {
        ok := Reply(Packet(CMD_AUTH, AUTH_TOKEN, 0, random.value));
      }
    }

    /** AUTH: any signature and any key is accepted; the bridge checks neither. */
    method HandleAuth(packet: Packet) returns (ok: bool)
      requires line.Valid()
      modifies this`authorized, line`link, line`chunks, line.conn
      ensures line.Valid()
      ensures authorized == (old(authorized) || (!authNone && packet.arg0 in {2, 3}))
      ensures authNone ==> ok && line.link == old(line.link)
      ensures !authNone ==>
                if packet.arg0 in {2, 3}
                then Replied(old(line.link), line.link, Packet(CMD_CNXN, version, maxPayload, deviceID + [0]), ok)
                else !ok && line.link == old(line.link)
    {
      if authNone {
        return true;
      }
      if packet.arg0 != AUTH_SIGNATURE && packet.arg0 != AUTH_RSA_PUBLIC_KEY {
        return false;
      }
      authorized := true;
      ok := Reply(Connection(Shake()));
    }

    /** OPEN: refused before authorization or without the terminating zero; otherwise one new service. */
    method HandleOpen(packet: Packet, ghost taken: nat, ghost m: map<uint32, Svc>) returns (svc: Option<Service>)
      requires Holds(m) && Owned() && line.Valid()
      modifies this`services, this`repr, this`nextLocalID, line`created
      ensures line.Valid() && line.link == old(line.link) && Owned() && fresh(repr - old(repr))
      ensures Facade() == old(Facade()).(nextLocalID := nextLocalID)
      ensures svc.Some? <==> authorized && packet.payload != [] && packet.payload[|packet.payload| - 1] == 0
      ensures svc.None? ==> services == old(services) && nextLocalID == old(nextLocalID) && Holds(m)
      ensures svc.Some? ==> Holds(m[old(nextLocalID) := svc.value.model]) && fresh(svc.value) && svc.value.Heard()
      ensures svc.Some? ==>
                var name := packet.payload[..|packet.payload| - 1];
                var kind := if REVERSE_PREFIX <= name then Local else Inbound;
                && services == old(services)[old(nextLocalID) := svc.value] && nextLocalID == NextID(old(nextLocalID))
                && svc.value.origin == svc.value.model ==
                     Started(NewSvc(kind, old(nextLocalID), packet.arg0, name), taken)
      ensures svc.Some? ==> svc.value.OpenedBy(packet) && svc.value.localID == old(nextLocalID)
    {
      if !authorized {
        return None;
      }
      if |packet.payload| == 0 || packet.payload[|packet.payload| - 1] != 0 {
        return None;
      }
      var name := packet.payload[..|packet.payload| - 1];
      assert packet.payload == name + [0];
      var started := StartService(if REVERSE_PREFIX <= name then Local else Inbound, name, packet.arg0, taken, m);
      return Some(started);
    }

    /** A WRTE for a stream whose conn takes no more, or that has none. */
    ghost predicate Undelivered(packet: Packet)
      reads this`services, services.Values
    {
      packet.command == CMD_WRTE && packet.arg1 in services && services[packet.arg1].deaf
    }

    /** The stream that the packet is for, if there is one. */
    ghost function Addressed(packet: Packet): set<Service>
      reads this`services
    {
      if packet.arg1 in services then {services[packet.arg1]} else {}
    }

    /** OKAY: the addressed stream, and no other, is given the remote ID and a token. */
    method HandleOkay(packet: Packet, ghost m: map<uint32, Svc>) returns (ghost w: map<uint32, Svc>)
      requires Holds(m)
      modifies Addressed(packet)
      ensures Holds(w)
      ensures w == if packet.arg1 in m then m[packet.arg1 := AckToken(AckMark(AckCas(m[packet.arg1], packet.arg0)))]
                   else m
      ensures services == old(services) && repr == old(repr) && Facade() == old(Facade())
    {
      w := m;
      var svc := GetService(packet.arg1);
      if svc.Some? {
        svc.value.Ack(packet.arg0);
        w := m[packet.arg1 := svc.value.model];
      }
    }

    /** svc.write, on the stream that the packet is for. */
    method Feed(svc: Service, packet: Packet, ghost m: map<uint32, Svc>) returns (ok: bool, ghost w: map<uint32, Svc>)
      requires Holds(m) && line.Valid() && packet.command == CMD_WRTE
      requires packet.arg1 in services && svc == services[packet.arg1]
      modifies svc
      ensures line.Valid() && line.link == old(line.link)
      ensures Holds(w) && packet.arg1 in w && w == m[packet.arg1 := w[packet.arg1]] && svc.model == w[packet.arg1]
      ensures Accepts(m[packet.arg1], w[packet.arg1], packet.payload, ok)
      ensures ok || Undelivered(packet)
      ensures services == old(services) && repr == old(repr) && Facade() == old(Facade())
    {
      ok := svc.Write(packet.payload);
      w := m[packet.arg1 := svc.model];
    }

    method ReplyKeeping(packet: Packet, ghost m: map<uint32, Svc>) returns (ok: bool)
      requires Holds(m) && line.Valid()
      modifies line`link, line`chunks, line.conn
      ensures Holds(m) && line.Valid() && Replied(old(line.link), line.link, packet, ok) && (ok || line.CutOff())
      ensures services == old(services) && repr == old(repr) && Facade() == old(Facade())
    {
      ok := Reply(packet);
    }

    /** The connection of the stream takes the payload, and only then an OKAY is written. */
    method Deliver(svc: Service, packet: Packet, ghost m: map<uint32, Svc>)
      returns (ok: bool, ghost w: map<uint32, Svc>)
      requires Holds(m) && line.Valid() && packet.command == CMD_WRTE
      requires packet.arg1 in services && svc == services[packet.arg1]
      modifies line`link, line`chunks, line.conn, svc
      ensures line.Valid() && Holds(w) && Touched(m, w, old(line.link), line.link, packet, ok)
      ensures ok || Undelivered(packet) || line.CutOff()
      ensures services == old(services) && repr == old(repr) && Facade() == old(Facade())
    {
      ghost var before := line.link;
      ok, w := Feed(svc, packet, m);
      ghost var taken := ok;
      if ok {
        ok := ReplyKeeping(Packet(CMD_OKAY, svc.localID, svc.remoteID, []), w);
      }
      DeliveryTouches(m, w, before, line.link, packet, taken, ok);
    }

    /**
     WRTE: the payload is delivered to the addressed stream, and to no other; one for an unknown stream is dropped.
     */
    method HandleWrite(packet: Packet, ghost m: map<uint32, Svc>) returns (ok: bool, ghost w: map<uint32, Svc>)
      requires Holds(m) && line.Valid() && packet.command == CMD_WRTE
      modifies line`link, line`chunks, line.conn, Addressed(packet)
      ensures line.Valid() && Holds(w) && Touched(m, w, old(line.link), line.link, packet, ok)
      ensures ok || Undelivered(packet) || line.CutOff()
      ensures services == old(services) && repr == old(repr) && Facade() == old(Facade())
    {
      var svc := GetService(packet.arg1);
      if svc.None? {
        return true, m;
      }
      ok, w := Deliver(svc.value, packet, m);
    }

    /** CLSE: the addressed stream, and no other, is closed; it leaves the map by itself. */
    method HandleClose(packet: Packet, ghost m: map<uint32, Svc>) returns (ghost w: map<uint32, Svc>)
      requires Holds(m)
      modifies Addressed(packet)
      ensures Holds(w) && w == if packet.arg1 in m then m[packet.arg1 := CloseSvc(m[packet.arg1])] else m
      ensures services == old(services) && repr == old(repr) && Facade() == old(Facade())
    {
      w := m;
      var svc := GetService(packet.arg1);
      if svc.Some? {
        svc.value.Close();
        w := m[packet.arg1 := svc.value.model];
      }
    }

    /** OKAY, WRTE and CLSE: the addressed stream, and no other. */
    method HandleAddressed(packet: Packet, ghost m: map<uint32, Svc>) returns (ok: bool, ghost w: map<uint32, Svc>)
      requires Holds(m) && line.Valid() && packet.command in {CMD_OKAY, CMD_WRTE, CMD_CLSE}
      modifies line`link, line`chunks, line.conn, Addressed(packet)
      ensures line.Valid() && Holds(w) && Touched(m, w, old(line.link), line.link, packet, ok)
      ensures ok || Undelivered(packet) || line.CutOff()
      ensures services == old(services) && repr == old(repr) && Facade() == old(Facade())
    {
      ok := true;
      if packet.command == CMD_OKAY {
        w := HandleOkay(packet, m);
      } else if packet.command == CMD_WRTE {
        ok, w := HandleWrite(packet, m);
      } else {
        w := HandleClose(packet, m);
      }
    }

    /** SYNC, CNXN and AUTH: nothing but the handshake and the connection is touched. */
    method HandleShakePacket(packet: Packet, random: Option<seq<byte>>) returns (ok: bool)
      requires line.Valid() && LimitsOk() && packet.command in {CMD_SYNC, CMD_CNXN, CMD_AUTH}
      modifies this`version, this`maxPayload, this`limits, this`authorized, line`link, line`chunks, line.conn
      ensures line.Valid() && LimitsOk() && Facade() == Shaken(old(Facade()), packet, random)
      ensures Answered(old(Facade()), packet, random, old(line.link), line.link, ok)
    {
      if packet.command == CMD_SYNC {
        ok := Reply(Packet(CMD_SYNC, 1, packet.arg1, []));
      } else if packet.command == CMD_CNXN {
        ok := HandleCnxn(packet, random);
      } else {
        ok := HandleAuth(packet);
      }
    }

    method HandleHandshake(packet: Packet, random: Option<seq<byte>>, ghost n: nat, ghost m: map<uint32, Svc>)
      returns (ok: bool)
      requires Holds(m) && line.Valid() && LimitsOk() && packet.command in {CMD_SYNC, CMD_CNXN, CMD_AUTH}
      modifies this`version, this`maxPayload, this`limits, this`authorized, line`link, line`chunks, line.conn
      ensures line.Valid() && LimitsOk() && Holds(m) && services == old(services) && repr == old(repr)
      ensures PacketEffect(old(Facade()), Facade(), old(line.link), line.link, m, m, packet, random, n, ok)
    {
      ok := HandleShakePacket(packet, random);
    }

    method HandleOpening(packet: Packet, random: Option<seq<byte>>, ghost n: nat, ghost m: map<uint32, Svc>)
      returns (ok: bool, ghost w: map<uint32, Svc>)
      requires Holds(m) && Owned() && line.Valid() && packet.command == CMD_OPEN
      modifies this`services, this`repr, this`nextLocalID, line`created
      ensures line.Valid() && Holds(w) && Owned() && fresh(repr - old(repr))
      ensures PacketEffect(old(Facade()), Facade(), old(line.link), line.link, m, w, packet, random, n, ok)
      ensures ok ==> old(nextLocalID) in services && services[old(nextLocalID)].OpenedBy(packet)
    {
      ghost var h, id, link := Facade(), nextLocalID, line.link;
      var svc := HandleOpen(packet, n, m);
      ok := svc.Some?;
      w := if ok then m[id := svc.value.model] else m;
      OpenIsEffect(h, Facade(), link, m, w, packet, random, n, ok);
    }

    /**
     A packet of a stream: OPEN adds one; OKAY, WRTE and CLSE have their effect on the addressed one, and on no
     other.
     */
    method HandleStreamPacket(packet: Packet, random: Option<seq<byte>>, ghost n: nat, ghost m: map<uint32, Svc>)
      returns (ok: bool, ghost w: map<uint32, Svc>)
      requires Holds(m) && Owned() && line.Valid() && packet.command in {CMD_OPEN, CMD_OKAY, CMD_WRTE, CMD_CLSE}
      modifies this`services, this`repr, this`nextLocalID, line`link, line`chunks, line`created, line.conn
      modifies if packet.command != CMD_OPEN then Addressed(packet) else {}
      ensures line.Valid() && Holds(w) && Owned() && fresh(repr - old(repr))
      ensures PacketEffect(old(Facade()), Facade(), old(line.link), line.link, m, w, packet, random, n, ok)
      ensures !ok && packet.command == CMD_WRTE ==> Undelivered(packet) || line.CutOff()
      ensures packet.command == CMD_OPEN && ok ==>
                old(nextLocalID) in services && services[old(nextLocalID)].OpenedBy(packet)
    {
      if packet.command == CMD_OPEN {
        ok, w := HandleOpening(packet, random, n, m);
      } else {
        SettledIsKept(Facade(), packet, random);
        ok, w := HandleAddressed(packet, m);
      }
    }

    /** handlePacket. */
    method HandlePacket(packet: Packet, random: Option<seq<byte>>, ghost n: nat, ghost m: map<uint32, Svc>)
      returns (ok: bool, ghost w: map<uint32, Svc>)
      requires Holds(m) && Owned() && line.Valid() && LimitsOk()
      modifies this, line`link, line`chunks, line`created, line.conn, repr
      ensures line.Valid() && LimitsOk() && Holds(w) && Owned() && fresh(repr - old(repr))
      ensures PacketEffect(old(Facade()), Facade(), old(line.link), line.link, m, w, packet, random, n, ok)
      ensures !ok && packet.command == CMD_WRTE ==> Undelivered(packet) || line.CutOff()
      ensures ShakesHands(old(Shake()), packet, random, Shake(), old(line.link), line.link, ok)
      ensures packet.command == CMD_OPEN && ok ==>
                old(nextLocalID) in services && services[old(nextLocalID)].OpenedBy(packet)
    {
      ghost var h, before := Facade(), line.link;
      ok, w := false, m;
      if packet.command in {CMD_SYNC, CMD_CNXN, CMD_AUTH} {
        ok := HandleHandshake(packet, random, n, m);
      } else if packet.command in {CMD_OPEN, CMD_OKAY, CMD_WRTE, CMD_CLSE} {
        ok, w := HandleStreamPacket(packet, random, n, m);
      } else {
        SettledIsKept(Facade(), packet, random);
      }
      EffectShakes(h, Facade(), before, line.link, m, w, packet, random, n, ok);
    }

    /** One turn of the read loop: the next packet is read and handled, if there is one. */
    method HandleNext(r: ByteReader, random: Option<seq<byte>>, ghost n: nat, ghost m: map<uint32, Svc>)
      returns (packet: Option<Packet>, ok: bool, ghost w: map<uint32, Svc>)
      requires Holds(m) && Owned() && line.Valid() && LimitsOk()
      modifies this, line`link, line`chunks, line`created, line.conn, repr, r`data
      ensures line.Valid() && LimitsOk() && Holds(w) && Owned() && fresh(repr - old(repr))
      ensures match packet
              case Some(p) =>
                && |r.data| < |old(r.data)| && DecodeAll(old(r.data)).0 == [p] + DecodeAll(r.data).0
                && Facade() == Shaken(old(Facade()), p, random)
                && (if ok then w == Streamed(old(Facade()), m, p, n) && !Stops(old(Facade()), p, random)
                    else SameBut(m, w, p.arg1))
              case None => !ok && DecodeAll(old(r.data)).0 == [] && Facade() == old(Facade()) && w == m
      ensures packet.Some? && !ok ==>
                Stops(old(Facade()), packet.value, random) || Undelivered(packet.value) || line.CutOff()
    {
      packet := ReadNext(r);
      ok, w := false, m;
      if packet.Some? {
        ghost var h, before := Facade(), line.link;
        ok, w := HandlePacket(packet.value, random, n, m);
        EffectIs(h, Facade(), before, line.link, m, w, packet.value, random, n, ok);
      }
    }

    method ReadNext(r: ByteReader) returns (packet: Option<Packet>)
      modifies r`data
      ensures match packet
              case Some(p) => |r.data| < |old(r.data)| && DecodeAll(old(r.data)).0 == [p] + DecodeAll(r.data).0
              case None => DecodeAll(old(r.data)).0 == []
    {
      var result := ReadPacket(r);
      NextPacket(old(r.data), r.end);
      packet := if result.Read? then Some(result.packet) else None;
    }

    /** Why the last packet was refused: it ends the loop, or could not be delivered or answered. */
    ghost predicate ForCause(h: Multiplexer.Session, handled: seq<(Packet, Option<seq<byte>>)>)
      reads this`services, services.Values, line
    {
      handled != [] && (LastStops(h, handled) || Undelivered(handled[|handled| - 1].0) || line.CutOff())
    }

    /** One turn of the loop of run, which has so far come from h and m to w over the packets handled. */
    method TakeTurn(r: ByteReader, ghost h: Multiplexer.Session, ghost m: map<uint32, Svc>, ghost all: seq<Packet>,
                    ghost before: seq<(Packet, Option<seq<byte>>)>, ghost streams: map<uint32, Svc>)
      returns (going: bool, ghost handled: seq<(Packet, Option<seq<byte>>)>, ghost refused: bool, ghost w: map<uint32,
               Svc>)
      requires Holds(streams) && Owned() && line.Valid() && LimitsOk()
      requires Halfway(h, Facade(), m, streams, before, all, DecodeAll(r.data).0)
      modifies this, line`link, line`chunks, line`created, line.conn, repr, r`data
      ensures line.Valid() && LimitsOk() && Holds(w) && Owned() && fresh(repr - old(repr))
      ensures going ==> |r.data| < |old(r.data)| && Halfway(h, Facade(), m, w, handled, all, DecodeAll(r.data).0)
      ensures !going ==> Through(h, Facade(), m, w, handled, refused, all) && (refused ==> ForCause(h, handled))
    {
      var some: bool, random: seq<byte> := *, *;
      var challenge := if some then Some(random) else None;
      ghost var g := Facade();
      var packet;
      packet, going, w := HandleNext(r, challenge, |before| + 1, streams);
      handled, refused := before, false;
      if packet.Some? {
        OneFurther(h, g, m, streams, before, all, packet.value, DecodeAll(r.data).0, challenge, w, going);
        handled, refused := before + [(packet.value, challenge)], !going;
      }
    }

    /** The loop of run, until a packet cannot be read or handled. */
    method HandleEach(r: ByteReader, ghost m: map<uint32, Svc>)
      returns (ghost handled: seq<(Packet, Option<seq<byte>>)>, ghost refused: bool, ghost w: map<uint32, Svc>)
      requires Holds(m) && Owned() && line.Valid() && LimitsOk()
      modifies this, line`link, line`chunks, line`created, line.conn, repr, r`data
      ensures line.Valid() && LimitsOk() && Holds(w) && Owned() && fresh(repr - old(repr))
      ensures Through(old(Facade()), Facade(), m, w, handled, refused, DecodeAll(old(r.data)).0)
      ensures refused ==> ForCause(old(Facade()), handled)
    {
      handled, refused, w := [], false, m;
      ghost var h, all := Facade(), DecodeAll(r.data).0;
      assert [] + all == all;
      var going := true;
      while going
        invariant line.Valid() && LimitsOk() && Holds(w) && Owned() && fresh(repr - old(repr))
        invariant going ==> Halfway(h, Facade(), m, w, handled, all, DecodeAll(r.data).0)
        invariant !going ==> Through(h, Facade(), m, w, handled, refused, all) && (refused ==> ForCause(h, handled))
        decreases going, |r.data|
      {
        going, handled, refused, w := TakeTurn(r, h, m, all, handled, w);
      }
    }

    /**
     run: reads packets until one cannot be read or handled, and then closes the session with all its streams. What it
     has handled are the packets the client's bytes decode to, in order: all of them, or up to one that ends the loop,
     or that could not be delivered or answered. `open` is the map it had then, and w its streams, as the packets have
     left them before the close.
     */
    method Run(r: ByteReader, ghost m: map<uint32, Svc>)
      returns (ghost handled: seq<(Packet, Option<seq<byte>>)>, ghost refused: bool,
               ghost open: map<uint32, Service>, ghost w: map<uint32, Svc>)
      requires Holds(m) && Owned() && line.Valid() && LimitsOk()
      modifies this, line`closed, line`link, line`chunks, line`created, line.conn, repr, r`data
      ensures line.closed && (old(line.closed) || services == map[])
      ensures Through(old(Facade()), Facade(), m, w, handled, refused, DecodeAll(old(r.data)).0)
      ensures refused ==>
                var p := handled[|handled| - 1].0;
                || LastStops(old(Facade()), handled) || old(line.closed) || line.link.broken
                || (p.command == CMD_WRTE && p.arg1 in open && open[p.arg1].deaf)
      ensures open.Keys == w.Keys
      ensures !old(line.closed) ==> forall id :: id in open ==> open[id].model == CloseSvc(w[id])
    {
      handled, refused, w := HandleEach(r, m);
      open := services;
      assert line.CutOff() ==> line.link.broken || old(line.closed);
      Close(w);
    }

    /** close: nothing is written any more, the map is emptied, and every service that was in it is closed. */
    method Close(ghost m: map<uint32, Svc>)
      requires Holds(m) && line.Valid()
      modifies line`closed, line`link, this`services, services.Values
      ensures line.Valid() && line.closed && (old(line.closed) ==> services == old(services))
      ensures line.link == old(line.link).(closed := true)
      ensures !old(line.closed) ==> services == map[]
      ensures !old(line.closed) ==> forall id :: id in m ==>
                old(services)[id].done && old(services)[id].model == CloseSvc(m[id])
      ensures forall id :: id in m ==> old(services)[id].deaf == old(services[id].deaf)
    {
      if line.closed {
        return;
      }
      line.Close();
      var drained := services.Values;
      services := map[];
      CloseEach(drained);
    }
  }

  /** The services of the map are in order, each under its own local ID, and as m says. */
  ghost predicate AreModels(services: map<uint32, Service>, session: Session, m: map<uint32, Svc>)
    reads services.Values
  {
    && services.Keys == m.Keys
    && forall id {:trigger services[id]} :: id in services ==>
         services[id].Valid() && services[id].localID == id && services[id].session == session &&
           services[id].model == m[id]
  }

  method CloseEach(drained: set<Service>)
    requires forall svc :: svc in drained ==> svc.Valid()
    modifies drained
    ensures forall svc :: svc in drained ==> svc.deaf == old(svc.deaf)
    ensures forall svc :: svc in drained ==> svc.Valid() && svc.done && svc.model == CloseSvc(old(svc.model))
  {
    var todo := drained;
    while todo != {}
      invariant todo <= drained
      invariant forall svc :: svc in drained ==> svc.Valid()
      invariant forall svc :: svc in drained - todo ==> svc.model == CloseSvc(old(svc.model))
      invariant forall svc :: svc in todo ==> svc.model == old(svc.model)
      invariant forall svc :: svc in drained ==> svc.deaf == old(svc.deaf)
    {
      var svc :| svc in todo;
      svc.Close();
      todo := todo - {svc};
    }
  }

  class Service {
    const session: Session
    ghost const index: nat   // its number in the order of creation
    const kind: Kind
    const localID: uint32
    const name: seq<byte>
    var remoteID: uint32
    var isOpen: bool
    var attached: bool   // conn != nil
    var connOpen: bool   // and not closed
    var done: bool
    var ackCh: bool      // the one token
    ghost var deaf: bool // a write to its conn has failed, or there was none
    ghost const origin: Svc
    ghost var trace: seq<Move>
    ghost var points: seq<Point>
    ghost var model: Svc
    ghost var said: seq<Packet>

    /** Made for this OPEN: with its name and ID, and local if its name begins so; nothing has happened to it yet. */
    ghost predicate OpenedBy(p: Packet)
      reads this
    {
      && p.payload == name + [0] && remoteID == p.arg0 && kind != Outbound
      && (kind == Local <==> WireFormats.Ascii("reverse:") <= name)
      && !isOpen && !attached && !done && !ackCh
    }

    ghost predicate Traced()
      reads this
    {
      Follows(points, trace) && points[0] == Point(origin, []) && points[|trace|] == Point(model, said)
    }

    ghost predicate Shows()
      reads this
    {
      && model.kind == kind && model.localID == localID && model.name == name && model.remoteID == remoteID
      && model.isOpen == isOpen && model.attached == attached && model.done == done && model.token == ackCh
    }

    ghost predicate Valid()
      reads this
    {
      Traced() && Shows()
    }

    /** What it has said is what is on the connection in its name. */
    ghost predicate Heard()
      reads this, session.line
    {
      index < session.line.created && Own(session.line.link.out, Stream(index)) == said
    }

    /** The map has it under its own ID, if at all. */
    ghost predicate Filed()
      reads this, session
    {
      forall id :: id in session.services && session.services[id] == this ==> id == localID
    }

    /** Everything in order. */
    ghost predicate Live()
      reads this, session, session.line, session.line.conn
    {
      Valid() && session.line.Valid() && Heard() && session.LimitsOk() && Filed()
    }

    /**
     A session once closed stays closed, a failed connection stays failed, a remote ID once set stays, and a stream out
     of the map stays out of it.
     */
    twostate predicate Onward()
      reads this, session, session.line
    {
      && old(session.limits) <= session.limits
      && (this in session.services.Values ==> old(this in session.services.Values))
      && (old(session.line.link.closed) ==> session.line.link.closed)
      && (old(session.line.link.broken) ==> session.line.link.broken)
      && (old(remoteID) != 0 ==> remoteID == old(remoteID))
    }

    /** Given up, or nothing more can be written. */
    ghost predicate StoppedEarly()
      reads this, session.line
    {
      model.log.gaveUp || session.line.CutOff()
    }

    constructor (session: Session, ghost index: nat, kind: Kind, localID: uint32, remoteID: uint32, name: seq<byte>,
                 ghost taken: nat)
      ensures Valid() && trace == [] && said == []
      ensures model == origin == Started(NewSvc(kind, localID, remoteID, name), taken)
      ensures this.session == session && this.index == index && this.kind == kind && this.localID == localID
      ensures this.name == name && this.remoteID == remoteID && !isOpen && !attached && !done && !ackCh
    {
      this.index := index;
      this.session, this.kind, this.localID, this.remoteID, this.name := session, kind, localID, remoteID, name;
      isOpen, attached, connOpen, done, ackCh := false, false, false, false, false;
      origin, trace, said := Started(NewSvc(kind, localID, remoteID, name), taken), [], [];
      model := Started(NewSvc(kind, localID, remoteID, name), taken);
      points := [Point(Started(NewSvc(kind, localID, remoteID, name), taken), [])];
    }

    ghost method NoteMove(m: Move, q: Point)
      requires Traced() && Takes(Point(model, said), m, q) && q.said == said
      modifies this`trace, this`points, this`model
      ensures Traced() && model == q.v
    {
      FollowsSnoc(points, trace, m, q);
      trace, points, model := trace + [m], points + [q], q.v;
    }

    ghost method NoteQuiet(m: Move)
      requires Traced() && CanMove(model, m) && !m.Speak? && (m.Step? ==> m.maxPayload <= MAX_WRITE_PAYLOAD)
      modifies this`trace, this`points, this`model
      ensures Traced() && model == Moved(old(model), m)
    {
      assert said + [] == said;
      NoteMove(m, Point(Moved(model, m), said));
    }

    ghost method NoteStep(c: Choice, maxPayload: uint32)
      requires Traced() && CanStep(model, c) && maxPayload <= MAX_WRITE_PAYLOAD
      modifies this`trace, this`points, this`model
      ensures Traced() && model == StepSvc(old(model), c, maxPayload)
    {
      NoteQuiet(Step(c, maxPayload));
    }

    ghost method NoteAck(remote: uint32, stage: AckStage)
      requires Traced()
      modifies this`trace, this`points, this`model
      ensures Traced() && model == Acked(old(model), remote, stage)
    {
      NoteQuiet(AckBy(remote, stage));
    }

    ghost method NoteClose()
      requires Traced()
      modifies this`trace, this`points, this`model
      ensures Traced() && model == CloseSvc(old(model))
    {
      NoteQuiet(CloseBy);
    }

    ghost method NoteUnmap()
      requires Traced() && model.pc.Leaving?
      modifies this`trace, this`points, this`model
      ensures Traced() && model == old(model).(pc := Checking)
    {
      NoteQuiet(Unmap);
    }

    ghost method NoteSpeak(o: Outcome)
      requires Traced() && Speaking(model)
      modifies this`trace, this`points, this`model, this`said
      ensures Traced() && model == old(model).(pc := AfterSaying(old(model), o == Sent), log := model.log)
      ensures model.log.read == old(model.log.read) && model.log.gaveUp == old(model.log.gaveUp)
      ensures said == old(said) + if o == Refused then [] else [Message(old(model))]
    {
      var q := Point(Said(model, o), said + if o == Refused then [] else [Message(model)]);
      FollowsSnoc(points, trace, Speak(o), q);
      trace, points, model, said := trace + [Speak(o)], points + [q], q.v, q.said;
    }

    /** ack: the remote ID is taken once, and a second token is thrown away. */
    method Ack(remote: uint32)
      requires Valid()
      modifies this`remoteID, this`isOpen, this`ackCh, this`trace, this`points, this`model
      ensures Valid() && model == AckToken(AckMark(AckCas(old(model), remote)))
      ensures remoteID == (if old(remoteID) == 0 then remote else old(remoteID)) && isOpen && ackCh
    {
      if remoteID == 0 {
        remoteID := remote;
      }
      NoteAck(remote, CasRemote);
      isOpen := true;
      NoteAck(remote, MarkOpened);
      if !ackCh {
        ackCh := true;
      }
      NoteAck(remote, PutToken);
    }

    /** close: once; a connection attached by then is closed. */
    method Close()
      requires Valid()
      modifies this`done, this`connOpen, this`trace, this`points, this`model
      ensures Valid() && model == CloseSvc(old(model)) && done
      ensures connOpen == (old(connOpen) && (old(done) || !attached))
    {
      if !done {
        done := true;
        if attached {
          connOpen := false;
        }
      }
      NoteClose();
    }

    /** write: without a connection nothing is taken; with one, what it takes before it fails. */
    method Write(payload: seq<byte>) returns (ok: bool)
      requires Valid()
      modifies this`trace, this`points, this`model, this`deaf
      ensures !ok ==> deaf
      ensures Valid() && (ok ==> attached && model == Fed(old(model), payload))
      ensures !ok ==> exists n: nat :: n <= |payload| && model == Fed(old(model), payload[..n])
      ensures !attached ==> !ok && model == old(model)
    {
      deaf := deaf || !attached;
      if !attached {
        assert payload[..0] == [] && model.log.delivered + [] == model.log.delivered;
        assert model == Fed(model, payload[..0]);
        return false;
      }
      ok := *;
      if ok {
        NoteQuiet(FeedBy(payload));
      } else {
        var n: nat :| n <= |payload|;
        deaf := true;
        NoteQuiet(FeedBy(payload[..n]));
      }
    }

    /** setConn: a connection attached after close is one that close will not see. */
    method SetConn()
      modifies this`attached, this`connOpen
      ensures attached && connOpen
    {
      attached, connOpen := true, true;
    }

    /** One action of another goroutine on the stream itself, the connection, the payload limit or the map. */
    method OtherActs()
      requires Live()
      modifies this, session, session.line, session.line.conn
      ensures Live() && Onward() && ViewOf(model) == ViewOf(old(model)) && said == old(said)
    {
      var event: nat := *;
      if event == 0 {
        Wake();
      } else if event == 1 {
        OtherUsesLine();
      } else {
        OtherUsesSession();
      }
    }

    method OtherUsesLine()
      requires session.line.Valid() && Heard()
      modifies session.line`link, session.line`chunks, session.line`closed, session.line.conn
      ensures session.line.Valid() && Heard() && Onward()
    {
      var close: bool, command: uint32, n: uint32, m: uint32, bytes: seq<byte> := *, *, *, *, *;
      if close {
        session.line.Close();
      } else {
        OtherWrites(Packet(command, n, m, bytes));
      }
    }

    method OtherUsesSession()
      requires session.line.Valid() && Heard() && session.LimitsOk() && Filed()
      modifies session, session.line`created
      ensures session.line.Valid() && Heard() && session.LimitsOk() && Filed() && Onward()
    {
      var limit: bool, n: uint32 := *, *;
      if limit {
        session.SetMaxPayload(if 0 < n <= MAX_WRITE_PAYLOAD then n else MAX_WRITE_PAYLOAD);
      } else {
        OthersComeAndGo();
      }
    }

    /** Other streams are created, enter the map and leave it, under any IDs; or the map is emptied. */
    method OthersComeAndGo()
      requires session.line.Valid() && Heard() && Filed()
      modifies session`services, session.line`created
      ensures session.line.Valid() && Heard() && Filed() && Onward()
    {
      var _ := session.line.Enrol();
      ghost var before := session.services;
      assert NotPutBack(before, map[], this);
      var after: map<uint32, Service> :| NotPutBack(session.services, after, this);
      assert NotPutBack(before, after, this);
      session.services := after;
    }

    method OtherWrites(packet: Packet)
      requires session.line.Valid() && Heard()
      modifies session.line`link, session.line`chunks, session.line.conn
      ensures session.line.Valid() && Heard() && Onward()
    {
      ghost var owner :| owner != Stream(index) && (owner.Stream? ==> owner.i < session.line.created);
      ghost var link := session.line.link;
      ghost var o;
      var _, o' := session.line.WritePacket(packet, owner);
      o := o';
      if o != Refused {
        OwnSnoc(link.out, Emission(owner, packet, o == Sent), Stream(index));
      }
    }

    /** Other goroutines run for any time. */
    method Yield()
      requires Live()
      modifies this, session, session.line, session.line.conn
      ensures Live() && Onward() && ViewOf(model) == ViewOf(old(model)) && said == old(said)
    {
      var n: nat :| 0 <= n;
      for i := 0 to n
        invariant Live() && Onward() && ViewOf(model) == ViewOf(old(model)) && said == old(said)
      {
        OtherActs();
      }
    }

    /** The goroutine hands a packet to the session: the machine's packet, on the connection in its own name. */
    method Say(packet: Packet) returns (sent: bool)
      requires Live() && Speaking(model) && packet == Message(model)
      modifies session.line`link, session.line`chunks, session.line.conn, this`trace, this`points, this`model, this`said
      ensures Live() && Onward()
      ensures ViewOf(model) == ViewOf(old(model)).(pc := AfterSaying(old(model), sent))
      ensures said == old(said) + [packet] || (said == old(said) && !sent)
      ensures !sent ==> session.line.CutOff()
    {
      ghost var o;
      sent, o := HandOver(packet);
      assert said + [] == said;
      NoteSpeak(o);
    }

    /** session.writePacket, in the stream's own name. */
    method HandOver(packet: Packet) returns (sent: bool, ghost o: Outcome)
      requires session.line.Valid() && Heard()
      modifies session.line`link, session.line`chunks, session.line.conn
      ensures session.line.Valid() && sent == (o == Sent) && (!sent ==> session.line.CutOff())
      ensures index < session.line.created && Onward()
      ensures Own(session.line.link.out, Stream(index)) == said + if o == Refused then [] else [packet]
    {
      ghost var link := session.line.link;
      sent, o := session.line.WritePacket(packet, Stream(index));
      if o == Refused {
        assert said + [] == said;
      } else {
        OwnSnoc(link.out, Emission(Stream(index), packet, o == Sent), Stream(index));
      }
    }

    /** Until there is a token, or the stream is closed. */
    method Block()
      requires Live()
      modifies this, session, session.line, session.line.conn
      ensures Live() && Onward() && ViewOf(model) == ViewOf(old(model)) && said == old(said)
      ensures ackCh || done
    {
      Yield();
      if !ackCh && !done {
        Wake();
      }
    }

    method Wake()
      requires Valid()
      modifies this`remoteID, this`isOpen, this`ackCh, this`done, this`connOpen, this`trace, this`points, this`model
      ensures Valid() && ViewOf(model) == ViewOf(old(model)) && (ackCh || done)
      ensures (old(remoteID) != 0 ==> remoteID == old(remoteID))
    {
      var end: bool, remote: uint32 := *, *;
      if end {
        Close();
      } else {
        Ack(remote);
      }
    }

    ghost method NoteWait(granted: bool)
      requires Traced() && model.pc.Waiting? && if granted then model.token else model.done
      modifies this`trace, this`points, this`model
      ensures Traced() && ViewOf(model) == Waited(ViewOf(old(model)), granted)
      ensures model == old(model).(token := old(model.token) && !granted, pc := model.pc, log := model.log)
    {
      NoteStep(if granted then Granted else Cancelled, 0);
    }

    /** select on ackCh and done. */
    method AwaitAck() returns (granted: bool)
      requires Live() && model.pc.Waiting?
      modifies this, session, session.line, session.line.conn
      ensures Live() && Onward() && ViewOf(model) == Waited(ViewOf(old(model)), granted) && said == old(said)
    {
      Block();
      granted := TakeToken();
    }

    method TakeToken() returns (granted: bool)
      requires Valid() && model.pc.Waiting? && (ackCh || done)
      modifies this`ackCh, this`trace, this`points, this`model
      ensures Valid() && ViewOf(model) == Waited(ViewOf(old(model)), granted)
      ensures granted ==> old(ackCh) && !ackCh
    {
      var first: bool := *;
      granted := ackCh && (first || !done);
      NoteWait(granted);
      if granted {
        ackCh := false;
      }
    }

    /** remoteID.Load; without one the stream is on its way to its end. */
    method LoadRemote() returns (remote: uint32)
      requires Live() && model.pc.Loading?
      modifies this, session, session.line, session.line.conn
      ensures Live() && Onward() && said == old(said) && remote == remoteID
      ensures ViewOf(model) == Loaded(ViewOf(old(model)), remote)
    {
      Yield();
      remote := remoteID;
      NoteLoading();
    }

    /** The WRTE is on the connection, or nothing more can be written. */
    method SayWrte(remote: uint32, payload: seq<byte>) returns (ok: bool)
      requires Live() && model.pc.Writing? && model.pc.remote == remote && model.pc.n == |payload| <= |model.buf|
      requires payload == model.buf[..|payload|]
      modifies this, session, session.line, session.line.conn
      ensures Live() && Onward()
      ensures ViewOf(model) == ViewOf(old(model)).(pc := if ok then Waiting(old(model.pc.next)) else Closing)
      ensures said == old(said) + [Packet(CMD_WRTE, localID, remote, payload)] || (!ok && said == old(said))
      ensures !ok ==> session.line.CutOff()
    {
      Yield();
      ok := Say(Packet(CMD_WRTE, localID, remote, payload));
    }

    /**
     sendWriteAndWaitAck, on the bytes the machine has loaded: the WRTE is on the connection, or was withheld for want
     of a remote ID or of a connection. True is returned only if it was written and a token was taken; false only
     without a remote ID, or on a close or the end of the connection.
     */
    method SendWriteAndWaitAck(payload: seq<byte>) returns (ok: bool)
      requires Live() && model.pc.Loading? && model.pc.n == |payload| <= |model.buf|
      requires payload == model.buf[..|payload|]
      modifies this, session, session.line, session.line.conn
      ensures Live() && Onward()
      ensures ViewOf(model) == ViewOf(old(model)).(pc := AfterWait(old(model.pc.next), ok), gaveUp := model.log.gaveUp)
      ensures !ok ==> StoppedEarly()
      ensures || (remoteID != 0 && said == old(said) + [Packet(CMD_WRTE, localID, remoteID, payload)])
              || (!ok && said == old(said) && (old(remoteID) == 0 || session.line.CutOff()))
    {
      var remote := LoadRemote();
      if remote == 0 {
        return false;
      }
      ok := SayWrte(remote, payload);
      if ok {
        ok := AwaitAck();
      }
    }

    /** A round of the pump: what the conn gives is one WRTE, and only its token lets the pump go on. */
    method PumpOnce(conn: ByteReader, buffer: array<byte>) returns (going: bool)
      requires Live() && model.pc.Reading? && buffer[..] == model.buf && buffer.Length > 0
      modifies this, session, session.line, session.line.conn, conn`data, buffer
      ensures Live() && Onward() && buffer[..] == model.buf && model.pc == if going then Reading else Closing
      ensures model.log.read + conn.data == old(model.log.read + conn.data)
      ensures going ==> |conn.data| < |old(conn.data)|
      ensures going ==> Relays(old(said), said, localID, buffer.Length, old(conn.data), conn.data)
      ensures !going ==> Forwards(old(said), said, localID, buffer.Length, old(conn.data))
      ensures !going ==>
                Relays(old(said), said, localID, buffer.Length, old(conn.data), []) || StoppedEarly()
    {
      Yield();
      var n := ReadInto(conn, buffer);
      if n == 0 {
        NothingRelayed(said, localID, buffer.Length, conn.data);
        return false;
      }
      going := SendWriteAndWaitAck(buffer[..n]);
      OneRelayed(old(said), said, localID, remoteID, buffer.Length, buffer[..n], conn.data, going);
    }

    /**
     pumpConnToClient: one buffer of the size of maxPayload, filled again only after its bytes have been written and
     acknowledged. What is said are WRTEs whose payloads are, end to end, a prefix of what the conn gave; and all of it,
     unless a write was given up or nothing more can be written.
     */
    method Pump(conn: ByteReader)
      requires Live() && model.pc.Starting?
      modifies this, session, session.line, session.line.conn, conn`data
      ensures Live() && Onward() && model.pc.Closing? && model.log.read + conn.data == old(model.log.read + conn.data)
      ensures |model.buf| == old(session.maxPayload)
      ensures Forwards(old(said), said, localID, |model.buf|, old(conn.data))
      ensures Relays(old(said), said, localID, |model.buf|, old(conn.data), []) || StoppedEarly()
    {
      var buffer := new byte[session.maxPayload](_ => 0);
      NoteStarting();
      NothingRelayed(said, localID, buffer.Length, conn.data);
      var going := true;
      while going
        invariant Live() && Onward() && fresh(buffer) && buffer[..] == model.buf
        invariant model.pc == if going then Reading else Closing
        invariant model.log.read + conn.data == old(model.log.read + conn.data)
        invariant going ==> Relays(old(said), said, localID, buffer.Length, old(conn.data), conn.data)
        invariant !going ==> Forwards(old(said), said, localID, buffer.Length, old(conn.data))
        invariant !going ==>
                    Relays(old(said), said, localID, buffer.Length, old(conn.data), []) || StoppedEarly()
        decreases going, |conn.data|
      {
        ghost var mid, rest := said, conn.data;
        going := PumpOnce(conn, buffer);
        RelaysOn(old(said), mid, said, localID, buffer.Length, old(conn.data), rest, if going then conn.data else []);
      }
    }

    /** conn.Read, and the machine's step for what it returned. */
    method ReadInto(conn: ByteReader, buffer: array<byte>) returns (n: nat)
      requires Valid() && model.pc.Reading? && buffer[..] == model.buf && buffer.Length > 0
      modifies this`trace, this`points, this`model, conn`data, buffer
      ensures Valid() && n <= buffer.Length && buffer[..] == model.buf
      ensures model.log.read + conn.data == old(model.log.read + conn.data) && buffer[..n] + conn.data == old(conn.data)
      ensures n == 0 <==> old(conn.data) == []
      ensures model.pc == if n == 0 then Closing else Loading(n, ToRead)
    {
      ghost var before, coming := model, conn.data;
      var err;
      n, err := conn.Read(buffer);
      ghost var data := buffer[..n];
      NoteStep(Got(data, err.Some?), 0);
      assert buffer[..] == data + before.buf[n..];
      assert coming == data + conn.data;
      Assoc(before.log.read, data, conn.data);
    }

    ghost method NoteMarking()
      requires Traced() && model.pc.Marking?
      modifies this`trace, this`points, this`model
      ensures Traced() && model == old(model).(isOpen := true, pc := Greeting(old(model.remoteID)))
    {
      NoteStep(Go, 0);
    }

    ghost method NoteLoading()
      requires Traced() && model.pc.Loading?
      modifies this`trace, this`points, this`model
      ensures Traced()
      ensures var v := old(model);
              && ViewOf(model) == Loaded(ViewOf(v), v.remoteID)
              && model == v.(pc := model.pc, log := model.log)
    {
      NoteStep(Go, 0);
    }

    ghost method NoteChoosing()
      requires Traced() && model.pc.Choosing?
      modifies this`trace, this`points, this`model
      ensures Traced()
      ensures var v := old(model);
              model == v.(pc := Parting(if v.isOpen then v.localID else 0, v.pc.remote))
    {
      NoteStep(Go, 0);
    }

    ghost method NoteStarting()
      requires Traced() && model.pc.Starting? && session.LimitsOk()
      modifies this`trace, this`points, this`model
      ensures Traced() && model == old(model).(buf := seq(session.maxPayload, _ => 0), pc := Reading)
    {
      NoteStep(Go, session.maxPayload);
    }

    ghost method NoteClosing()
      requires Traced() && model.pc.Closing?
      modifies this`trace, this`points, this`model
      ensures Traced() && model == CloseSvc(old(model)).(pc := Leaving)
    {
      NoteStep(Go, 0);
    }

    ghost method NoteChecking()
      requires Traced() && model.pc.Checking?
      modifies this`trace, this`points, this`model
      ensures Traced() && model == old(model).(pc := Deciding(old(model.remoteID)))
    {
      NoteStep(Go, 0);
    }

    ghost method NoteDeciding()
      requires Traced() && model.pc.Deciding?
      modifies this`trace, this`points, this`model
      ensures Traced()
      ensures var remote := old(model.pc.remote);
              model == old(model).(pc := if !old(model.isOpen) && remote == 0 then Finished(true) else Choosing(remote))
    {
      NoteStep(Go, 0);
    }

    /** finish's own call of close. */
    method CloseFirst()
      requires Valid() && model.pc.Closing?
      modifies this`done, this`connOpen, this`trace, this`points, this`model
      ensures Valid() && ViewOf(model) == ViewOf(old(model)).(pc := Leaving) && done
    {
      if !done {
        done := true;
        if attached {
          connOpen := false;
        }
      }
      NoteClosing();
    }

    method Leave()
      requires Valid() && model.pc.Leaving?
      modifies this`trace, this`points, this`model, session`services
      ensures Valid() && ViewOf(model) == ViewOf(old(model)).(pc := Checking)
      ensures session.services == old(session.services) - {localID}
      ensures (old(Filed()) ==> this !in session.services.Values)
    {
      session.RemoveService(localID);
      NoteUnmap();
    }

    method LoadRemoteAtEnd() returns (remote: uint32)
      requires Live() && model.pc.Checking?
      modifies this, session, session.line, session.line.conn
      ensures Live() && Onward() && said == old(said) && ViewOf(model) == ViewOf(old(model)).(pc := Deciding(remote))
    {
      Yield();
      remote := remoteID;
      NoteChecking();
    }

    /** Silence, for a stream found unopened after a zero remote ID was loaded. */
    method Decide(remote: uint32) returns (silent: bool)
      requires Live() && model.pc == Deciding(remote)
      modifies this, session, session.line, session.line.conn
      ensures Live() && Onward() && said == old(said)
      ensures ViewOf(model) == ViewOf(old(model)).(pc := if silent then Finished(true) else Choosing(remote))
      ensures silent ==> remote == 0 && !isOpen
    {
      Yield();
      silent := !isOpen && remote == 0;
      NoteDeciding();
    }

    /** finish, from there on: CLSE, unless the stream was never opened and has no remote ID. */
    method Part()
      requires Live() && model.pc.Checking?
      modifies this, session, session.line, session.line.conn
      ensures Live() && Onward() && ViewOf(model) == ViewOf(old(model)).(pc := model.pc) && model.pc.Finished?
      ensures if model.pc.silent then said == old(said)
              else SaysClse(old(said), said, localID) || (said == old(said) && session.line.CutOff())
    {
      var remote := LoadRemoteAtEnd();
      var silent := Decide(remote);
      if !silent {
        SayClse(remote);
      }
    }

    method SayClse(remote: uint32)
      requires Live() && model.pc == Choosing(remote)
      modifies this, session, session.line, session.line.conn
      ensures Live() && Onward() && ViewOf(model) == ViewOf(old(model)).(pc := Finished(false))
      ensures SaysClse(old(said), said, localID) || (said == old(said) && session.line.CutOff())
    {
      var arg0 := ChooseID(remote);
      Yield();
      var _ := Say(Packet(CMD_CLSE, arg0, remote, []));
    }

    /** A stream never opened is closed under ID 0. */
    method ChooseID(remote: uint32) returns (arg0: uint32)
      requires Live() && model.pc == Choosing(remote)
      modifies this, session, session.line, session.line.conn
      ensures Live() && Onward() && ViewOf(model) == ViewOf(old(model)).(pc := Parting(arg0, remote))
      ensures said == old(said)
      ensures (arg0 == localID && isOpen) || (arg0 == 0 && !isOpen)
    {
      Yield();
      arg0 := ChooseNow();
    }

    method ChooseNow() returns (arg0: uint32)
      requires Valid() && model.pc.Choosing?
      modifies this`trace, this`points, this`model
      ensures Valid() && ViewOf(model) == ViewOf(old(model)).(pc := Parting(arg0, old(model.pc.remote)))
      ensures (arg0 == localID && isOpen) || (arg0 == 0 && !isOpen)
    {
      arg0 := if !isOpen then 0 else localID;
      NoteChoosing();
    }

    /**
     finish: closed, then out of the map, then the CLSE, or silence, or nothing on a connection that takes no more.
     */
    method Finish()
      requires Live() && model.pc.Closing?
      modifies this, session, session.line, session.line.conn
      ensures Live() && Onward() && ViewOf(model) == ViewOf(old(model)).(pc := model.pc) && model.pc.Finished?
      ensures this !in session.services.Values
      ensures if model.pc.silent then said == old(said)
              else SaysClse(old(said), said, localID) || (said == old(said) && session.line.CutOff())
    {
      Yield();
      CloseFirst();
      Yield();
      Leave();
      Part();
    }

    /** Newly started, and not yet heard of. */
    ghost predicate AtStart(kind: Kind)
      reads this, session, session.line, session.line.conn
    {
      && Live() && this.kind == kind && trace == []
      && exists remote, taken :: origin == Started(NewSvc(kind, localID, remote, name), taken)
    }

    /**
     Through, and out of the map. The packets on the connection in the stream's name are those of the machine's record,
     with all that holds of it, and the last of them is the CLSE, unless finish chose silence or nothing more could be
     written.
     */
    ghost predicate Over()
      reads this, session, session.line, session.line.conn
    {
      && Live() && model.pc.Finished? && SvcInv(model) && this !in session.services.Values
      && Own(session.line.link.out, Stream(index)) == said == Spoken(model.log)
      && (model.pc.silent || session.line.CutOff() || (said != [] && said[|said| - 1].command == CMD_CLSE))
    }

    /**
     Opened under this remote ID, it has kept to it: every packet it has said goes there, from its own ID, but for the
     CLSE of a stream never opened, which comes from 0; it was not silent, and gave up only on a close as it waited.
     */
    ghost predicate KeepsTo(remote: uint32)
      reads this
    {
      && remoteID == remote && model.pc == Finished(false)
      && (forall p :: p in said ==> p.arg1 == remote)
      && (forall p :: p in said ==> p.arg0 == localID || (p.command == CMD_CLSE && p.arg0 == 0 && |said| == 1))
      && (!isOpen ==> forall p :: p in said ==> p.command == CMD_CLSE && p.arg0 == 0)
      && (model.log.gaveUp ==> WasClosedWaiting(points))
    }

    lemma OriginNamed(kind: Kind)
      requires AtStart(kind)
      ensures kind != Outbound && remoteID != 0 ==> Named(origin, remoteID) && !origin.log.gaveUp
    {
    }

    lemma HasKept(remote: uint32)
      requires Valid() && SvcInv(origin) && Spoken(origin.log) == [] && model.pc.Finished?
      requires remote != 0 ==> Named(origin, remote) && !origin.log.gaveUp
      ensures remote != 0 ==> KeepsTo(remote)
    {
      if remote != 0 {
        HistoryKeepsInv(points, trace, |trace|);
        HistoryKeepsNamed(points, trace, |trace|, remote);
        NamedSpeaks(model, remote);
        assert |model.log.parting| <= 1 && (model.log.greeting == [] ==> model.log.wrtes == []);
      }
    }

    lemma OriginOk(kind: Kind)
      requires AtStart(kind)
      ensures SvcInv(origin) && Spoken(origin.log) == [] == said && model == origin
      ensures origin.log.read == [] == origin.buf
    {
    }

    lemma OverNow(before: seq<Packet>)
      requires Live() && SvcInv(origin) && Spoken(origin.log) == [] && model.pc.Finished?
      requires this !in session.services.Values
      requires model.pc.silent || session.line.CutOff() || SaysClse(before, said, localID)
      ensures Over()
    {
      HistoryKeepsInv(points, trace, |trace|);
    }

    /** opened = true, and the OKAY, unless nothing more can be written. */
    method Greet() returns (ok: bool)
      requires Live() && model.pc.Marking? && kind != Outbound
      modifies this, session, session.line, session.line.conn
      ensures Live() && Onward()
      ensures ViewOf(model) == ViewOf(old(model)).(pc := if !ok then Closing else if kind == Inbound then Starting
                                                         else Loading(|old(model.buf)|, ToFinish))
      ensures Greets(old(said), said, CMD_OKAY, localID) || (!ok && said == old(said))
      ensures !ok ==> session.line.CutOff()
    {
      var remote := MarkOpen();
      Yield();
      ok := Say(Packet(CMD_OKAY, localID, remote, []));
    }

    /** opened.Store(true), and the remote ID as it is then. */
    method MarkOpen() returns (remote: uint32)
      requires Live() && model.pc.Marking?
      modifies this, session, session.line, session.line.conn
      ensures Live() && Onward() && ViewOf(model) == ViewOf(old(model)).(pc := Greeting(remote)) && said == old(said)
    {
      Yield();
      isOpen := true;
      remote := remoteID;
      NoteMarking();
    }

    method Dial(ok: bool)
      requires Live() && model.pc.Dialing?
      modifies this, session, session.line, session.line.conn
      ensures Live() && ViewOf(model) == ViewOf(old(model)).(pc := if ok then Marking else Closing) && said == old(said)
    {
      Yield();
      if ok {
        SetConn();
      }
      NoteStep(Dialed(ok), 0);
    }

    /** finish, which ends the goroutine. */
    method End()
      requires Live() && model.pc.Closing? && SvcInv(origin) && Spoken(origin.log) == []
      modifies this, session, session.line, session.line.conn
      ensures Over() && Onward() && ViewOf(model) == ViewOf(old(model)).(pc := model.pc)
      ensures said == old(said) || SaysClse(old(said), said, localID)
    {
      ghost var before := said;
      Finish();
      OverNow(before);
    }

    /** Its buffer, if it ever had one, was as large as the payload limit at some time. */
    ghost predicate Sized()
      reads this, session
    {
      model.buf == [] || |model.buf| in session.limits
    }

    /** After its greeting the stream has a conn to pump; nothing more to say when it could not be written. */
    method PumpAfter(conn: ByteReader, ok: bool, ghost command: uint32)
      requires Live() && model.buf == [] && if ok then model.pc.Starting? else model.pc.Closing? && StoppedEarly()
      requires Greets([], said, command, localID) || (!ok && said == [])
      modifies this, session, session.line, session.line.conn, conn`data
      ensures Live() && model.pc.Closing? && model.log.read + conn.data == old(model.log.read + conn.data) && Sized()
      ensures Course(said, command, localID, |model.buf|, old(conn.data), StoppedEarly())
    {
      if ok {
        ghost var greeting := said;
        Pump(conn);
        GreetedAndForwarded(greeting, said, command, localID, |model.buf|, old(conn.data), StoppedEarly());
      } else {
        JustGreeted(said, command, localID, |model.buf|, conn.data);
      }
    }

    /** What a dialed connection gives goes to the client after the OKAY. */
    method Serve(conn: ByteReader)
      requires Live() && model.pc.Marking? && kind == Inbound && model.buf == [] && said == []
      modifies this, session, session.line, session.line.conn, conn`data
      ensures Live() && model.pc.Closing? && model.log.read + conn.data == old(model.log.read + conn.data) && Sized()
      ensures Course(said, CMD_OKAY, localID, |model.buf|, old(conn.data), StoppedEarly())
    {
      var ok := Greet();
      PumpAfter(conn, ok, CMD_OKAY);
    }

    /** finish, after a conn was served. */
    method EndCourse(ghost command: uint32, ghost had: seq<byte>)
      requires Live() && model.pc.Closing? && SvcInv(origin) && Spoken(origin.log) == [] && Sized()
      requires Course(said, command, localID, |model.buf|, had, StoppedEarly())
      modifies this, session, session.line, session.line.conn
      ensures Over() && Sized() && model.log.read == old(model.log.read)
      ensures Says(said, command, localID, |model.buf|, had, StoppedEarly())
    {
      ghost var body, early := said, StoppedEarly();
      End();
      EarlyOn(body, command, localID, |model.buf|, had, early, StoppedEarly());
    }

    method ServeThrough(conn: ByteReader)
      requires Live() && model.pc.Marking? && kind == Inbound && model.buf == [] && said == []
      requires SvcInv(origin) && Spoken(origin.log) == []
      modifies this, session, session.line, session.line.conn, conn`data
      ensures Over() && Sized() && model.log.read + conn.data == old(model.log.read + conn.data)
      ensures Says(said, CMD_OKAY, localID, |model.buf|, old(conn.data), StoppedEarly())
    {
      Serve(conn);
      EndCourse(CMD_OKAY, old(conn.data));
    }

    /**
     run: dial, OKAY, pump, finish. Whatever the others do meanwhile, the packets on the connection in the stream's name
     are the machine's: an OKAY, WRTEs of at most the payload limit that carry all of what the dialed connection gave,
     or a prefix of it if the stream was stopped early, and at most one CLSE, the last.
     */
    method Run(dial: Option<ByteReader>)
      requires AtStart(Inbound)
      modifies this, session, session.line, session.line.conn
      modifies if dial.Some? then {dial.value} else {}
      ensures Over() && Sized()
      ensures dial.Some? ==> Says(said, CMD_OKAY, localID, |model.buf|, old(dial.value.data), StoppedEarly())
      ensures dial.Some? ==> model.log.read + dial.value.data == old(dial.value.data)
      ensures dial.None? ==> model.log.read == [] && (said == [] || SaysClse([], said, localID))
      ensures old(remoteID) != 0 ==> KeepsTo(old(remoteID))
    {
      OriginOk(Inbound);
      ghost var remote := remoteID;
      OriginNamed(Inbound);
      Dial(dial.Some?);
      if dial.Some? {
        ServeThrough(dial.value);
      } else {
        End();
      }
      HasKept(remote);
    }

    /** The OPEN is on the connection, or nothing more can be written; true only if it was answered. */
    method SendOpenAndWaitAck() returns (ok: bool)
      requires Live() && model.pc.Greeting? && kind == Outbound
      modifies this, session, session.line, session.line.conn
      ensures Live()
      ensures ViewOf(model) == ViewOf(old(model)).(pc := AfterWait(ToPump, ok), gaveUp := model.log.gaveUp)
      ensures said == old(said) + [Packet(CMD_OPEN, localID, 0, name + [0])] ||
                (!ok && said == old(said) && session.line.CutOff())
      ensures !ok ==> StoppedEarly()
    {
      Yield();
      ok := Say(Packet(CMD_OPEN, localID, 0, name + [0]));
      if ok {
        ok := AwaitAck();
      }
    }

    method Attach()
      requires Live() && model.pc.Attaching?
      modifies this, session, session.line, session.line.conn
      ensures Live() && ViewOf(model) == ViewOf(old(model)).(pc := Greeting(0)) && said == old(said)
    {
      Yield();
      SetConn();
      NoteStep(Go, 0);
    }

    method Open(conn: ByteReader)
      requires Live() && model.pc.Attaching? && kind == Outbound && model.buf == [] && said == []
      modifies this, session, session.line, session.line.conn, conn`data
      ensures Live() && model.pc.Closing? && model.log.read + conn.data == old(model.log.read + conn.data) && Sized()
      ensures Course(said, CMD_OPEN, localID, |model.buf|, old(conn.data), StoppedEarly())
    {
      Attach();
      var ok := SendOpenAndWaitAck();
      PumpAfter(conn, ok, CMD_OPEN);
    }

    method OpenThrough(conn: ByteReader)
      requires Live() && model.pc.Attaching? && kind == Outbound && model.buf == [] && said == []
      requires SvcInv(origin) && Spoken(origin.log) == []
      modifies this, session, session.line, session.line.conn, conn`data
      ensures Over() && Sized() && model.log.read + conn.data == old(model.log.read + conn.data)
      ensures Says(said, CMD_OPEN, localID, |model.buf|, old(conn.data), StoppedEarly())
    {
      Open(conn);
      EndCourse(CMD_OPEN, old(conn.data));
    }

    /** runOutbound: OPEN, wait for its OKAY, pump, finish. */
    method RunOutbound(conn: ByteReader)
      requires AtStart(Outbound)
      modifies this, session, session.line, session.line.conn, conn`data
      ensures Over() && Sized()
      ensures Says(said, CMD_OPEN, localID, |model.buf|, old(conn.data), StoppedEarly())
      ensures model.log.read + conn.data == old(conn.data)
    {
      OriginOk(Outbound);
      OpenThrough(conn);
    }

    method Handle(reply: seq<byte>)
      requires Live() && model.pc.Handling?
      modifies this, session, session.line, session.line.conn
      ensures Live() && model.pc.Marking? && model.buf == reply && said == old(said)
    {
      Yield();
      NoteStep(Answer(reply), 0);
    }

    method SendReply(payload: seq<byte>)
      requires Live() && model.pc.Marking? && kind == Local && payload == model.buf && said == []
      modifies this, session, session.line, session.line.conn
      ensures Live() && Onward() && model.pc.Closing?
      ensures IsReply(said, localID, payload, StoppedEarly())
    {
      var ok := Greet();
      if ok {
        assert payload == model.buf[..|payload|];
        ok := SendWriteAndWaitAck(payload);
      }
    }

    /** sendPayloadAndClose: OKAY, the local handler's reply as one WRTE however long, and finish. */
    method SendPayloadAndClose(payload: seq<byte>)
      requires AtStart(Local)
      modifies this, session, session.line, session.line.conn
      ensures Over()
      ensures exists body :: IsReply(body, localID, payload, StoppedEarly()) &&
                (said == body || SaysClse(body, said, localID))
      ensures old(remoteID) != 0 ==> KeepsTo(old(remoteID))
    {
      OriginOk(Local);
      ghost var remote := remoteID;
      OriginNamed(Local);
      Handle(payload);
      SendReply(payload);
      ghost var body := said;
      End();
      HasKept(remote);
      assert IsReply(body, localID, payload, StoppedEarly());
    }
  }

  /** Whatever else has changed in the map, the stream has got no entry that it did not have. */
  predicate NotPutBack(before: map<uint32, Service>, after: map<uint32, Service>, svc: Service)
  {
    forall id :: id in after && after[id] == svc ==> id in before && before[id] == svc
  }

  // ---- What a goroutine says

  predicate AllWrtes(ws: seq<Packet>, localID: uint32, limit: nat)
  {
    forall k :: 0 <= k < |ws| ==> ws[k].command == CMD_WRTE && ws[k].arg0 == localID && 1 <= |ws[k].payload| <= limit
  }

  /** From `before` to `after` only WRTEs were said, carrying what `had` holds before `left`. */
  ghost predicate Relays(before: seq<Packet>, after: seq<Packet>, localID: uint32, limit: nat, had: seq<byte>,
                         left: seq<byte>)
  {
    exists ws :: after == before + ws && AllWrtes(ws, localID, limit) && Payloads(ws) + left == had
  }

  /** From `before` to `after` only WRTEs were said, carrying a prefix of the bytes. */
  ghost predicate Forwards(before: seq<Packet>, after: seq<Packet>, localID: uint32, limit: nat, bytes: seq<byte>)
  {
    exists ws :: after == before + ws && AllWrtes(ws, localID, limit) && Payloads(ws) <= bytes
  }

  lemma NothingRelayed(said: seq<Packet>, localID: uint32, limit: nat, bytes: seq<byte>)
    ensures Relays(said, said, localID, limit, bytes, bytes) && Forwards(said, said, localID, limit, bytes)
  {
    var none: seq<Packet> := [];
    assert said == said + none && Payloads(none) + bytes == bytes;
  }

  lemma OneRelayed(before: seq<Packet>, after: seq<Packet>, localID: uint32, remote: uint32, limit: nat,
                   chunk: seq<byte>, left: seq<byte>, ok: bool)
    requires 1 <= |chunk| <= limit
    requires after == before + [Packet(CMD_WRTE, localID, remote, chunk)] || (!ok && after == before)
    ensures ok ==> Relays(before, after, localID, limit, chunk + left, left)
    ensures Forwards(before, after, localID, limit, chunk + left)
  {
    var p := Packet(CMD_WRTE, localID, remote, chunk);
    PayloadsSnoc([], p);
    assert [] + [p] == [p] && [] + chunk == chunk;
    if after == before {
      NothingRelayed(before, localID, limit, chunk + left);
    }
  }

  lemma {:induction false} PayloadsAppend(a: seq<Packet>, b: seq<Packet>)
    ensures Payloads(a + b) == Payloads(a) + Payloads(b)
  {
    if b == [] {
      assert a + b == a;
    } else {
      var init, last := b[..|b| - 1], b[|b| - 1];
      PayloadsAppend(a, init);
      assert b == init + [last];
      Assoc(a, init, [last]);
      PayloadsSnoc(a + init, last);
      PayloadsSnoc(init, last);
      Assoc(Payloads(a), Payloads(init), last.payload);
    }
  }

  lemma RelaysOn(before: seq<Packet>, mid: seq<Packet>, after: seq<Packet>, localID: uint32, limit: nat,
                 had: seq<byte>, rest: seq<byte>, left: seq<byte>)
    requires Relays(before, mid, localID, limit, had, rest)
    ensures Relays(mid, after, localID, limit, rest, left) ==> Relays(before, after, localID, limit, had, left)
    ensures Forwards(mid, after, localID, limit, rest) ==> Forwards(before, after, localID, limit, had)
  {
    var ws :| mid == before + ws && AllWrtes(ws, localID, limit) && Payloads(ws) + rest == had;
    if Relays(mid, after, localID, limit, rest, left) {
      var more :| after == mid + more && AllWrtes(more, localID, limit) && Payloads(more) + left == rest;
      WrtesAppend(before, ws, more, localID, limit);
      Assoc(Payloads(ws), Payloads(more), left);
    }
    if Forwards(mid, after, localID, limit, rest) {
      var more :| after == mid + more && AllWrtes(more, localID, limit) && Payloads(more) <= rest;
      WrtesAppend(before, ws, more, localID, limit);
      assert had[|Payloads(ws)|..] == rest;
    }
  }

  lemma WrtesAppend(before: seq<Packet>, ws: seq<Packet>, more: seq<Packet>, localID: uint32, limit: nat)
    requires AllWrtes(ws, localID, limit) && AllWrtes(more, localID, limit)
    ensures before + ws + more == before + (ws + more) && AllWrtes(ws + more, localID, limit)
    ensures Payloads(ws + more) == Payloads(ws) + Payloads(more)
  {
    PayloadsAppend(ws, more);
  }

  /** One packet was said, which opens the stream. */
  ghost predicate Greets(before: seq<Packet>, after: seq<Packet>, command: uint32, localID: uint32)
  {
    exists p: Packet :: after == before + [p] && p.command == command && p.arg0 == localID
  }

  /**
   What a stream with a conn says before it finishes: its greeting, and the conn's bytes in WRTEs of up to `limit`, all
   of them unless it was stopped early.
   */
  ghost predicate Course(body: seq<Packet>, command: uint32, localID: uint32, limit: nat, had: seq<byte>, early: bool)
  {
    if body == [] then early
    else
      && Greets([], body[..1], command, localID) && Forwards(body[..1], body, localID, limit, had)
      && (early || Relays(body[..1], body, localID, limit, had, []))
  }

  lemma JustGreeted(body: seq<Packet>, command: uint32, localID: uint32, limit: nat, had: seq<byte>)
    requires Greets([], body, command, localID) || body == []
    ensures Course(body, command, localID, limit, had, true)
  {
    assert body != [] ==> body[..1] == body;
    NothingRelayed(body, localID, limit, had);
  }

  lemma GreetedAndForwarded(greeting: seq<Packet>, body: seq<Packet>, command: uint32, localID: uint32, limit: nat,
                            had: seq<byte>, early: bool)
    requires Greets([], greeting, command, localID) && Forwards(greeting, body, localID, limit, had)
    requires early || Relays(greeting, body, localID, limit, had, [])
    ensures Course(body, command, localID, limit, had, early)
  {
    assert body[..1] == greeting;
  }

  lemma EarlyOn(body: seq<Packet>, command: uint32, localID: uint32, limit: nat, had: seq<byte>, early: bool,
                later: bool)
    requires Course(body, command, localID, limit, had, early) && (early ==> later)
    ensures Course(body, command, localID, limit, had, later)
  {
  }

  /** The whole of what it says: the course, and a CLSE or not. */
  ghost predicate Says(said: seq<Packet>, command: uint32, localID: uint32, limit: nat, had: seq<byte>, early: bool)
  {
    exists body: seq<Packet> :: Course(body, command, localID, limit, had, early) &&
      (said == body || SaysClse(body, said, localID))
  }

  /** An OKAY and a WRTE with exactly the payload, or less than that if it was stopped early. */
  predicate IsReply(said: seq<Packet>, localID: uint32, payload: seq<byte>, early: bool)
  {
    && |said| <= 2 && (|said| == 2 || early)
    && (|said| >= 1 ==> said[0].command == CMD_OKAY && said[0].arg0 == localID)
    && (|said| == 2 ==> said[1].command == CMD_WRTE && said[1].arg0 == localID && said[1].payload == payload)
  }

  /** One CLSE was said, and nothing else. */
  ghost predicate SaysClse(before: seq<Packet>, after: seq<Packet>, localID: uint32)
  {
    exists p: Packet :: after == before + [p] && p.command == CMD_CLSE && (p.arg0 == 0 || p.arg0 == localID) &&
      p.payload == []
  }
}
