/**
 One client session and its streams (src/internal/bridge/session.go and service.go) as a step machine.
 Every stream has its own goroutine with a program counter; the session's read loop, the reverse
 listeners' accept goroutines, the client and whoever closes the session run beside them, and each
 step below is one action none of them can observe in the middle.
 */
module Multiplexer {
  import opened Bytes
  import opened Adbwire
  import opened Emissions

  const DEFAULT_VERSION: uint32 := 0x01000000
  const DEFAULT_MAX_PAYLOAD: uint32 := 4096
  const MAX_WRITE_PAYLOAD: uint32 := 0x1_0000
  const AUTH_TOKEN_SIZE: nat := 20
  const REVERSE_PREFIX: seq<byte> := [114, 101, 118, 101, 114, 115, 101, 58]  // "reverse:"

  // ---- One stream

  /** Who drives the stream: service.run, service.runOutbound or service.sendPayloadAndClose. */
  datatype Kind = Inbound | Outbound | Local

  /** What a granted acknowledgement leads to: start the pump, read on, or finish. */
  datatype Then = ToPump | ToRead | ToFinish

  datatype Pc =
    | Fresh                                          // created, not yet in the service map
    | Dialing                                        // run: Backend.OpenService
    | Handling                                       // driveOpen: the local handler computes its reply
    | Attaching                                      // runOutbound: setConn
    | Marking                                        // opened = true, load remoteID
    | Greeting(remote: uint32)                       // write OKAY (OPEN for an outbound stream)
    | Starting                                       // pumpConnToClient allocates its buffer
    | Reading                                        // conn.Read(buffer)
    | Loading(n: nat, next: Then)                    // sendWriteAndWaitAck loads remoteID
    | Writing(remote: uint32, n: nat, next: Then)    // write WRTE with buffer[:n]
    | Waiting(next: Then)                            // select on ackCh and done
    | Closing                                        // finish: close()
    | Leaving                                        // finish: removeService
    | Checking                                       // finish: load remoteID
    | Deciding(remote: uint32)                       // finish: !opened && remoteID == 0
    | Choosing(remote: uint32)                       // finish: !opened
    | Parting(arg0: uint32, remote: uint32)          // finish: write CLSE
    | Finished(silent: bool)                         // returned; silent if finish decided to send nothing

  /** A record of what a stream did and what was done to it; nothing reads it back. */
  datatype Log = Log(
    greeting: seq<Packet>, wrtes: seq<Packet>, parting: seq<Packet>,  // packets its goroutine began to write
    read: seq<byte>,       // bytes conn.Read has returned
    delivered: seq<byte>,  // bytes conn.Write has accepted
    since: nat,            // client packets taken before the stream was registered
    acks: nat,             // OKAYs ack() has dealt with
    consumed: nat,         // tokens taken from ackCh
    dropped: nat,          // tokens ack() threw away
    gaveUp: bool)          // a write was given up: no remote ID to send to, or closed before the token came

  /** A service object. */
  datatype Svc = Svc(
    kind: Kind, localID: uint32, name: seq<byte>,
    remoteID: uint32, isOpen: bool, attached: bool, done: bool, token: bool,
    pc: Pc, buf: seq<byte>, log: Log)

  function NewSvc(kind: Kind, localID: uint32, remoteID: uint32, name: seq<byte>): Svc
  {
    Svc(kind, localID, name, remoteID, false, false, false, false, Fresh, [],
      Log([], [], [], [], [], 0, 0, 0, 0, false))
  }

  /** The outside world's part in a step of a stream's goroutine. */
  datatype Choice =
    | Go                                   // nothing to choose
    | Dialed(ok: bool)                     // OpenService returned
    | Answer(reply: seq<byte>)             // the local handler returned
    | Got(data: seq<byte>, failed: bool)   // conn.Read returned
    | Granted                              // select took ackCh
    | Cancelled                            // select took done

  predicate CanStep(v: Svc, c: Choice)
  {
    match v.pc
    case Dialing => c.Dialed?
    case Handling => c.Answer?
    case Reading => c.Got? && |c.data| <= |v.buf|
    case Waiting(_) => (c.Granted? && v.token) || (c.Cancelled? && v.done)
    case Attaching | Marking | Starting | Loading(_, _) | Closing | Checking | Deciding(_) | Choosing(_) => c.Go?
    case _ => false
  }

  /** A step that touches nothing but the stream itself. */
  function StepSvc(v: Svc, c: Choice, maxPayload: uint32): Svc
    requires CanStep(v, c)
  {
    match v.pc
    case Dialing => if c.ok then v.(attached := true, pc := Marking) else v.(pc := Closing)
    case Handling => v.(buf := c.reply, pc := Marking)
    case Attaching => v.(attached := true, pc := Greeting(0))
    case Marking => v.(isOpen := true, pc := Greeting(v.remoteID))
    case Starting => v.(buf := seq(maxPayload, _ => 0), pc := Reading)
    case Reading =>
      v.(buf := c.data + v.buf[|c.data|..],
         log := v.log.(read := v.log.read + c.data),
         pc := if c.data != [] then Loading(|c.data|, if c.failed then ToFinish else ToRead)
               else if c.failed then Closing else Reading)
    case Loading(n, next) =>
      if v.remoteID == 0 then v.(log := v.log.(gaveUp := true), pc := Closing)
      else v.(pc := Writing(v.remoteID, n, next))
    case Waiting(next) =>
      if c.Cancelled? then v.(log := v.log.(gaveUp := true), pc := Closing)
      else v.(token := false, log := v.log.(consumed := v.log.consumed + 1),
              pc := match next case ToPump => Starting case ToRead => Reading case ToFinish => Closing)
    case Closing => CloseSvc(v).(pc := Leaving)
    case Checking => v.(pc := Deciding(v.remoteID))
    case Deciding(remote) => v.(pc := if !v.isOpen && remote == 0 then Finished(true) else Choosing(remote))
    case Choosing(remote) => v.(pc := Parting(if v.isOpen then v.localID else 0, remote))
  }

  predicate Speaking(v: Svc)
  {
    v.pc.Greeting? || (v.pc.Writing? && v.pc.n <= |v.buf|) || v.pc.Parting?
  }

  /** The packet the stream's goroutine is about to write. */
  function Message(v: Svc): Packet
    requires Speaking(v)
  {
    match v.pc
    case Greeting(remote) =>
      if v.kind == Outbound then Packet(CMD_OPEN, v.localID, 0, v.name + [0])
      else Packet(CMD_OKAY, v.localID, remote, [])
    case Writing(remote, n, _) => Packet(CMD_WRTE, v.localID, remote, v.buf[..n])
    case Parting(arg0, remote) => Packet(CMD_CLSE, arg0, remote, [])
  }

  /** The stream after that write came to its outcome. */
  function Said(v: Svc, o: Outcome): Svc
    requires Speaking(v)
  {
    var begun := if o == Refused then [] else [Message(v)];
    match v.pc
    case Greeting(_) =>
      v.(log := v.log.(greeting := v.log.greeting + begun),
         pc := if o != Sent then Closing
               else match v.kind
                    case Inbound => Starting
                    case Local => Loading(|v.buf|, ToFinish)
                    case Outbound => Waiting(ToPump))
    case Writing(_, _, next) =>
      v.(log := v.log.(wrtes := v.log.wrtes + begun), pc := if o == Sent then Waiting(next) else Closing)
    case Parting(_, _) => v.(log := v.log.(parting := v.log.parting + begun), pc := Finished(false))
  }

  // service.ack in its three atomic steps, and service.close

  function AckCas(v: Svc, remote: uint32): Svc { v.(remoteID := if v.remoteID == 0 then remote else v.remoteID) }

  function AckMark(v: Svc): Svc { v.(isOpen := true) }

  function AckToken(v: Svc): Svc
  {
    v.(token := true, log := v.log.(acks := v.log.acks + 1, dropped := v.log.dropped + if v.token then 1 else 0))
  }

  function Acked(v: Svc, remote: uint32, stage: AckStage): Svc
  {
    match stage case CasRemote => AckCas(v, remote) case MarkOpened => AckMark(v) case PutToken => AckToken(v)
  }

  function CloseSvc(v: Svc): Svc { v.(done := true) }

  /** The stream as putService leaves it and its goroutine starts on it. */
  function Started(v: Svc, taken: nat): Svc
  {
    v.(log := v.log.(since := taken),
       pc := match v.kind case Inbound => Dialing case Local => Handling case Outbound => Attaching)
  }

  /** conn.Write has accepted more bytes. */
  function Fed(v: Svc, data: seq<byte>): Svc { v.(log := v.log.(delivered := v.log.delivered + data)) }

  // ---- The session

  datatype AckStage = CasRemote | MarkOpened | PutToken

  datatype LoopPc =
    | Idle                                                  // ReadPacket
    | Registering(i: nat)                                   // handleOpen: putService
    | Acking(i: nat, remote: uint32, stage: AckStage)       // handleOkay
    | Delivering(i: nat, payload: seq<byte>)                // handleWrite: svc.write
    | Confirming(i: nat)                                    // handleWrite: write OKAY
    | ClosingSvc(i: nat)                                    // handleClose
    | Replying(packet: Packet)                              // SYNC, CNXN, AUTH: write the answer
    | Stopped                                               // run returned

  /** session.close: not begun, s.closed set, or the drained services still to be closed. */
  datatype Closer = Open | Marked | Draining(todo: set<nat>)

  /** The handshake: the configuration it follows and what it has settled. */
  datatype Handshake = Handshake(
    authNone: bool, deviceID: seq<byte>, authorized: bool, version: uint32, maxPayload: uint32)

  /** The client: all it has sent, how much of that the read loop has taken, how many packets it has received. */
  datatype Client = Client(sent: seq<Packet>, taken: nat, seen: nat)

  datatype Session = Session(
    svcs: seq<Svc>,              // every service ever created, in allocation order
    table: map<uint32, nat>,     // session.services
    nextLocalID: uint32,
    link: Link,
    loop: LoopPc,
    closer: Closer,
    shake: Handshake,
    client: Client)

  function Initial(authNone: bool, deviceID: seq<byte>): Session
  {
    Session([], map[], 1, Link(false, false, []), Idle, Open,
            Handshake(authNone, deviceID, false, DEFAULT_VERSION, DEFAULT_MAX_PAYLOAD), Client([], 0, 0))
  }

  /** allocateLocalID: the counter wraps as a uint32 and skips 0. */
  function NextID(id: uint32): uint32
  {
    if id == 0xffff_ffff then 1 else id + 1
  }

  datatype Action =
    | ClientSend(packet: Packet)
    | ClientSee                               // the client receives the next whole packet
    | Take(random: Option<seq<byte>>)         // the read loop takes a packet; random bytes for a challenge
    | LoopFail                                // ReadPacket fails
    | LoopStep                                // the next step of registering, acking or closing
    | Deliver(n: nat, ok: bool)               // conn.Write accepts n bytes
    | LoopSay(o: Outcome)                     // the read loop writes a packet
    | Internal(i: nat, c: Choice)             // stream i steps by itself
    | Say(i: nat, o: Outcome)                 // stream i writes a packet
    | Leave(i: nat)                           // stream i calls removeService
    | Accept(name: seq<byte>)                 // a reverse listener accepts: startService allocates
    | Register(i: nat)                        // and puts the stream in the service map
    | CloseMark                               // session.close sets closed
    | CloseDrain                              // takes all services
    | CloseOne(i: nat)                        // closes one of them

  predicate Enabled(s: Session, a: Action)
  {
    match a
    case ClientSend(_) => true
    case ClientSee => s.client.seen < |s.link.out| && s.link.out[s.client.seen].whole
    case Take(random) =>
      && s.loop.Idle? && s.client.taken < |s.client.sent| && (random.Some? ==> |random.value| == AUTH_TOKEN_SIZE)
    case LoopFail => s.loop.Idle?
    case LoopStep =>
      (s.loop.Registering? && s.loop.i < |s.svcs| && s.svcs[s.loop.i].pc.Fresh?) ||
      ((s.loop.Acking? || s.loop.ClosingSvc?) && s.loop.i < |s.svcs|)
    case Deliver(n, ok) =>
      && s.loop.Delivering? && s.loop.i < |s.svcs| && n <= |s.loop.payload|
      && if s.svcs[s.loop.i].attached then ok ==> n == |s.loop.payload| else !ok && n == 0
    case LoopSay(o) => (s.loop.Replying? || (s.loop.Confirming? && s.loop.i < |s.svcs|)) && CanEmit(s.link, o)
    case Internal(i, c) => i < |s.svcs| && CanStep(s.svcs[i], c)
    case Say(i, o) => i < |s.svcs| && Speaking(s.svcs[i]) && CanEmit(s.link, o)
    case Leave(i) => i < |s.svcs| && s.svcs[i].pc.Leaving?
    case Accept(_) => true
    case Register(i) => i < |s.svcs| && s.svcs[i].pc.Fresh? && s.svcs[i].kind == Outbound
    case CloseMark => s.closer.Open?
    case CloseDrain => s.closer.Marked?
    case CloseOne(i) => s.closer.Draining? && i in s.closer.todo && i < |s.svcs|
  }

  function Put(s: Session, i: nat, v: Svc): Session
    requires i < |s.svcs|
  {
    s.(svcs := s.svcs[i := v])
  }

  /** allocateLocalID and newService. */
  function Create(s: Session, v: Svc): Session
  {
    s.(svcs := s.svcs + [v], nextLocalID := NextID(s.nextLocalID))
  }

  /** putService and the start of the stream's goroutine. */
  function Registered(s: Session, i: nat): Session
    requires i < |s.svcs|
  {
    Put(s, i, Started(s.svcs[i], s.client.taken)).(table := s.table[s.svcs[i].localID := i])
  }

  function Connection(h: Handshake): Packet
  {
    Packet(CMD_CNXN, h.version, h.maxPayload, h.deviceID + [0])
  }

  /** handleOpen lets the packet through to startService. */
  predicate Opens(s: Session, p: Packet)
  {
    p.command == CMD_OPEN && s.shake.authorized && p.payload != [] && p.payload[|p.payload| - 1] == 0
  }

  /** The service object an accepted OPEN creates. */
  function Opening(s: Session, p: Packet): Svc
    requires Opens(s, p)
  {
    var name := p.payload[..|p.payload| - 1];
    NewSvc(if REVERSE_PREFIX <= name then Local else Inbound, s.nextLocalID, p.arg0, name)
  }

  /** CNXN caps the version at the classic protocol and the payload at 64 KiB. */
  function Negotiated(h: Handshake, p: Packet): Handshake
  {
    h.(version := if p.arg0 < DEFAULT_VERSION then p.arg0 else DEFAULT_VERSION,
       maxPayload := if p.arg1 == 0 then h.maxPayload
                     else if p.arg1 > MAX_WRITE_PAYLOAD then MAX_WRITE_PAYLOAD else p.arg1)
  }

  /** handlePacket up to its first effect another goroutine can see. */
  function Dispatch(s: Session, p: Packet, random: Option<seq<byte>>): Session
  {
    if p.command == CMD_SYNC then
      s.(loop := Replying(Packet(CMD_SYNC, 1, p.arg1, [])))
    else if p.command == CMD_CNXN then
      var h := Negotiated(s.shake, p);
      if h.authNone then s.(shake := h.(authorized := true), loop := Replying(Connection(h)))
      else if random.None? then s.(shake := h, loop := Stopped)
      else s.(shake := h, loop := Replying(Packet(CMD_AUTH, AUTH_TOKEN, 0, random.value)))
    else if p.command == CMD_AUTH then
      if s.shake.authNone then s
      else if p.arg0 == AUTH_SIGNATURE || p.arg0 == AUTH_RSA_PUBLIC_KEY then
        s.(shake := s.shake.(authorized := true), loop := Replying(Connection(s.shake)))
      else s.(loop := Stopped)
    else if p.command == CMD_OPEN then
      if Opens(s, p) then Create(s, Opening(s, p)).(loop := Registering(|s.svcs|)) else s.(loop := Stopped)
    else if p.command == CMD_OKAY then
      if p.arg1 in s.table then s.(loop := Acking(s.table[p.arg1], p.arg0, CasRemote)) else s
    else if p.command == CMD_WRTE then
      if p.arg1 in s.table then s.(loop := Delivering(s.table[p.arg1], p.payload)) else s
    else if p.command == CMD_CLSE then
      if p.arg1 in s.table then s.(loop := ClosingSvc(s.table[p.arg1])) else s
    else
      s.(loop := Stopped)
  }

  /** The packet the read loop is about to write. */
  function LoopMessage(s: Session): Packet
    requires s.loop.Replying? || (s.loop.Confirming? && s.loop.i < |s.svcs|)
  {
    if s.loop.Replying? then s.loop.packet
    else Packet(CMD_OKAY, s.svcs[s.loop.i].localID, s.svcs[s.loop.i].remoteID, [])
  }

  function Apply(s: Session, a: Action): Session
    requires Enabled(s, a)
  {
    match a
    case ClientSend(p) => s.(client := s.client.(sent := s.client.sent + [p]))
    case ClientSee => s.(client := s.client.(seen := s.client.seen + 1))
    case Take(random) =>
      Dispatch(s, s.client.sent[s.client.taken], random).(client := s.client.(taken := s.client.taken + 1))
    case LoopFail => s.(loop := Stopped)
    case LoopStep => StepLoop(s)
    case Deliver(n, ok) =>
      Put(s, s.loop.i, Fed(s.svcs[s.loop.i], s.loop.payload[..n]))
        .(loop := if ok then Confirming(s.loop.i) else Stopped)
    case LoopSay(o) => s.(link := Emit(s.link, Loop, LoopMessage(s), o), loop := if o == Sent then Idle else Stopped)
    case Internal(i, c) => Put(s, i, StepSvc(s.svcs[i], c, s.shake.maxPayload))
    case Say(i, o) => Put(s, i, Said(s.svcs[i], o)).(link := Emit(s.link, Stream(i), Message(s.svcs[i]), o))
    case Leave(i) => Put(s, i, s.svcs[i].(pc := Checking)).(table := s.table - {s.svcs[i].localID})
    case Accept(name) => Create(s, NewSvc(Outbound, s.nextLocalID, 0, name))
    case Register(i) => Registered(s, i)
    case CloseMark => s.(link := s.link.(closed := true), closer := Marked)
    case CloseDrain => s.(table := map[], closer := Draining(s.table.Values))
    case CloseOne(i) => Put(s, i, CloseSvc(s.svcs[i])).(closer := Draining(s.closer.todo - {i}))
  }

  function StepLoop(s: Session): Session
    requires Enabled(s, LoopStep)
  {
    match s.loop
    case Registering(i) => Registered(s, i).(loop := Idle)
    case ClosingSvc(i) => Put(s, i, CloseSvc(s.svcs[i])).(loop := Idle)
    case Acking(i, remote, stage) =>
      Put(s, i, Acked(s.svcs[i], remote, stage))
        .(loop := match stage
                  case CasRemote => Acking(i, remote, MarkOpened)
                  case MarkOpened => Acking(i, remote, PutToken)
                  case PutToken => Idle)
  }

  // ---- Runs

  ghost predicate Next(s: Session, t: Session)
  {
    exists a :: Enabled(s, a) && t == Apply(s, a)
  }

  /** Every interleaving, with every client, from a fresh session. */
  ghost predicate Run(run: seq<Session>)
  {
    && run != [] && run[0] == Initial(run[0].shake.authNone, run[0].shake.deviceID)
    && forall j, k {:trigger Next(run[j], run[k])} :: 0 <= j && k == j + 1 < |run| ==> Next(run[j], run[k])
  }

  /** The action between two states of a run. */
  lemma StepOf(run: seq<Session>, k: nat) returns (a: Action)
    requires Run(run) && 0 < k < |run|
    ensures Enabled(run[k - 1], a) && run[k] == Apply(run[k - 1], a)
  {
    assert Next(run[k - 1], run[k]);
    a :| Enabled(run[k - 1], a) && run[k] == Apply(run[k - 1], a);
  }
}
