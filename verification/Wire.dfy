/** session.writePacket seen at the granularity of single Write calls on the client connection. */
module Wire {
  import opened Bytes
  import opened Streams
  import opened Adbwire
  import opened Emissions

  // ---- The machine of single writes. A failed Write is final: the connection takes nothing more.

  datatype Phase = Entered | HeaderNext | PayloadNext

  /** The goroutine that holds writeMu, and how far it is. */
  datatype Holder = Holder(owner: Owner, packet: Packet, phase: Phase)

  /** `cut` counts the bytes that were written of the packet whose Write failed. */
  datatype State = State(link: Link, bytes: seq<byte>, holder: Option<Holder>, cut: nat)

  datatype Step =
    | Lock(owner: Owner, packet: Packet)  // writeMu.Lock
    | TestClosed                          // if s.closed
    | WriteHeader(n: nat)                 // conn.Write(header) accepts n bytes
    | WritePayload(n: nat)                // conn.Write(payload) accepts n bytes
    | Close                               // another goroutine sets s.closed

  const INITIAL := State(Link(false, false, []), [], None, 0)

  predicate Enabled(s: State, a: Step)
  {
    match a
    case Lock(_, _) => s.holder.None?
    case TestClosed => s.holder.Some? && s.holder.value.phase == Entered
    case WriteHeader(n) => s.holder.Some? && s.holder.value.phase == HeaderNext && n <= HEADER_SIZE &&
      (s.link.broken ==> n == 0)
    case WritePayload(n) => s.holder.Some? && s.holder.value.phase == PayloadNext &&
      n <= |s.holder.value.packet.payload|
    case Close => true
  }

  /** The outcome of the writePacket call that `a` completes, if it completes one. */
  function Completes(s: State, a: Step): Option<Outcome>
    requires Enabled(s, a)
  {
    match a
    case TestClosed => if s.link.closed then Some(Refused) else None
    case WriteHeader(n) =>
      if n < HEADER_SIZE then Some(if s.link.broken then Refused else Torn)
      else if s.holder.value.packet.payload == [] then Some(Sent) else None
    case WritePayload(n) => Some(if n < |s.holder.value.packet.payload| then Torn else Sent)
    case _ => None
  }

  function Apply(s: State, a: Step): State
    requires Enabled(s, a)
  {
    match a
    case Lock(owner, packet) => s.(holder := Some(Holder(owner, packet, Entered)))
    case Close => s.(link := s.link.(closed := true))
    case TestClosed =>
      if s.link.closed then Release(s, Refused, 0) else s.(holder := Some(s.holder.value.(phase := HeaderNext)))
    case WriteHeader(n) =>
      var t := s.(bytes := s.bytes + Header(s.holder.value.packet)[..n]);
      if n == HEADER_SIZE && s.holder.value.packet.payload != [] then
        t.(holder := Some(s.holder.value.(phase := PayloadNext)))
      else
        Release(t, Completes(s, a).value, n)
    case WritePayload(n) =>
      Release(s.(bytes := s.bytes + s.holder.value.packet.payload[..n]), Completes(s, a).value, HEADER_SIZE + n)
  }

  function Release(s: State, o: Outcome, written: nat): State
    requires s.holder.Some?
  {
    s.(link := Emit(s.link, s.holder.value.owner, s.holder.value.packet, o),
       holder := None,
       cut := if o == Torn then written else s.cut)
  }

  ghost predicate Next(s: State, t: State)
  {
    exists a :: Enabled(s, a) && t == Apply(s, a)
  }

  ghost predicate Run(run: seq<State>)
  {
    && run != [] && run[0] == INITIAL
    && forall j, k {:trigger Next(run[j], run[k])} :: 0 <= j && k == j + 1 < |run| ==> Next(run[j], run[k])
  }

  // ---- Refinement: one write step is at most one packet-level emission

  /** Every step leaves the packet-level view alone, closes it, or makes exactly one allowed emission. */
  lemma StepRefinesEmission(s: State, a: Step)
    requires Inv(s) && Enabled(s, a)
    ensures var l, l' := s.link, Apply(s, a).link;
            match Completes(s, a)
            case None => l' == if a == Close then l.(closed := true) else l
            case Some(o) => CanEmit(l, o) && l' == Emit(l, s.holder.value.owner, s.holder.value.packet, o)
  {
  }

  // ---- What is on the wire

  /** The packet of which only a part is on the wire: the one a failing Write cut, or the one being written. */
  function Unfinished(s: State): Option<Packet>
  {
    if s.link.broken && s.link.out != [] then Some(s.link.out[|s.link.out| - 1].packet)
    else if s.holder.Some? && s.holder.value.phase == PayloadNext then Some(s.holder.value.packet)
    else None
  }

  /** How much of it is there. */
  function Progress(s: State): nat
  {
    if s.link.broken then s.cut else HEADER_SIZE
  }

  ghost predicate Inv(s: State)
  {
    && (s.link.broken ==> s.link.out != [])
    && (s.holder.Some? && s.holder.value.phase == PayloadNext ==> !s.link.broken && s.holder.value.packet.payload != [])
    && OnWire(s.bytes, Whole(s.link.out), Unfinished(s), Progress(s))
  }

  ghost predicate OnWire(bytes: seq<byte>, done: seq<Packet>, unfinished: Option<Packet>, progress: nat)
  {
    match unfinished
    case None => bytes == EncodeAll(done)
    case Some(p) => progress < |Encode(p)| && bytes == EncodeAll(done) + Encode(p)[..progress]
  }

  lemma StepKeepsInv(s: State, a: Step)
    requires Inv(s) && Enabled(s, a)
    ensures Inv(Apply(s, a))
  {
    match a {
      case WriteHeader(n) => HeaderKeepsInv(s, n);
      case WritePayload(n) => PayloadKeepsInv(s, n);
      case _ =>
    }
  }

  lemma HeaderKeepsInv(s: State, n: nat)
    requires Inv(s) && Enabled(s, WriteHeader(n))
    ensures Inv(Apply(s, WriteHeader(n)))
  {
    var t := Apply(s, WriteHeader(n));
    var p, done := s.holder.value.packet, Whole(s.link.out);
    HeaderOnly(p, n);
    if s.link.broken {
      assert t.bytes == s.bytes;
    } else {
      assert t.bytes == EncodeAll(done) + Encode(p)[..n];
      AfterWrite(s, t, n);
    }
  }

  /** The holder has written `n` bytes of its packet in all: either it released the lock or it goes on. */
  lemma AfterWrite(s: State, t: State, n: nat)
    requires !s.link.broken && s.holder.Some? && n <= |Encode(s.holder.value.packet)|
    requires t.bytes == EncodeAll(Whole(s.link.out)) + Encode(s.holder.value.packet)[..n]
    requires var p, owner := s.holder.value.packet, s.holder.value.owner;
             || (n == |Encode(p)| && t.link == Emit(s.link, owner, p, Sent) && t.holder.None?)
             || (n < |Encode(p)| && t.link == Emit(s.link, owner, p, Torn) && t.holder.None? && t.cut == n)
             || (n == HEADER_SIZE < |Encode(p)| && t.link == s.link && t.holder == Some(Holder(owner, p, PayloadNext)))
    ensures Inv(t)
  {
    var p, done := s.holder.value.packet, Whole(s.link.out);
    WholeSnoc(s.link.out, Emission(s.holder.value.owner, p, n == |Encode(p)|));
    if n == |Encode(p)| {
      EncodeAllSnoc(done, p);
      assert Encode(p)[..n] == Encode(p);
    } else {
      assert Unfinished(t) == Some(p) && Progress(t) == n;
      assert Whole(t.link.out) == done by { assert done + [] == done; }
    }
  }

  lemma HeaderOnly(p: Packet, n: nat)
    requires n <= HEADER_SIZE
    ensures Encode(p)[..n] == Header(p)[..n]
    ensures n == HEADER_SIZE && p.payload == [] ==> Encode(p) == Header(p)[..n]
  {
  }

  lemma PayloadKeepsInv(s: State, n: nat)
    requires Inv(s) && Enabled(s, WritePayload(n))
    ensures Inv(Apply(s, WritePayload(n)))
  {
    var t := Apply(s, WritePayload(n));
    var p, done := s.holder.value.packet, Whole(s.link.out);
    PayloadToo(p, n);
    Assoc(EncodeAll(done), Encode(p)[..HEADER_SIZE], p.payload[..n]);
    assert t.bytes == EncodeAll(done) + Encode(p)[..HEADER_SIZE + n];
    AfterWrite(s, t, HEADER_SIZE + n);
  }

  lemma PayloadToo(p: Packet, n: nat)
    requires n <= |p.payload|
    ensures Encode(p)[..HEADER_SIZE] + p.payload[..n] == Encode(p)[..HEADER_SIZE + n]
    ensures n == |p.payload| ==> Encode(p)[..HEADER_SIZE + n] == Encode(p)
  {
  }

  /** In every run, whatever the writers and however they interleave. */
  lemma {:induction false} RunKeepsInv(run: seq<State>, k: nat)
    requires Run(run) && k < |run|
    ensures Inv(run[k])
  {
    if k > 0 {
      RunKeepsInv(run, k - 1);
      assert Next(run[k - 1], run[k]);
      var a :| Enabled(run[k - 1], a) && run[k] == Apply(run[k - 1], a);
      StepKeepsInv(run[k - 1], a);
    }
  }

  /** The bytes on the wire are always a prefix of whole packets, in the order their writers held the lock. */
  lemma WireIsPacketPrefix(run: seq<State>, k: nat)
    requires Run(run) && k < |run|
    ensures var begun := Whole(run[k].link.out) + if Unfinished(run[k]).Some? then [Unfinished(run[k]).value] else [];
            run[k].bytes <= EncodeAll(begun)
  {
    RunKeepsInv(run, k);
    var done, unfinished := Whole(run[k].link.out), Unfinished(run[k]);
    if unfinished.Some? {
      EncodeAllSnoc(done, unfinished.value);
    } else {
      assert done + [] == done;
    }
  }

  /** Decoding the wire at any moment gives exactly the packets written whole, and never a cut one. */
  lemma ClientReadsWholePackets(run: seq<State>, k: nat)
    requires Run(run) && k < |run|
    requires forall p :: p in Whole(run[k].link.out) ==> |p.payload| <= MAX_PAYLOAD_SIZE
    requires Unfinished(run[k]).Some? ==> |Unfinished(run[k]).value.payload| <= MAX_PAYLOAD_SIZE
    ensures DecodeAll(run[k].bytes).0 == Whole(run[k].link.out)
  {
    RunKeepsInv(run, k);
    var done, unfinished := Whole(run[k].link.out), Unfinished(run[k]);
    var tail := if unfinished.Some? then Encode(unfinished.value)[..Progress(run[k])] else [];
    assert run[k].bytes == EncodeAll(done) + tail;
    DecodeAllEncodeAll(done, tail);
    if unfinished.Some? {
      DecodeCut(unfinished.value, Progress(run[k]), Eof);
    }
    assert DecodeAll(tail).0 == [];
  }
}
