/** What session.writePacket calls leave on the client connection, packet by packet. */
module Emissions {
  import opened Adbwire

  /** Who called writePacket: the goroutine of the i-th stream created, or the session's read loop. */
  datatype Owner = Stream(i: nat) | Loop

  /** A packet of which writing began, and whether all of it was written. */
  datatype Emission = Emission(owner: Owner, packet: Packet, whole: bool)

  /** How one writePacket call ends: written, cut by a failing Write, or turned away without writing. */
  datatype Outcome = Sent | Torn | Refused

  /** The packet-level view: is the session closed, has a Write failed, what was written in which order. */
  datatype Link = Link(closed: bool, broken: bool, out: seq<Emission>)

  predicate CanEmit(l: Link, o: Outcome)
  {
    match o
    case Refused => l.closed || l.broken
    case _ => !l.broken
  }

  function Emit(l: Link, owner: Owner, p: Packet, o: Outcome): Link
  {
    match o
    case Sent => l.(out := l.out + [Emission(owner, p, true)])
    case Torn => l.(out := l.out + [Emission(owner, p, false)], broken := true)
    case Refused => l
  }

  /** The packets that reached the wire whole. */
  function Whole(out: seq<Emission>): seq<Packet>
  {
    if out == [] then []
    else Whole(out[..|out| - 1]) + if out[|out| - 1].whole then [out[|out| - 1].packet] else []
  }

  lemma WholeSnoc(out: seq<Emission>, e: Emission)
    ensures Whole(out + [e]) == Whole(out) + if e.whole then [e.packet] else []
  {
    assert (out + [e])[..|out|] == out;
  }

  /** No emission follows a cut one: only the last can be, and then the link is broken. */
  ghost predicate OnlyLastTorn(l: Link)
  {
    forall k :: 0 <= k < |l.out| && !l.out[k].whole ==> l.broken && k == |l.out| - 1
  }

  lemma EmitKeepsOnlyLastTorn(l: Link, owner: Owner, p: Packet, o: Outcome)
    requires OnlyLastTorn(l) && CanEmit(l, o)
    ensures OnlyLastTorn(Emit(l, owner, p, o))
  {
  }
}
