/** Reverse forwards: the mapping table, its listeners and the device (src/internal/bridge/reverse.go). */
module Reverse {
  import opened Bytes

  datatype Mapping = Mapping(local: string, remote: string, port: nat)

  datatype Reply = Error | Response(text: string)

  // ---- Responses

  predicate HasPrefix(s: string, prefix: string)
  {
    prefix <= s
  }

  /** reverseFail, without its reason. */
  const FAIL := "FAIL"

  lemma FailIsNotOkay()
    ensures !ResponseOK(FAIL)
  {
    assert FAIL[0] != "OKAY"[0];
  }

  predicate ResponseOK(response: string)
  {
    HasPrefix(response, "OKAY")
  }

  function HexDigit(c: char): Option<nat>
  {
    if '0' <= c <= '9' then Some((c - '0') as nat)
    else if 'a' <= c <= 'f' then Some((c - 'a') as nat + 10)
    else if 'A' <= c <= 'F' then Some((c - 'A') as nat + 10)
    else None
  }

  function HexNumber(s: string): Option<nat>
  {
    if s == "" then Some(0)
    else
      match (HexNumber(s[..|s| - 1]), HexDigit(s[|s| - 1]))
      case (Some(high), Some(low)) => Some(16 * high + low)
      case _ => None
  }

  /** Four hexadecimal digits, and as many characters as they say. */
  function ParseLengthPrefixed(data: string, offset: nat): Option<string>
  {
    if |data| < offset + 4 then None
    else match HexNumber(data[offset..offset + 4])
      case None => None
      case Some(length) => if |data| < offset + 4 + length then None else Some(data[offset + 4..offset + 4 + length])
  }

  /** The device-side socket a forward is for: for tcp:0 the device says which port it has picked. */
  function ResolvedLocal(local: string, response: string): string
  {
    if local != "tcp:0" || !ResponseOK(response) then local
    else match ParseLengthPrefixed(response, 4) case None => local case Some(port) => "tcp:" + port
  }

  // ---- The device

  /**
   The device's own table, for a device that does what it says: an accepted forward is in force, at the socket its
   response names, which for tcp:0 was free; an accepted kill has removed one; nothing else changes the table.
   */
  class Device {
    var table: map<string, nat>
    const answers: nat -> Reply  // its answers to the killforward calls, in order
    var calls: nat               // how many of those there were
    ghost var failures: nat      // and how many it did not carry out
    ghost var forwards: seq<(string, nat, Reply)>  // the forwards it was asked for, and its answers

    constructor (answers: nat -> Reply)
      ensures this.answers == answers && table == map[] && calls == 0 && failures == 0 && forwards == []
    {
      this.answers := answers;
      table, calls, failures, forwards := map[], 0, 0, [];
    }

    method Forward(local: string, port: nat) returns (reply: Reply)
      modifies this
      ensures reply.Response? && ResponseOK(reply.text) ==>
                && table == old(table)[ResolvedLocal(local, reply.text) := port]
                && (local == "tcp:0" ==> ResolvedLocal(local, reply.text) !in old(table))
      ensures reply.Error? || !ResponseOK(reply.text) ==> table == old(table)
      ensures failures == old(failures) && calls == old(calls) && forwards == old(forwards) + [(local, port, reply)]
    {
      var failed: bool, text: string := *, *;
      FailIsNotOkay();
      if failed {
        reply := Error;
      } else if ResponseOK(text) && local == "tcp:0" && ResolvedLocal(local, text) in table {
        reply := Response(FAIL);
      } else {
        reply := Response(text);
        if ResponseOK(text) {
          table := table[ResolvedLocal(local, text) := port];
        }
      }
      forwards := forwards + [(local, port, reply)];
    }

    method KillForward(local: string) returns (reply: Reply)
      modifies this
      ensures reply == answers(old(calls)) && calls == old(calls) + 1
      ensures table == if Carried(reply) then old(table) - {local} else old(table)
      ensures failures == (if Carried(reply) then old(failures) else old(failures) + 1) && forwards == old(forwards)
    {
      reply := answers(calls);
      calls := calls + 1;
      if Carried(reply) {
        table := table - {local};
      } else {
        failures := failures + 1;
      }
    }

    /** Among the next n killforward calls one before the last will fail. */
    ghost predicate FailsBeforeLast(n: nat)
      reads this
    {
      SomeFails(calls, n - 1)
    }

    /** One of the n calls from `first` on fails. */
    ghost predicate SomeFails(first: nat, n: int)
    {
      exists m :: first <= m < first + n && answers(m).Error?
    }

    lemma StoppedWhen(first: nat, n: nat, done: nat, failed: bool)
      requires done <= n && forall m :: first <= m < first + done - 1 ==> !answers(m).Error?
      requires if failed then 0 < done && answers(first + done - 1).Error?
               else done == n && (done > 0 ==> !answers(first + done - 1).Error?)
      ensures (done < n <==> SomeFails(first, n - 1)) && (failed <==> SomeFails(first, n))
    {
    }
  }

  /** What the client is told of the device's answer. */
  function Told(reply: Reply): string
  {
    if reply.Error? then FAIL else reply.text
  }

  predicate Carried(reply: Reply)
  {
    reply.Response? && ResponseOK(reply.text)
  }

  // ---- reverseManager

  function Ports(mappings: map<string, Mapping>): set<nat>
  {
    set local | local in mappings :: mappings[local].port
  }

  /** Mappings are filed under their own local socket, and no two share a listener. */
  ghost predicate Filed(mappings: map<string, Mapping>)
  {
    && (forall k :: k in mappings ==> mappings[k].local == k)
    && (forall j, k :: j in mappings && k in mappings && j != k ==> mappings[j].port != mappings[k].port)
  }

  lemma PortsWithout(mappings: map<string, Mapping>, key: string)
    requires Filed(mappings) && key in mappings
    ensures Filed(mappings - {key}) && Ports(mappings - {key}) == Ports(mappings) - {mappings[key].port}
    ensures mappings[key].port in Ports(mappings)
  {
    var less := mappings - {key};
    forall p | p in Ports(mappings) && p != mappings[key].port ensures p in Ports(less) {
      var local :| local in mappings && mappings[local].port == p;
      assert local in less;
    }
  }

  lemma PortsWith(mappings: map<string, Mapping>, m: Mapping)
    requires Filed(mappings) && m.local !in mappings && m.port !in Ports(mappings)
    ensures Filed(mappings[m.local := m]) && Ports(mappings[m.local := m]) == Ports(mappings) + {m.port}
  {
    var more := mappings[m.local := m];
    assert more[m.local].port == m.port;
    forall p | p in Ports(mappings) ensures p in Ports(more) {
      var local :| local in mappings && mappings[local].port == p;
      assert local in more && more[local].port == p;
    }
  }

  /** The arguments of a forward command, or none if they are malformed. */
  function ParseSpec(spec: string): Option<(bool, string, string)>
  {
    var noRebind := HasPrefix(spec, "norebind:");
    match Cut(if noRebind then spec[9..] else spec)
    case None => None
    case Some((local, remote)) =>
      if local == "" || remote == "" || HasPrefix(remote, "*") then None else Some((noRebind, local, remote))
  }

  /** strings.Cut at the first semicolon. */
  function Cut(s: string): Option<(string, string)>
  {
    if s == "" then None
    else if s[0] == ';' then Some(("", s[1..]))
    else match Cut(s[1..]) case None => None case Some((before, after)) => Some(([s[0]] + before, after))
  }

  lemma {:induction false} CutMeans(s: string)
    ensures match Cut(s)
            case Some((before, after)) => s == before + ";" + after && ';' !in before
            case None => ';' !in s
  {
    if s != "" && s[0] != ';' {
      CutMeans(s[1..]);
      HeadAndTail(s);
      if Cut(s[1..]).Some? {
        var (before, after) := Cut(s[1..]).value;
        assert s == [s[0]] + before + ";" + after;
      }
    }
  }

  lemma {:induction false} CutAtFirst(before: string, after: string)
    requires ';' !in before
    ensures Cut(before + ";" + after) == Some((before, after))
  {
    var s := before + ";" + after;
    if before != "" {
      CutAtFirst(before[1..], after);
      assert s[1..] == before[1..] + ";" + after;
      HeadAndTail(before);
    } else {
      assert s[1..] == after;
    }
  }

  /** The arguments written out: socket, semicolon, target, after norebind: or not. */
  predicate Spells(spec: string, noRebind: bool, local: string, remote: string)
  {
    && spec == (if noRebind then "norebind:" else "") + (local + ";" + remote)
    && (noRebind || !("norebind:" <= spec))
    && ';' !in local && local != "" && remote != "" && remote[0] != '*'
  }

  /** A forward command is understood exactly if it is so spelled, and then as its three arguments. */
  lemma SpecIsSpelled(spec: string, noRebind: bool, local: string, remote: string)
    ensures ParseSpec(spec) == Some((noRebind, local, remote)) <==> Spells(spec, noRebind, local, remote)
  {
    var prefixed := "norebind:" <= spec;
    var rest := if prefixed then spec[9..] else spec;
    CutMeans(rest);
    if prefixed {
      assert spec == "norebind:" + rest;
    } else {
      assert spec == "" + rest;
    }
    if Spells(spec, noRebind, local, remote) {
      assert noRebind == prefixed && rest == local + ";" + remote;
      CutAtFirst(local, remote);
    }
  }

  /** A hexadecimal digit of either case. */
  predicate IsDigit(c: char, v: nat)
  {
    v < 16 && (c == "0123456789abcdef"[v] || c == "0123456789ABCDEF"[v])
  }

  lemma DigitIsRead(c: char, v: nat)
    requires IsDigit(c, v)
    ensures HexDigit(c) == Some(v)
  {
  }

  lemma FourDigits(d: string, a: nat, b: nat, c: nat, e: nat)
    requires |d| == 4 && IsDigit(d[0], a) && IsDigit(d[1], b) && IsDigit(d[2], c) && IsDigit(d[3], e)
    ensures HexNumber(d) == Some(0x1000 * a + 0x100 * b + 0x10 * c + e)
  {
    DigitIsRead(d[0], a);
    DigitIsRead(d[1], b);
    DigitIsRead(d[2], c);
    DigitIsRead(d[3], e);
    assert d[..3][..2] == d[..2] && d[..2][..1] == d[..1] && d[..1][..0] == "";
    assert HexNumber(d[..1]) == Some(a);
    assert HexNumber(d[..2]) == Some(0x10 * a + b);
    assert HexNumber(d[..3]) == Some(0x100 * a + 0x10 * b + c);
  }

  /** For tcp:0 the device answers OKAY, four hexadecimal digits and as many characters: the port it has picked. */
  lemma PickedPort(d: string, a: nat, b: nat, c: nat, e: nat, port: string, more: string)
    requires |d| == 4 && IsDigit(d[0], a) && IsDigit(d[1], b) && IsDigit(d[2], c) && IsDigit(d[3], e)
    requires |port| == 0x1000 * a + 0x100 * b + 0x10 * c + e
    ensures ResolvedLocal("tcp:0", "OKAY" + d + port + more) == "tcp:" + port
  {
    var response := "OKAY" + d + port + more;
    FourDigits(d, a, b, c, e);
    assert response[4..8] == d && response[8..8 + |port|] == port;
  }

  /** The socket that an answer of the device has mapped. */
  function Answered(local: string, response: string): set<string>
  {
    if ResponseOK(response) then {ResolvedLocal(local, response)} else {}
  }

  /** The table after an attempt to forward local to remote through the listener, answered with `response`. */
  function Rebound(before: map<string, Mapping>, local: string, remote: string, port: nat, response: string)
    : map<string, Mapping>
  {
    if ResponseOK(response) then
      var resolved := ResolvedLocal(local, response);
      (before - {local})[resolved := Mapping(resolved, remote, port)]
    else before - {local}
  }

  class ReverseManager {
    const device: Device
    var mappings: map<string, Mapping>
    var open: set<nat>            // ports of the listeners that are open
    ghost var loose: set<nat>     // open listeners without a mapping
    ghost var extra: set<string>  // sockets the device forwards without a mapping
    ghost var stops: nat          // killforward-alls that a failing call stopped before their last mapping
    ghost var unbound: nat        // listeners that could not be bound

    constructor (device: Device)
      requires device.table == map[] && device.failures == 0
      ensures this.device == device && Valid() && mappings == map[] && open == {} && loose == {} && stops == 0
      ensures unbound == 0
    {
      this.device := device;
      mappings, open, loose, extra, stops, unbound := map[], {}, {}, {}, 0, 0;
    }

    /** The open listeners are those of the table, and the loose ones. */
    ghost predicate Listening()
      reads this
    {
      open == Ports(mappings) + loose && Ports(mappings) !! loose
    }

    /** The device forwards each mapping to its listener, and besides them exactly the extra sockets. */
    ghost predicate Agrees()
      reads this, device
    {
      && (forall k :: k in mappings ==> k in device.table && device.table[k] == mappings[k].port && k !in extra)
      && (forall k :: k in device.table ==> k in mappings || k in extra)
      && (forall k :: k in extra ==> k in device.table)
    }

    ghost predicate Valid()
      reads this, device
    {
      Filed(mappings) && Listening() && Agrees() && (device.failures == 0 ==> extra == {})
    }

    /** A listener on a free port. */
    method Listen() returns (port: Option<nat>)
      requires Valid()
      modifies this`open, this`loose, this`unbound
      ensures Valid() && loose == old(loose) + (if port.Some? then {port.value} else {})
      ensures port.Some? ==> port.value !in old(open)
      ensures port.None? ==> open == old(open)
      ensures unbound == old(unbound) + if port.None? then 1 else 0
    {
      var p: nat := *;
      if p in open {
        unbound := unbound + 1;
        return None;
      }
      open, loose := open + {p}, loose + {p};
      return Some(p);
    }

    method CloseListener(port: nat)
      requires Valid() && port in loose
      modifies this`open, this`loose
      ensures Valid() && loose == old(loose) - {port} && open == old(open) - {port}
    {
      open, loose := open - {port}, loose - {port};
    }

    /** The part of Valid that holds also while mappings taken out are not revoked yet. */
    ghost predicate Consistent()
      reads this, device
    {
      Filed(mappings) && Listening() && Agrees()
    }

    /** Takes a mapping out of the table; its listener and the device's forward are now without one. */
    method TakeOut(key: string) returns (mapping: Mapping)
      requires Consistent() && key in mappings
      modifies this`mappings, this`loose, this`extra
      ensures Consistent() && mapping == old(mappings)[key] && mapping.local == key && mappings == old(mappings) - {key}
      ensures loose == old(loose) + {mapping.port} && mapping.port !in old(loose) && extra == old(extra) + {key}
    {
      PortsWithout(mappings, key);
      mapping := mappings[key];
      mappings := mappings - {key};
      loose, extra := loose + {mapping.port}, extra + {key};
    }

    /** Closes the listener of a mapping taken out and has the device kill its forward. */
    method Revoke(mapping: Mapping) returns (reply: Reply)
      requires Consistent() && mapping.port in loose && mapping.local !in mappings
      modifies this`open, this`loose, this`extra, device
      ensures Consistent() && loose == old(loose) - {mapping.port} && open == old(open) - {mapping.port}
      ensures device.forwards == old(device.forwards)
      ensures extra == if Carried(reply) then old(extra) - {mapping.local} else old(extra)
      ensures device.failures == old(device.failures) + if Carried(reply) then 0 else 1
      ensures reply == device.answers(old(device.calls)) && device.calls == old(device.calls) + 1
      ensures device.table == if Carried(reply) then old(device.table) - {mapping.local} else old(device.table)
    {
      open, loose := open - {mapping.port}, loose - {mapping.port};
      reply := device.KillForward(mapping.local);
      if Carried(reply) {
        extra := extra - {mapping.local};
      }
    }

    method Evict(key: string)
      requires Consistent()
      modifies this`mappings, this`open, this`loose, this`extra, device
      ensures Consistent() && mappings == old(mappings) - {key} && loose == old(loose) && open <= old(open)
      ensures device.failures >= old(device.failures) && (device.failures == 0 ==> extra <= old(extra))
      ensures device.forwards == old(device.forwards)
      ensures key !in old(mappings) ==> open == old(open) && device.table == old(device.table) && extra == old(extra)
      ensures key in old(mappings) ==>
                extra == old(extra) + if Carried(device.answers(old(device.calls))) then {} else {key}
    {
      if key in mappings {
        var mapping := TakeOut(key);
        var _ := Revoke(mapping);
      }
    }

    predicate Refused(spec: string)
      reads this
    {
      match ParseSpec(spec) case None => true case Some((noRebind, local, _)) => noRebind && local in mappings
    }

    /**
     Asks the device exactly if the command is well formed, may rebind and a listener can be bound; stores a mapping
     exactly when the device has accepted the forward, under the socket that it resolved to, with a new listener, and in
     place of what was mapped there. Otherwise the new listener is closed, and without a question nothing changes.
     */
    twostate predicate Forwarded(spec: string, response: string, asked: bool)
      reads this, device
    {
      if asked then
        && !old(Refused(spec)) && |device.forwards| == |old(device.forwards)| + 1
        && var (_, local, remote) := ParseSpec(spec).value;
           var (socket, port, reply) := device.forwards[|old(device.forwards)|];
           && device.forwards == old(device.forwards) + [(local, port, reply)]
           && port !in old(open) && response == Told(reply)
           && mappings == Rebound(old(mappings), local, remote, port, response)
           && extra == old(extra + Unrevoked(local)) - Answered(local, response)
      else
        && (old(Refused(spec)) || unbound > old(unbound))
        && response == FAIL && mappings == old(mappings) && open == old(open) && extra == old(extra)
        && device.table == old(device.table) && device.forwards == old(device.forwards)
        && device.calls == old(device.calls)
    }

    method Forward(spec: string) returns (response: string, ghost asked: bool)
      requires Valid()
      modifies this`mappings, this`open, this`loose, this`extra, this`unbound, device
      ensures Valid() && loose == old(loose) && device.failures >= old(device.failures)
      ensures Forwarded(spec, response, asked)
    {
      var parsed := ParseSpec(spec);
      if parsed.None? {
        return FAIL, false;
      }
      var (noRebind, local, remote) := parsed.value;
      var listener := Listen();
      if listener.None? {
        return FAIL, false;
      }
      var port := listener.value;
      if local in mappings && noRebind {
        CloseListener(port);
        return FAIL, false;
      }
      response := Rebind(local, remote, port);
      asked := true;
    }

    /** What evicting this socket would leave behind on the device. */
    ghost function Unrevoked(local: string): set<string>
      reads this, device
    {
      if local in mappings && !Carried(device.answers(device.calls)) then {local} else {}
    }

    /** The part of Forward that talks to the device, with the listener bound. */
    method Rebind(local: string, remote: string, port: nat) returns (response: string)
      requires Valid() && port in loose
      modifies this`mappings, this`open, this`loose, this`extra, device
      ensures Valid() && loose == old(loose) - {port} && device.failures >= old(device.failures)
      ensures |device.forwards| == |old(device.forwards)| + 1
      ensures var reply := device.forwards[|old(device.forwards)|].2;
              device.forwards == old(device.forwards) + [(local, port, reply)] && response == Told(reply)
      ensures mappings == Rebound(old(mappings), local, remote, port, response)
      ensures extra == old(extra + Unrevoked(local)) - Answered(local, response)
    {
      FailIsNotOkay();
      Evict(local);
      var reply := device.Forward(local, port);
      response := Told(reply);
      if !Carried(reply) {
        CloseListener(port);
        return;
      }
      var resolved := ResolvedLocal(local, response);
      extra := extra + {resolved};
      Accept(local, resolved, remote, port);
    }

    /** The device forwards the resolved socket to the new listener: so does the table, from now on. */
    method Accept(local: string, resolved: string, remote: string, port: nat)
      requires Consistent() && resolved !in mappings && port in loose
      requires resolved in device.table && device.table[resolved] == port
      requires device.failures == 0 ==> extra <= {resolved}
      modifies this`mappings, this`open, this`loose, this`extra, device
      ensures Valid() && loose == old(loose) - {port} && device.failures >= old(device.failures)
      ensures mappings == old(mappings)[resolved := Mapping(resolved, remote, port)] && extra == old(extra) - {resolved}
      ensures device.forwards == old(device.forwards)
    {
      if resolved != local {
        Evict(resolved);
      }
      Store(resolved, remote, port);
    }

    method Store(resolved: string, remote: string, port: nat)
      requires Consistent() && resolved !in mappings && port in loose
      requires resolved in device.table && device.table[resolved] == port
      modifies this`mappings, this`loose, this`extra
      ensures Consistent() && mappings == old(mappings)[resolved := Mapping(resolved, remote, port)]
      ensures loose == old(loose) - {port} && extra == old(extra) - {resolved}
    {
      PortsWith(mappings, Mapping(resolved, remote, port));
      mappings := mappings[resolved := Mapping(resolved, remote, port)];
      loose, extra := loose - {port}, extra - {resolved};
    }

    /** Removes one mapping, its listener and, if the device carries it out, the device's forward. */
    twostate predicate Killed(local: string, response: string)
      reads this, device
    {
      && device.forwards == old(device.forwards)
      && if local == "" || local !in old(mappings) then
           && response == FAIL && mappings == old(mappings) && open == old(open) && extra == old(extra)
           && device.table == old(device.table) && device.calls == old(device.calls)
         else
           && response == Told(device.answers(old(device.calls))) && device.calls == old(device.calls) + 1
           && mappings == old(mappings) - {local} && open == old(open) - {old(mappings)[local].port}
           && extra == old(extra + Unrevoked(local)) && (ResponseOK(response) ==> local !in device.table)
    }

    method Kill(local: string) returns (response: string)
      requires Valid()
      modifies this`mappings, this`open, this`loose, this`extra, device
      ensures Valid() && loose == old(loose) && device.failures >= old(device.failures)
      ensures Killed(local, response)
    {
      FailIsNotOkay();
      if local == "" || local !in mappings {
        return FAIL;
      }
      var mapping := TakeOut(local);
      var reply := Revoke(mapping);
      return Told(reply);
    }

    /** Takes out any mapping, half-way through a drain. */
    method DrainNext(drained: seq<Mapping>, ghost all: set<string>, ghost before: set<nat>, ghost kept: set<string>)
      returns (more: seq<Mapping>)
      requires Consistent() && mappings != map[] && Draining(drained, mappings.Keys, all, loose, before, extra, kept)
      modifies this`mappings, this`loose, this`extra
      ensures Consistent() && Draining(more, mappings.Keys, all, loose, before, extra, kept)
      ensures |mappings.Keys| < |old(mappings.Keys)|
    {
      assert mappings.Keys != {};
      var key :| key in mappings.Keys;
      ghost var keys, had, sockets := mappings.Keys, loose, extra;
      var mapping := TakeOut(key);
      DrainingNext(drained, keys, all, had, before, sockets, kept, mapping);
      more := drained + [mapping];
    }

    /** Empties the table; the mappings are the caller's to revoke. */
    method DrainMappings() returns (drained: seq<Mapping>)
      requires Valid()
      modifies this`mappings, this`loose, this`extra
      ensures Consistent() && mappings == map[] && Locals(drained) == old(mappings).Keys && Distinct(drained)
      ensures |drained| == |old(mappings).Keys|
      ensures loose == old(loose) + PortsOf(drained) && old(loose) !! PortsOf(drained)
      ensures extra == old(extra) + Locals(drained) && old(extra) !! Locals(drained)
    {
      drained := [];
      ghost var all, before, kept := mappings.Keys, loose, extra;
      while mappings != map[]
        invariant Consistent() && Draining(drained, mappings.Keys, all, loose, before, extra, kept)
        decreases |mappings.Keys|
      {
        drained := DrainNext(drained, all, before, kept);
      }
    }

    /**
     The mappings drained and not revoked yet are those from i on; their listeners are loose, beyond `before`, and if
     all kills since there were so many failures have been carried out their sockets are extra, beyond `kept`.
     */
    ghost predicate ToRevoke(all: seq<Mapping>, i: nat, before: set<nat>, failures: nat, kept: set<string>)
      reads this, device
    {
      && i <= |all| && mappings == map[] && Distinct(all[i..])
      && loose == before + PortsOf(all[i..]) && before !! PortsOf(all[i..])
      && device.failures >= failures && (device.failures == failures ==> extra == kept + Locals(all[i..]))
      && (forall k :: 0 <= k < |all| ==> all[k].local !in kept)
    }

    method RevokeNext(all: seq<Mapping>, i: nat, ghost before: set<nat>, ghost failures: nat, ghost kept: set<string>)
      returns (reply: Reply)
      requires Consistent() && ToRevoke(all, i, before, failures, kept) && i < |all|
      modifies this`open, this`loose, this`extra, device
      ensures Consistent() && ToRevoke(all, i + 1, before, failures, kept)
      ensures device.failures >= old(device.failures) && (reply.Error? ==> device.failures > failures)
      ensures reply == device.answers(old(device.calls)) && device.calls == old(device.calls) + 1
      ensures device.forwards == old(device.forwards)
    {
      DistinctTail(all, i);
      reply := Revoke(all[i]);
    }

    /** The loop of killforward-all: up to the first failing call, or through. */
    method RevokeUntilError(all: seq<Mapping>, ghost before: set<nat>, ghost failures: nat, ghost kept: set<string>)
      returns (failed: bool, ghost done: nat)
      requires Consistent() && ToRevoke(all, 0, before, failures, kept)
      modifies this`open, this`loose, this`extra, device
      ensures Consistent() && ToRevoke(all, done, before, failures, kept) && device.failures >= old(device.failures)
      ensures forall m :: old(device.calls) <= m < old(device.calls) + done - 1 ==> !device.answers(m).Error?
      ensures if failed then 0 < done && device.answers(old(device.calls) + done - 1).Error? &&
                device.failures > failures
              else done == |all| && (done > 0 ==> !device.answers(old(device.calls) + done - 1).Error?)
      ensures device.forwards == old(device.forwards)
    {
      ghost var first := device.calls;
      done := 0;
      for i := 0 to |all|
        invariant Consistent() && ToRevoke(all, i, before, failures, kept) && done == i
        invariant device.failures >= old(device.failures) && device.calls == first + i
        invariant forall m :: first <= m < first + i ==> !device.answers(m).Error?
        invariant device.forwards == old(device.forwards)
      {
        var reply := RevokeNext(all, i, before, failures, kept);
        done := i + 1;
        if reply.Error? {
          failed := true;
          return;
        }
      }
      failed := false;
    }

    /** The drained mappings are revoked, up to the first failing call. */
    method KillDrained(all: seq<Mapping>, ghost before: set<nat>, ghost kept: set<string>)
      returns (failed: bool, ghost done: nat)
      requires Consistent() && mappings == map[] && Distinct(all) && (device.failures == 0 ==> kept == {})
      requires loose == before + PortsOf(all) && before !! PortsOf(all) && extra == kept + Locals(all)
      requires kept !! Locals(all)
      modifies this`open, this`loose, this`extra, device
      ensures Valid() && mappings == map[] && device.failures >= old(device.failures)
      ensures done <= |all| && loose == before + PortsOf(all[done..]) && (loose == before <==> done == |all|)
      ensures device.failures == old(device.failures) ==> extra == kept
      ensures done < |all| <==> device.SomeFails(old(device.calls), |all| - 1)
      ensures failed <==> device.SomeFails(old(device.calls), |all|)
      ensures device.forwards == old(device.forwards)
    {
      assert all[0..] == all;
      assert forall k :: 0 <= k < |all| ==> all[k].local in Locals(all);
      failed, done := RevokeUntilError(all, before, device.failures, kept);
      LeakedWhen(all, done, before, old(device.failures), kept);
      device.StoppedWhen(old(device.calls), |all|, done, failed);
    }

    /**
     killforward-all. The device's refusals do not stop it, but a failing call does, and then the listeners of the
     mappings it had not come to stay open without a mapping: listeners leak if and only if a call before the one for
     the last mapping fails.
     */
    method KillAll() returns (response: string, ghost drained: seq<Mapping>, ghost done: nat)
      requires Valid()
      modifies this, device
      ensures Valid() && mappings == map[] && Locals(drained) == old(mappings).Keys && |drained| == |old(mappings).Keys|
      ensures device.failures >= old(device.failures)
      ensures done <= |drained| && loose == old(loose) + PortsOf(drained[done..])
      ensures device.failures == old(device.failures) ==> extra == old(extra)
      ensures loose == old(loose) <==> !old(device.FailsBeforeLast(|mappings.Keys|))
      ensures stops == old(stops) + if old(device.FailsBeforeLast(|mappings.Keys|)) then 1 else 0
      ensures ResponseOK(response) <==> !device.SomeFails(old(device.calls), |old(mappings).Keys|)
      ensures device.forwards == old(device.forwards)
    {
      FailIsNotOkay();
      var all := DrainMappings();
      var failed;
      failed, done := KillDrained(all, old(loose), old(extra));
      drained := all;
      stops := stops + if done < |all| then 1 else 0;
      response := if failed then FAIL else "OKAY";
    }

    lemma LeakedWhen(all: seq<Mapping>, done: nat, before: set<nat>, failures: nat, kept: set<string>)
      requires ToRevoke(all, done, before, failures, kept)
      ensures loose == before <==> done == |all|
    {
      if done < |all| {
        assert all[done] == all[done..][0] && all[done].port in PortsOf(all[done..]);
      }
    }

    /** When the session ends: every listener of the table is closed, whatever the device answers. */
    method CloseAll()
      requires Valid()
      modifies this`mappings, this`open, this`loose, this`extra, device
      ensures Valid() && mappings == map[] && open == loose == old(loose)
      ensures device.failures == old(device.failures) ==> extra == old(extra)
    {
      var all := DrainMappings();
      assert all[0..] == all;
      for i := 0 to |all|
        invariant Consistent() && ToRevoke(all, i, old(loose), old(device.failures), old(extra))
      {
        var _ := RevokeNext(all, i, old(loose), old(device.failures), old(extra));
      }
    }

    /**
     What one command of the reverse service does, with the answer to it and, for a forward, whether the device was
     asked.
     */
    twostate predicate Handled(command: string, response: string, asked: bool)
      reads this, device
    {
      if command == "killforward-all" then
        && mappings == map[] && device.forwards == old(device.forwards)
        && (ResponseOK(response) <==> !device.SomeFails(old(device.calls), |old(mappings).Keys|))
      else if HasPrefix(command, "killforward:") then Killed(command[12..], response)
      else if HasPrefix(command, "forward:") then Forwarded(command[8..], response, asked)
      else
        && (command != "list-forward" ==> response == FAIL) && mappings == old(mappings) && open == old(open)
        && extra == old(extra) && device.table == old(device.table)
        && device.forwards == old(device.forwards) && device.calls == old(device.calls)
    }

    /** One command of the device's reverse service. */
    method Handle(command: string) returns (response: string, ghost asked: bool)
      requires Valid()
      modifies this, device
      ensures Valid() && device.failures >= old(device.failures) && Handled(command, response, asked)
      ensures old(loose) <= loose && stops >= old(stops) && (loose == old(loose) <==> stops == old(stops))
      ensures command != "killforward-all" ==> stops == old(stops)
      ensures Leaves(old(mappings), mappings, command, response, asked)
    {
      asked := false;
      if command == "list-forward" {
        assert "list-forward"[0] != "killforward:"[0] && "list-forward"[0] != "forward:"[0];
        response := "";
      } else if command == "killforward-all" {
        ghost var drained, done;
        response, drained, done := KillAll();
      } else if HasPrefix(command, "killforward:") {
        response := Kill(command[12..]);
      } else if HasPrefix(command, "forward:") {
        response, asked := Forward(command[8..]);
      } else {
        response := FAIL;
      }
    }

    /**
     Any sequence of commands, one at a time. The mappings, each with its remote, are what the commands and the answers
     to them make of those before. The open listeners are those of the table if and only if no killforward-all was
     stopped by a failing call before its last mapping. The device forwards every mapping to its listener, and its own
     table is the same table if and only if no socket is left extra: one that was taken out without the device carrying
     out its killforward, and has not been mapped again since.
     */
    method HandleAll(commands: seq<string>) returns (ghost answers: seq<(string, bool)>)
      requires Valid() && loose == {}
      modifies this, device
      ensures Valid() && forall k :: k in mappings ==> mappings[k].local == k
      ensures |answers| == |commands| && Remotes(mappings) == AfterAll(Remotes(old(mappings)), commands, answers)
      ensures open == Ports(mappings) <==> stops == old(stops)
      ensures "killforward-all" !in commands ==> stops == old(stops)
      ensures forall k :: k in mappings ==> k in device.table && device.table[k] == mappings[k].port
      ensures device.table.Keys == mappings.Keys <==> extra == {}
      ensures device.failures == 0 ==> extra == {}
    {
      answers := [];
      ghost var before := mappings;
      for i := 0 to |commands|
        invariant Valid() && stops >= old(stops) && (loose == {} <==> stops == old(stops))
        invariant "killforward-all" !in commands ==> stops == old(stops)
        invariant |answers| == i && Remotes(mappings) == AfterAll(Remotes(before), commands[..i], answers)
      {
        var response;
        ghost var asked, was := false, mappings;
        response, asked := Handle(commands[i]);
        OneMoreCommand(was, mappings, commands[i], response, asked);
        AfterOneMore(Remotes(before), commands[..i], answers, commands[i], (response, asked));
        assert commands[..i + 1] == commands[..i] + [commands[i]];
        answers := answers + [(response, asked)];
      }
      assert commands[..|commands|] == commands;
    }
  }

  /** The sockets mapped, each with its remote. */
  function Remotes(mappings: map<string, Mapping>): map<string, string>
  {
    map local | local in mappings :: mappings[local].remote
  }

  /** What a command with its answer does to them; a forward that the device was not asked for does nothing. */
  function After(m: map<string, string>, command: string, answer: (string, bool)): map<string, string>
  {
    if command == "killforward-all" then map[]
    else if HasPrefix(command, "killforward:") then
      if command[12..] == "" then m else m - {command[12..]}
    else if HasPrefix(command, "forward:") && answer.1 && ParseSpec(command[8..]).Some? then
      var (_, local, remote) := ParseSpec(command[8..]).value;
      if ResponseOK(answer.0) then (m - {local})[ResolvedLocal(local, answer.0) := remote] else m - {local}
    else m
  }

  ghost function AfterAll(m: map<string, string>, commands: seq<string>,
                          answers: seq<(string, bool)>): map<string, string>
    requires |answers| == |commands|
  {
    if commands == [] then m
    else
      var last := |commands| - 1;
      After(AfterAll(m, commands[..last], answers[..last]), commands[last], answers[last])
  }

  lemma AfterOneMore(m: map<string, string>, commands: seq<string>, answers: seq<(string, bool)>, command: string,
                     answer: (string, bool))
    requires |answers| == |commands|
    ensures AfterAll(m, commands + [command], answers + [answer]) ==
              After(AfterAll(m, commands, answers), command, answer)
  {
    assert (commands + [command])[..|commands|] == commands && (answers + [answer])[..|answers|] == answers;
  }

  /** The table that a command leaves, by the kind of command. */
  ghost predicate Leaves(was: map<string, Mapping>, now: map<string, Mapping>, command: string, response: string,
                         asked: bool)
  {
    if command == "killforward-all" then now == map[]
    else if HasPrefix(command, "killforward:") then
      now == if command[12..] == "" then was else was - {command[12..]}
    else if HasPrefix(command, "forward:") && asked then
      ParseSpec(command[8..]).Some? &&
      var (_, local, remote) := ParseSpec(command[8..]).value;
      exists port :: now == Rebound(was, local, remote, port, response)
    else now == was
  }

  lemma OneMoreCommand(was: map<string, Mapping>, now: map<string, Mapping>, command: string, response: string,
                       asked: bool)
    requires Leaves(was, now, command, response, asked)
    ensures Remotes(now) == After(Remotes(was), command, (response, asked))
  {
  }

  function FirstCallFails(call: nat): Reply
  {
    if call == 0 then Error else Response("OKAY")
  }

  /** A manager with mappings for two sockets, as two accepted forwards leave it. */
  method TwoMappings(device: Device, a: string, b: string) returns (manager: ReverseManager)
    requires a != b && device.table == map[] && device.failures == 0
    modifies device
    ensures fresh(manager) && manager.device == device && manager.Valid() && manager.loose == {}
    ensures manager.mappings.Keys == {a, b} && device.calls == old(device.calls)
  {
    manager := new ReverseManager(device);
    device.table := map[a := 1, b := 2];
    manager.mappings := map[a := Mapping(a, "tcp:8", 1), b := Mapping(b, "tcp:9", 2)];
    manager.open := {1, 2};
    TwoPorts(manager.mappings, a, b);
  }

  lemma TwoPorts(mappings: map<string, Mapping>, a: string, b: string)
    requires mappings.Keys == {a, b} && mappings[a].port == 1 && mappings[b].port == 2
    ensures Ports(mappings) == {1, 2}
  {
    assert a in mappings && b in mappings;
  }

  /** Two mappings, and a device to which the first killforward fails: one listener stays open for no mapping. */
  method LeakAfterFailedCall(a: string, b: string) returns (manager: ReverseManager)
    requires a != b
    ensures fresh(manager) && manager.mappings == map[] && manager.open != {}
  {
    var device := new Device(FirstCallFails);
    manager := TwoMappings(device, a, b);
    assert |manager.mappings.Keys| == 2 && device.answers(0).Error?;
    var _, _, _ := manager.KillAll();
    assert manager.loose != {};
  }

  function Locals(ms: seq<Mapping>): (keys: set<string>)
  {
    set k | 0 <= k < |ms| :: ms[k].local
  }

  function PortsOf(ms: seq<Mapping>): set<nat>
  {
    set k | 0 <= k < |ms| :: ms[k].port
  }

  ghost predicate Distinct(ms: seq<Mapping>)
  {
    forall j, k :: 0 <= j < k < |ms| ==> ms[j].port != ms[k].port && ms[j].local != ms[k].local
  }

  lemma DistinctSnoc(ms: seq<Mapping>, m: Mapping)
    requires Distinct(ms) && m.port !in PortsOf(ms) && m.local !in Locals(ms)
    ensures Distinct(ms + [m]) && Locals(ms + [m]) == Locals(ms) + {m.local}
    ensures PortsOf(ms + [m]) == PortsOf(ms) + {m.port}
  {
    var more := ms + [m];
    assert more[|ms|] == m && forall k :: 0 <= k < |ms| ==> more[k] == ms[k];
  }

  /**
   Half-way through a drain: the drained mappings are those whose keys are gone, their listeners loose, sockets
   extra.
   */
  ghost predicate Draining(drained: seq<Mapping>, keys: set<string>, all: set<string>, loose: set<nat>,
                           before: set<nat>,
                           extra: set<string>, kept: set<string>)
  {
    && Distinct(drained) && keys <= all && Locals(drained) == all - keys && |drained| + |keys| == |all|
    && loose == before + PortsOf(drained) && before !! PortsOf(drained)
    && extra == kept + Locals(drained) && kept !! all
  }

  lemma DrainingNext(drained: seq<Mapping>, keys: set<string>, all: set<string>, loose: set<nat>, before: set<nat>,
                     extra: set<string>, kept: set<string>, m: Mapping)
    requires Draining(drained, keys, all, loose, before, extra, kept) && m.local in keys && m.port !in loose
    ensures Draining(drained + [m], keys - {m.local}, all, loose + {m.port}, before, extra + {m.local}, kept)
  {
    DistinctSnoc(drained, m);
  }

  lemma DistinctTail(ms: seq<Mapping>, i: nat)
    requires i < |ms| && Distinct(ms[i..])
    ensures Distinct(ms[i + 1..]) && ms[i].port in PortsOf(ms[i..]) && ms[i].local in Locals(ms[i..])
    ensures Locals(ms[i + 1..]) == Locals(ms[i..]) - {ms[i].local}
    ensures PortsOf(ms[i + 1..]) == PortsOf(ms[i..]) - {ms[i].port}
  {
    var here, next := ms[i..], ms[i + 1..];
    assert here[0] == ms[i] && forall k :: 0 <= k < |next| ==> next[k] == here[k + 1];
    assert forall k :: 0 < k < |here| ==> here[k] == next[k - 1];
  }
}
