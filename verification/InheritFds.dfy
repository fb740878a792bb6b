/**
 Which descriptor goes to which bridge in a restart (src/internal/daemon/upgrade_unix.go): the file list and its
 printed form in the old process, parsing and pairing in the new one.
 */
module InheritFds {
  import opened Bytes
  import opened BridgeTable

  // ---- strconv.Itoa, strconv.Atoi, strings.Join, strings.Split, strings.TrimSpace

  const MAX_INT := 0x7fff_ffff_ffff_ffff

  predicate IsDigit(c: char)
  {
    '0' <= c <= '9'
  }

  function Itoa(n: nat): string
  {
    if n < 10 then ['0' + n as char] else Itoa(n / 10) + ['0' + (n % 10) as char]
  }

  function Number(s: string): Option<nat>
  {
    if s == "" || !IsDigit(s[|s| - 1]) then None
    else
      var d := (s[|s| - 1] - '0') as nat;
      if |s| == 1 then Some(d)
      else match Number(s[..|s| - 1]) case None => None case Some(v) => Some(10 * v + d)
  }

  function Atoi(s: string): Option<int>
  {
    var signed := s != "" && (s[0] == '-' || s[0] == '+');
    match Number(if signed then s[1..] else s)
    case None => None
    case Some(v) =>
      var m: int := v;
      var n := if signed && s[0] == '-' then -m else m;
      if -MAX_INT - 1 <= n <= MAX_INT then Some(n) else None
  }

  function Join(parts: seq<string>): string
  {
    if parts == [] then "" else if |parts| == 1 then parts[0] else parts[0] + "," + Join(parts[1..])
  }

  function Split(s: string): (parts: seq<string>)
    ensures parts != []
  {
    if s == "" then [""]
    else
      var rest := Split(s[1..]);
      if s[0] == ',' then [""] + rest else [[s[0]] + rest[0]] + rest[1..]
  }

  predicate IsSpace(c: char)
  {
    || '\t' <= c <= '\r' || c == ' ' || c as int == 0x85 || c as int == 0xa0 || c as int == 0x1680
    || 0x2000 <= c as int <= 0x200a || c as int == 0x2028 || c as int == 0x2029 || c as int == 0x202f
    || c as int == 0x205f || c as int == 0x3000
  }

  function TrimSpace(s: string): string
  {
    if s == "" then s
    else if IsSpace(s[0]) then TrimSpace(s[1..])
    else if IsSpace(s[|s| - 1]) then TrimSpace(s[..|s| - 1])
    else s
  }

  // ---- The old process

  /** An open file of the old process: a listener of its own, its control socket, or the ready pipe. */
  datatype File = Socket(listener: nat) | ControlSocket | ReadyPipe

  function Files(snap: seq<(BridgeRestore, nat)>): seq<File>
  {
    [ControlSocket] + seq(|snap|, i requires 0 <= i < |snap| => Socket(snap[i].1)) + [ReadyPipe]
  }

  function Numbers(n: nat): seq<string>
  {
    seq(n, i requires 0 <= i < n => Itoa(3 + i))
  }

  /** handoff's file list. */
  method CollectFiles(snap: seq<(BridgeRestore, nat)>) returns (files: seq<File>)
    ensures files == Files(snap)
  {
    files := [ControlSocket];
    for i := 0 to |snap|
      invariant files == [ControlSocket] + seq(i, k requires 0 <= k < i => Socket(snap[k].1))
    {
      files := files + [Socket(snap[i].1)];
    }
    files := files + [ReadyPipe];
  }

  /** handoff's --inherit argument for that list. */
  method FdSpec(files: seq<File>) returns (spec: string)
    ensures spec == Join(Numbers(|files|))
  {
    var fdSpec := new string[|files|];
    for i := 0 to |files|
      invariant forall k :: 0 <= k < i ==> fdSpec[k] == Itoa(3 + k)
    {
      fdSpec[i] := Itoa(3 + i);
    }
    assert fdSpec[..] == Numbers(|files|);
    spec := Join(fdSpec[..]);
  }

  method RestoreStates(snap: seq<(BridgeRestore, nat)>) returns (out: seq<BridgeRestore>)
    ensures |out| == |snap| && forall i :: 0 <= i < |snap| ==> out[i] == snap[i].0
  {
    out := [];
    for i := 0 to |snap|
      invariant |out| == i && forall k :: 0 <= k < i ==> out[k] == snap[k].0
    {
      out := out + [snap[i].0];
    }
  }

  /** os/exec: the child's descriptor 3 + i is the parent's i-th extra file. */
  function FileOf(files: seq<File>, fd: int): Option<File>
  {
    if 3 <= fd < 3 + |files| then Some(files[fd - 3]) else None
  }

  // ---- The new process

  function ParsePart(part: string): Option<int>
  {
    match Atoi(TrimSpace(part)) case Some(fd) => if fd < 3 then None else Some(fd) case None => None
  }

  predicate Parses(spec: string, fds: seq<int>)
  {
    var parts := Split(spec);
    |parts| >= 2 && |fds| == |parts| && forall i :: 0 <= i < |parts| ==> ParsePart(parts[i]) == Some(fds[i])
  }

  /** Accepts exactly the lists of at least two numbers from 3 up, and returns them in order. */
  method ParseInheritFds(spec: string) returns (r: Option<seq<int>>)
    ensures r.Some? ==> Parses(spec, r.value)
    ensures r.None? ==> forall fds :: !Parses(spec, fds)
  {
    var parts := Split(spec);
    if |parts| < 2 {
      return None;
    }
    var fds: seq<int> := [];
    for i := 0 to |parts|
      invariant |fds| == i && forall k :: 0 <= k < i ==> ParsePart(parts[k]) == Some(fds[k])
    {
      var fd := Atoi(TrimSpace(parts[i]));
      if fd.None? || fd.value < 3 {
        assert ParsePart(parts[i]).None?;
        return None;
      }
      fds := fds + [fd.value];
    }
    return Some(fds);
  }

  predicate Listens(files: seq<File>, fd: int)
  {
    FileOf(files, fd).Some? && !FileOf(files, fd).value.ReadyPipe?
  }

  /** Adopt accepts a record with a new, non-empty serial whose backend and server can be built. */
  predicate Adoptable(state: seq<BridgeRestore>, i: nat, usable: set<BridgeRestore>)
    requires i < |state|
  {
    state[i].serial != "" && state[i] in usable && forall k :: 0 <= k < i ==> state[k].serial != state[i].serial
  }

  predicate BridgeRestorable(files: seq<File>, fds: seq<int>, state: seq<BridgeRestore>, usable: set<BridgeRestore>,
                             i: nat)
    requires i < |state| && |fds| == |state| + 2
  {
    Listens(files, fds[1 + i]) && Adoptable(state, i, usable)
  }

  predicate Restorable(files: seq<File>, fds: seq<int>, state: seq<BridgeRestore>, usable: set<BridgeRestore>)
  {
    && |fds| == |state| + 2 && Listens(files, fds[0])
    && forall i :: 0 <= i < |state| ==> BridgeRestorable(files, fds, state, usable, i)
  }

  /** The bridges adopted so far, each with its socket: always record i with descriptor 1 + i of the list. */
  predicate Paired(files: seq<File>, fds: seq<int>, state: seq<BridgeRestore>, adopted: seq<(BridgeRestore, File)>)
  {
    && |adopted| <= |state| && |adopted| + 2 <= |fds|
    && forall i :: 0 <= i < |adopted| ==> adopted[i].0 == state[i] && Some(adopted[i].1) == FileOf(files, fds[1 + i])
  }

  /** Takes over all bridges and then the control socket, or fails without the control socket. */
  method RestoreInherited(files: seq<File>, fds: seq<int>, state: seq<BridgeRestore>, usable: set<BridgeRestore>)
    returns (control: Option<File>, adopted: seq<(BridgeRestore, File)>)
    requires |fds| >= 2
    ensures control.Some? <==> Restorable(files, fds, state, usable)
    ensures Paired(files, fds, state, adopted)
    ensures control.Some? ==> |adopted| == |state| && control == FileOf(files, fds[0])
  {
    control, adopted := None, [];
    var tcpFds := fds[1..|fds| - 1];
    if |tcpFds| != |state| {
      return;
    }
    var serials: set<string> := {};
    for i := 0 to |tcpFds|
      invariant |adopted| == i && Paired(files, fds, state, adopted)
      invariant forall serial :: serial in serials <==> exists k :: 0 <= k < i && state[k].serial == serial
      invariant forall k :: 0 <= k < i ==> BridgeRestorable(files, fds, state, usable, k)
    {
      var file := FileOf(files, tcpFds[i]);
      if file.None? || file.value.ReadyPipe? || state[i].serial == "" || state[i].serial in serials ||
        state[i] !in usable {
        assert !BridgeRestorable(files, fds, state, usable, i);
        return;
      }
      serials := serials + {state[i].serial};
      adopted := adopted + [(state[i], file.value)];
    }
    if Listens(files, fds[0]) {
      control := FileOf(files, fds[0]);
    }
  }

  // ---- Round trip and pairing

  predicate Digits(s: string)
  {
    s != "" && forall c :: c in s ==> IsDigit(c)
  }

  lemma {:induction false} ItoaDigits(n: nat)
    ensures Digits(Itoa(n)) && Number(Itoa(n)) == Some(n)
  {
    if n >= 10 {
      ItoaDigits(n / 10);
      var s := Itoa(n);
      assert s[..|s| - 1] == Itoa(n / 10);
    }
  }

  lemma PrintedPart(n: nat)
    requires 3 <= n <= MAX_INT
    ensures ParsePart(Itoa(n)) == Some(n)
  {
    ItoaDigits(n);
    var s := Itoa(n);
    assert IsDigit(s[0]) && IsDigit(s[|s| - 1]);
  }

  lemma {:induction false} SplitFirst(a: string, rest: string)
    requires ',' !in a
    ensures Split(a) == [a] && Split(a + "," + rest) == [a] + Split(rest)
  {
    var s := a + "," + rest;
    if a == "" {
      assert s[1..] == rest;
    } else {
      SplitFirst(a[1..], rest);
      assert s[1..] == a[1..] + "," + rest;
      assert [a[0]] + a[1..] == a;
    }
  }

  lemma {:induction false} SplitJoin(parts: seq<string>)
    requires parts != [] && forall part :: part in parts ==> ',' !in part
    ensures Split(Join(parts)) == parts
  {
    SplitFirst(parts[0], Join(parts[1..]));
    if |parts| > 1 {
      SplitJoin(parts[1..]);
    }
  }

  /** Printing n descriptors and parsing them gives back 3, 4, ... and nothing else. */
  lemma ParsePrinted(n: nat, fds: seq<int>)
    requires 2 <= n && 2 + n <= MAX_INT
    ensures Parses(Join(Numbers(n)), fds) <==> |fds| == n && forall i :: 0 <= i < n ==> fds[i] == 3 + i
  {
    forall i | 0 <= i < n ensures ',' !in Numbers(n)[i] && ParsePart(Numbers(n)[i]) == Some(3 + i) {
      ItoaDigits(3 + i);
      PrintedPart(3 + i);
    }
    SplitJoin(Numbers(n));
  }

  /** The i-th parsed descriptor is the i-th file handed over. */
  lemma InheritedInOrder(snap: seq<(BridgeRestore, nat)>, fds: seq<int>, i: nat)
    requires |snap| + 4 <= MAX_INT && Parses(Join(Numbers(|Files(snap)|)), fds) && i < |snap| + 2
    ensures |fds| == |snap| + 2
    ensures FileOf(Files(snap), fds[i]) ==
              Some(if i == 0 then ControlSocket else if i == |snap| + 1 then ReadyPipe else Socket(snap[i - 1].1))
  {
    ParsePrinted(|Files(snap)|, fds);
  }

  lemma OneKeepsItsListener(snap: seq<(BridgeRestore, nat)>, fds: seq<int>, state: seq<BridgeRestore>,
                            adopted: seq<(BridgeRestore, File)>, i: nat)
    requires |snap| + 4 <= MAX_INT && Parses(Join(Numbers(|Files(snap)|)), fds)
    requires |state| == |snap| && forall i :: 0 <= i < |snap| ==> state[i] == snap[i].0
    requires Paired(Files(snap), fds, state, adopted) && i < |adopted|
    ensures adopted[i] == (snap[i].0, Socket(snap[i].1))
  {
    InheritedInOrder(snap, fds, i + 1);
    assert adopted[i].0 == state[i] && Some(adopted[i].1) == FileOf(Files(snap), fds[1 + i]);
  }

  /**
   For any snapshot, in any order: of the printed list the new process takes the first descriptor for the control
   socket and the last for the ready pipe, and adopts each record with that bridge's own listener.
   */
  lemma EverySerialKeepsItsListener(snap: seq<(BridgeRestore, nat)>, fds: seq<int>, state: seq<BridgeRestore>,
                                    adopted: seq<(BridgeRestore, File)>)
    requires |snap| + 4 <= MAX_INT && Parses(Join(Numbers(|Files(snap)|)), fds)
    requires |state| == |snap| && forall i :: 0 <= i < |snap| ==> state[i] == snap[i].0
    requires Paired(Files(snap), fds, state, adopted)
    ensures |fds| == |snap| + 2 && FileOf(Files(snap), fds[0]) == Some(ControlSocket)
    ensures FileOf(Files(snap), fds[|fds| - 1]) == Some(ReadyPipe)
    ensures forall i :: 0 <= i < |adopted| ==> adopted[i] == (snap[i].0, Socket(snap[i].1))
  {
    InheritedInOrder(snap, fds, 0);
    InheritedInOrder(snap, fds, |snap| + 1);
    forall i | 0 <= i < |adopted| ensures adopted[i] == (snap[i].0, Socket(snap[i].1)) {
      OneKeepsItsListener(snap, fds, state, adopted, i);
    }
  }

  /** And it adopts them all: the serials of a snapshot differ, so only an unusable record can make it fail. */
  lemma RestorableUnlessUnusable(snap: seq<(BridgeRestore, nat)>, fds: seq<int>, state: seq<BridgeRestore>,
                                 usable: set<BridgeRestore>)
    requires |snap| + 4 <= MAX_INT && Parses(Join(Numbers(|Files(snap)|)), fds)
    requires |state| == |snap| && forall i :: 0 <= i < |snap| ==> state[i] == snap[i].0
    requires forall j, k :: 0 <= j < k < |snap| ==> snap[j].0.serial != snap[k].0.serial
    requires forall i :: 0 <= i < |snap| ==> snap[i].0.serial != ""
    ensures Restorable(Files(snap), fds, state, usable) <==> forall i :: 0 <= i < |state| ==> state[i] in usable
  {
    InheritedInOrder(snap, fds, 0);
    forall i: nat | i < |state| ensures BridgeRestorable(Files(snap), fds, state, usable, i) <==> state[i] in usable {
      InheritedInOrder(snap, fds, i + 1);
    }
  }
}
