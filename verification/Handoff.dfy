/**
 The graceful restart (src/internal/daemon/upgrade_unix.go, server.go, handler.go): two processes, their file
 descriptor tables, the ready pipe, and a failure or a crash possible at every step. A listening socket is open
 as long as some descriptor of a living process refers to it.
 */
module Handoff {
  datatype Socket = Control | Bridge(id: nat)

  /** What a process's descriptor refers to; Copy is a dup in the old process, the inherited one in the new. */
  datatype Fd = Listener(socket: Socket) | Copy(socket: Socket) | ReadEnd | WriteEnd

  datatype OldPc =
    | Running           // no handoff in progress
    | Copying(n: nat)   // handoff: n listeners duplicated so far
    | Piped             // the ready pipe exists
    | Launched          // the new process has been started
    | Waiting           // reading the ready pipe
    | Killing           // gave up: the new process is being killed and waited for
    | Confirmed         // read the ready byte: handedOff is set
    | Exiting           // the root context is cancelled
    | Gone

  datatype NewPc = Absent | Restoring(n: nat) | Ready | Dead

  datatype State = State(
    prior: OldPc,
    next: NewPc,
    oldFds: set<Fd>,
    newFds: set<Fd>,
    snap: seq<nat>,       // the bridges of the last snapshot, in its order
    dropped: set<nat>,    // bridges reaped, exited or stopped by then or since, by either process
    pipe: bool,           // the ready byte is in the pipe
    restarting: bool,
    handedOff: bool,
    crashed: bool,        // the old process died without exiting
    erred: bool,          // a new process that was ready has ended by an error return
    unlink: bool,         // closing the control listener would remove the socket file
    path: bool)           // the socket file exists

  const INITIAL :=
    State(Running, Absent, {Listener(Control)}, {}, [], {}, false, false, false, false, false, true, true)

  /** The order of the files handed over: control first. */
  function FileAt(snap: seq<nat>, k: nat): Socket
    requires k <= |snap|
  {
    if k == 0 then Control else Bridge(snap[k - 1])
  }

  /** The order in which they are restored: control last. */
  function RestoredAt(snap: seq<nat>, k: nat): Socket
    requires k <= |snap|
  {
    if k == |snap| then Control else Bridge(snap[k])
  }

  predicate Handed(snap: seq<nat>, socket: Socket)
  {
    socket.Control? || socket.id in snap
  }

  function Inherited(snap: seq<nat>): set<Fd>
  {
    (set b | b in snap :: Copy(Bridge(b))) + {Copy(Control), WriteEnd}
  }

  predicate Distinct(snap: seq<nat>)
  {
    forall j, k :: 0 <= j < k < |snap| ==> snap[j] != snap[k]
  }

  /** The bridges of a snapshot whose listeners are closed already. */
  function Closed(fds: set<Fd>, snap: seq<nat>): set<nat>
  {
    set b | b in snap && Listener(Bridge(b)) !in fds
  }

  datatype Action =
    | Restart(snap: seq<nat>)  // handleRestart wins its compare-and-swap; the table is snapshotted
    | Duplicate                // the next listener is duplicated
    | MakePipe
    | Launch
    | CloseWriteEnd
    | Abort                    // any failing step before the new process is started
    | ReadByte
    | ReadEof
    | TimeOut                  // or setting the deadline fails
    | Reap                     // kill and wait are through: serve again
    | Cancel
    | OldCloses(fd: Fd)        // a cancelled bridge, the accept loop or handoff's deferred closes
    | OldExits
    | OldCrashes
    | StartBridge(id: nat)     // also one that passed its check before the restart
    | DropBridge(id: nat)      // the reaper, an exit of Serve, or a Stop, in the old process
    | Restore                  // the next socket becomes a listener of the new process, its bridge is adopted
    | Announce(ok: bool)       // the ready byte is written; a failing write is only logged
    | NewDrops(id: nat)
    | NewStarts(id: nat)       // a Start the new process serves once it is ready: a socket of its own
    | NewDies                  // killed, crashed, or out of an error return before it is ready
    | NewErrs                  // a ready process leaves by an error return, and removes the socket file

  predicate NewUp(s: State)
  {
    s.next.Restoring? || s.next.Ready?
  }

  predicate OldUp(s: State)
  {
    !s.prior.Exiting? && !s.prior.Gone?
  }

  predicate Enabled(s: State, a: Action)
  {
    match a
    case Restart(snap) => s.prior.Running? && !s.restarting && Distinct(snap)
    case Duplicate => s.prior.Copying? && s.prior.n <= |s.snap| && Listener(FileAt(s.snap, s.prior.n)) in s.oldFds
    case MakePipe => s.prior.Copying? && s.prior.n == |s.snap| + 1
    case Launch => s.prior.Piped?
    case CloseWriteEnd => s.prior.Launched?
    case Abort => s.prior.Copying? || s.prior.Piped?
    case ReadByte => s.prior.Waiting? && s.pipe
    case ReadEof => s.prior.Waiting? && !s.pipe && WriteEnd !in s.oldFds + s.newFds
    case TimeOut => s.prior.Waiting?
    case Reap => s.prior.Killing? && s.next.Dead?
    case Cancel => s.prior.Confirmed?
    case OldCloses(fd) => s.prior.Exiting? && fd in s.oldFds
    case OldExits => s.prior.Exiting?
    case OldCrashes => !s.prior.Gone?
    case StartBridge(id) => OldUp(s) && Listener(Bridge(id)) !in s.oldFds
    case DropBridge(id) => OldUp(s) && Listener(Bridge(id)) in s.oldFds
    case Restore => s.next.Restoring? && s.next.n <= |s.snap|
    case Announce(_) => s.next.Restoring? && s.next.n == |s.snap| + 1
    case NewDrops(id) => NewUp(s) && Listener(Bridge(id)) in s.newFds
    case NewStarts(id) =>
      s.next.Ready? && !Handed(s.snap, Bridge(id)) && Listener(Bridge(id)) !in s.oldFds + s.newFds
    case NewDies => NewUp(s)
    case NewErrs => s.next.Ready?
  }

  function Listeners(fds: set<Fd>): set<Fd>
  {
    set fd | fd in fds && fd.Listener?
  }

  function Apply(s: State, a: Action): State
    requires Enabled(s, a)
  {
    match a
    case Restart(snap) =>
      s.(prior := Copying(0), snap := snap, dropped := Closed(s.oldFds, snap), restarting := true, unlink := false)
    case Duplicate => s.(prior := Copying(s.prior.n + 1), oldFds := s.oldFds + {Copy(FileAt(s.snap, s.prior.n))})
    case MakePipe => s.(prior := Piped, oldFds := s.oldFds + {ReadEnd, WriteEnd}, pipe := false)
    case Launch => s.(prior := Launched, next := Restoring(0), newFds := Inherited(s.snap))
    case CloseWriteEnd => s.(prior := Waiting, oldFds := s.oldFds - {WriteEnd})
    case Abort => s.(prior := Running, oldFds := Listeners(s.oldFds), restarting := false)
    case ReadByte => s.(prior := Confirmed, pipe := false, handedOff := true)
    case ReadEof => s.(prior := Killing)
    case TimeOut => s.(prior := Killing)
    case Reap => s.(prior := Running, oldFds := Listeners(s.oldFds), restarting := false)
    case Cancel => s.(prior := Exiting)
    case OldCloses(fd) => s.(oldFds := s.oldFds - {fd}, path := s.path && !(fd == Listener(Control) && s.unlink))
    case OldExits => s.(prior := Gone, oldFds := {}, path := s.path && s.handedOff && !s.unlink)
    case OldCrashes => s.(prior := Gone, oldFds := {}, crashed := true)
    case StartBridge(id) => s.(oldFds := s.oldFds + {Listener(Bridge(id))})
    case DropBridge(id) => s.(oldFds := s.oldFds - {Listener(Bridge(id))}, dropped := s.dropped + {id})
    case Restore =>
      var socket := RestoredAt(s.snap, s.next.n);
      s.(next := Restoring(s.next.n + 1), newFds := s.newFds - {Copy(socket)} + {Listener(socket)})
    case Announce(ok) =>
      s.(next := Ready, newFds := s.newFds - {WriteEnd}, pipe := s.pipe || (ok && ReadEnd in s.oldFds))
    case NewDrops(id) => s.(newFds := s.newFds - {Listener(Bridge(id))}, dropped := s.dropped + {id})
    case NewStarts(id) => s.(newFds := s.newFds + {Listener(Bridge(id))})
    case NewDies => s.(next := Dead, newFds := {})
    case NewErrs => s.(next := Dead, newFds := {}, path := false, erred := true)
  }

  ghost predicate Next(s: State, t: State)
  {
    exists a :: Enabled(s, a) && t == Apply(s, a)
  }

  ghost predicate Run(run: seq<State>)
  {
    && run != [] && run[0] == INITIAL
    && forall j, k {:trigger Next(run[j], run[k])} :: 0 <= j && k == j + 1 < |run| ==> Next(run[j], run[k])
  }

  // ---- The invariant

  predicate Lost(s: State, socket: Socket)
  {
    socket.Bridge? && socket.id in s.dropped
  }

  /** What the old process holds, given how far it is. */
  ghost predicate OldTable(s: State)
  {
    && (s.prior.Gone? ==> s.oldFds == {})
    && (OldUp(s) ==> Listener(Control) in s.oldFds)
    && (OldUp(s) && !s.prior.Running? ==> forall b :: b in s.snap ==> Listener(Bridge(b)) in s.oldFds || b in s.dropped)
    && (s.prior.Running? ==> s.oldFds == Listeners(s.oldFds))
    && (s.prior.Copying? ==> s.prior.n <= |s.snap| + 1)
  }

  predicate Restored(s: State, k: nat)
    requires k <= |s.snap|
  {
    var socket := RestoredAt(s.snap, k);
    if s.next.Ready? || (s.next.Restoring? && k < s.next.n) then
      Copy(socket) !in s.newFds && (Listener(socket) in s.newFds || Lost(s, socket))
    else if s.next.Restoring? then Copy(socket) in s.newFds
    else true
  }

  /**
   What the new process holds, given how far it is: what was handed over and, once it is ready, listeners of its own.
   */
  ghost predicate NewTable(s: State)
  {
    && (!NewUp(s) ==> s.newFds == {})
    && (s.next.Restoring? ==> s.next.n <= |s.snap| + 1)
    && Distinct(s.snap)
    && (forall k :: 0 <= k <= |s.snap| ==> Restored(s, k))
    && (forall fd :: fd in s.newFds ==>
          match fd
          case ReadEnd => false
          case WriteEnd => s.next.Restoring?
          case Copy(socket) => Handed(s.snap, socket)
          case Listener(socket) => s.next.Ready? || Handed(s.snap, socket))
  }

  /** How the two processes' progress is tied. */
  predicate Phases(s: State)
  {
    && (s.prior.Running? || s.prior.Copying? || s.prior.Piped? ==> !NewUp(s))
    && (s.prior.Launched? || s.prior.Waiting? || s.prior.Killing? ==> !s.next.Absent?)
    && (s.prior.Piped? ==> !s.pipe)
    && (s.pipe && (s.prior.Launched? || s.prior.Waiting?) ==> s.next.Ready? || s.next.Dead?)
    && (s.prior.Confirmed? || s.prior.Exiting? ==> s.next.Ready? || s.next.Dead?)
    && (s.prior.Gone? && !s.crashed ==> s.next.Ready? || s.next.Dead?)
    && (s.crashed ==> s.prior.Gone?)
    && (OldUp(s) ==> s.restarting == !s.prior.Running?)
    && (!s.crashed ==> s.handedOff == (s.prior.Confirmed? || s.prior.Exiting? || s.prior.Gone?))
    && (s.handedOff ==> s.next.Ready? || s.next.Dead?)
    && s.path == !s.erred && (!s.prior.Running? && !s.prior.Gone? ==> !s.unlink)
  }

  ghost predicate Inv(s: State)
  {
    OldTable(s) && NewTable(s) && Phases(s)
  }

  lemma StepKeepsOldTable(s: State, a: Action)
    requires Inv(s) && Enabled(s, a)
    ensures OldTable(Apply(s, a))
  {
  }

  lemma StepKeepsPhases(s: State, a: Action)
    requires Inv(s) && Enabled(s, a)
    ensures Phases(Apply(s, a))
  {
  }

  lemma RestoreKeepsRestored(s: State, k: nat)
    requires Inv(s) && Enabled(s, Restore) && k <= |s.snap|
    ensures Restored(Apply(s, Restore), k)
  {
    assert Restored(s, k) && Restored(s, s.next.n);
    assert k != s.next.n ==> RestoredAt(s.snap, k) != RestoredAt(s.snap, s.next.n);
  }

  lemma StepKeepsRestored(s: State, a: Action, k: nat)
    requires NewTable(s) && Phases(s) && Enabled(s, a) && !a.Restore? && k <= |Apply(s, a).snap|
    ensures Restored(Apply(s, a), k)
  {
    if a.Restart? || a.Launch? {
    } else {
      assert Restored(s, k);
    }
  }

  lemma StepKeepsNewTable(s: State, a: Action)
    requires Inv(s) && Enabled(s, a)
    ensures NewTable(Apply(s, a))
  {
    var t := Apply(s, a);
    forall k | 0 <= k <= |t.snap| ensures Restored(t, k) {
      if a.Restore? {
        RestoreKeepsRestored(s, k);
      } else {
        StepKeepsRestored(s, a, k);
      }
    }
  }

  // ---- Whole runs

  lemma StepOf(run: seq<State>, k: nat) returns (a: Action)
    requires Run(run) && 0 < k < |run|
    ensures Enabled(run[k - 1], a) && run[k] == Apply(run[k - 1], a)
  {
    assert Next(run[k - 1], run[k]);
    a :| Enabled(run[k - 1], a) && run[k] == Apply(run[k - 1], a);
  }

  lemma {:induction false} RunKeepsInv(run: seq<State>, k: nat)
    requires Run(run) && k < |run|
    ensures Inv(run[k])
  {
    if k > 0 {
      RunKeepsInv(run, k - 1);
      var a := StepOf(run, k);
      StepKeepsOldTable(run[k - 1], a);
      StepKeepsNewTable(run[k - 1], a);
      StepKeepsPhases(run[k - 1], a);
    }
  }

  ghost predicate Reachable(s: State)
  {
    exists run :: Run(run) && run[|run| - 1] == s
  }

  /** A socket is open while some living process has a descriptor for it. */
  predicate Open(s: State, socket: Socket)
  {
    Listener(socket) in s.oldFds + s.newFds || Copy(socket) in s.oldFds + s.newFds
  }

  lemma IndexOf(snap: seq<nat>, socket: Socket) returns (k: nat)
    requires Handed(snap, socket)
    ensures k <= |snap| && RestoredAt(snap, k) == socket
  {
    if socket.Control? {
      k := |snap|;
    } else {
      k :| 0 <= k < |snap| && snap[k] == socket.id;
    }
  }

  lemma ReadyHoldsAll(s: State, socket: Socket)
    requires Inv(s) && s.next.Ready? && Handed(s.snap, socket)
    ensures Copy(socket) !in s.newFds && (Lost(s, socket) || Listener(socket) in s.newFds)
  {
    var j := IndexOf(s.snap, socket);
    assert Restored(s, j);
  }

  // ---- When the old process lets go

  /** The new process listens on every socket handed over whose bridge was not dropped. */
  ghost predicate HoldsAll(s: State)
  {
    s.next.Ready? && forall socket :: Handed(s.snap, socket) && !Lost(s, socket) ==> Listener(socket) in s.newFds
  }

  /** And on nothing else. */
  ghost predicate HoldsExactly(s: State)
  {
    HoldsAll(s) && forall fd :: fd in s.newFds ==> fd.Listener? && Handed(s.snap, fd.socket)
  }

  /** At the moment it announces itself it has started no bridge of its own. */
  lemma AnnouncedHoldsExactly(s: State, ok: bool)
    requires Inv(s) && Enabled(s, Announce(ok)) && Inv(Apply(s, Announce(ok)))
    ensures HoldsExactly(Apply(s, Announce(ok)))
  {
    var t := Apply(s, Announce(ok));
    ReadyMeansAll(t);
    forall fd | fd in t.newFds ensures fd.Listener? && Handed(t.snap, fd.socket) {
      if fd.Copy? {
        ReadyHoldsAll(t, fd.socket);
      }
    }
  }

  lemma ReadyMeansAll(s: State)
    requires Inv(s) && s.next.Ready?
    ensures HoldsAll(s)
  {
    forall socket | Handed(s.snap, socket) ensures Lost(s, socket) || Listener(socket) in s.newFds {
      ReadyHoldsAll(s, socket);
    }
  }

  /**
   In state j the new process is ready and holds what it was handed, and from there to state k it is that process,
   alive or dead.
   */
  ghost predicate TakenOver(run: seq<State>, j: nat, k: nat)
  {
    && j <= k < |run| && HoldsExactly(run[j])
    && forall m :: j <= m <= k ==> SameHandoff(run[j], run[m])
  }

  ghost predicate AfterTakeover(run: seq<State>, k: nat)
  {
    exists j: nat :: TakenOver(run, j, k)
  }

  predicate SameHandoff(s: State, t: State)
  {
    t.snap == s.snap && (t.next.Ready? || t.next.Dead?)
  }

  /** The new process has told the old one that it is ready. */
  predicate Told(s: State)
  {
    s.handedOff || (s.pipe && (s.prior.Launched? || s.prior.Waiting?))
  }

  /** Told by the ready byte only, and then the handoff is past its last change of course. */
  lemma ToldByAnnouncing(s: State, a: Action)
    requires Inv(s) && Enabled(s, a) && Told(Apply(s, a))
    ensures if Told(s) then (s.next.Ready? || s.next.Dead?) && SameHandoff(s, Apply(s, a)) else a.Announce?
  {
  }

  lemma TakenOverNow(run: seq<State>, k: nat)
    requires k < |run| && HoldsExactly(run[k])
    ensures TakenOver(run, k, k)
  {
  }

  lemma TakenOverStill(run: seq<State>, j: nat, k: nat)
    requires 0 < k < |run| && TakenOver(run, j, k - 1) && SameHandoff(run[k - 1], run[k])
    ensures TakenOver(run, j, k)
  {
    assert SameHandoff(run[j], run[k - 1]);
  }

  lemma {:induction false} ToldAfterTakeover(run: seq<State>, k: nat) returns (j: nat)
    requires Run(run) && k < |run| && Told(run[k])
    ensures TakenOver(run, j, k)
  {
    if k > 0 {
      var a := StepOf(run, k);
      RunKeepsInv(run, k - 1);
      ToldByAnnouncing(run[k - 1], a);
      if Told(run[k - 1]) {
        j := ToldAfterTakeover(run, k - 1);
        TakenOverStill(run, j, k);
      } else {
        RunKeepsInv(run, k);
        AnnouncedHoldsExactly(run[k - 1], a.ok);
        TakenOverNow(run, k);
        j := k;
      }
    }
  }

  /**
   The old process lets go only after the new one has taken over: whenever handedOff is set, at the latest then or at
   an earlier moment of the same handoff the new process was ready and listened on every socket handed over and no
   other.
   */
  lemma HandedOffAfterTakeover(run: seq<State>, k: nat)
    requires Run(run) && k < |run|
    requires (run[k].handedOff || run[k].prior.Exiting? || (run[k].prior.Gone? && !run[k].crashed))
    ensures run[k].handedOff && AfterTakeover(run, k)
  {
    RunKeepsInv(run, k);
    var j := ToldAfterTakeover(run, k);
  }

  /** A process that is ready dies between states m - 1 and m. */
  predicate DiesAt(run: seq<State>, m: nat)
  {
    0 < m < |run| && run[m - 1].next.Ready? && run[m].next.Dead?
  }

  ghost predicate DiedSince(run: seq<State>, j: nat, k: nat)
  {
    exists m: nat :: j < m <= k && DiesAt(run, m)
  }

  /** Within one handoff a ready process is dead if and only if it died since. */
  lemma {:induction false} DeadSince(run: seq<State>, j: nat, k: nat)
    requires Run(run) && TakenOver(run, j, k)
    ensures run[k].next.Dead? <==> DiedSince(run, j, k)
  {
    assert SameHandoff(run[j], run[k]);
    if k > j {
      assert TakenOver(run, j, k - 1);
      DeadSince(run, j, k - 1);
      assert SameHandoff(run[j], run[k - 1]);
      var a := StepOf(run, k);
      if run[k - 1].next.Dead? {
        DeadStaysDead(run[k - 1], a);
      } else {
        assert run[k].next.Dead? ==> DiesAt(run, k);
      }
    }
  }

  lemma DeadStaysDead(s: State, a: Action)
    requires Enabled(s, a) && s.next.Dead? && (Apply(s, a).next.Ready? || Apply(s, a).next.Dead?)
    ensures Apply(s, a).next.Dead?
  {
    assert !a.Launch? ==> Apply(s, a).next == s.next;
  }

  /**
   After the old process has exited in good order, a socket handed over is lost if and only if the new process died
   after it had taken over; that death is not one the old process could know of when it let go.
   */
  lemma LostOnlyByLateDeath(run: seq<State>, k: nat, socket: Socket)
    requires Run(run) && k < |run| && run[k].prior.Gone? && run[k].handedOff
    requires Handed(run[k].snap, socket) && !Lost(run[k], socket)
    ensures exists j: nat :: TakenOver(run, j, k) && (!Open(run[k], socket) <==> DiedSince(run, j, k))
  {
    RunKeepsInv(run, k);
    var j := ToldAfterTakeover(run, k);
    DeadSince(run, j, k);
    assert SameHandoff(run[j], run[k]);
    if run[k].next.Ready? {
      ReadyHoldsAll(run[k], socket);
    }
  }

  /**
   Once a handoff is under way, a handed-over socket whose bridge was not dropped is open exactly while the old
   process has not begun to exit or the new process lives. (While the old process is closing its own, they may outlive
   the new process.)
   */
  lemma SocketsStayOpen(run: seq<State>, k: nat, socket: Socket)
    requires Run(run) && k < |run|
    requires Handed(run[k].snap, socket) && !Lost(run[k], socket) && !run[k].prior.Running?
    ensures OldUp(run[k]) || NewUp(run[k]) ==> Open(run[k], socket)
    ensures !run[k].prior.Exiting? ==> (Open(run[k], socket) <==> OldUp(run[k]) || NewUp(run[k]))
    ensures !OldUp(run[k]) && !run[k].crashed ==> AfterTakeover(run, k)
  {
    var s := run[k];
    RunKeepsInv(run, k);
    if OldUp(s) {
      assert Listener(socket) in s.oldFds;
    } else if NewUp(s) {
      var j := IndexOf(s.snap, socket);
      assert Restored(s, j);
    }
    if !OldUp(s) && !s.crashed {
      HandedOffAfterTakeover(run, k);
    }
  }

  // ---- What the new process holds afterwards

  /** Between states j and k the new process has started a bridge with this socket. */
  ghost predicate StartedSince(run: seq<State>, j: nat, k: nat, socket: Socket)
  {
    exists m: nat :: j < m <= k < |run| && StartsAt(run, m, socket)
  }

  predicate StartsAt(run: seq<State>, m: nat, socket: Socket)
  {
    && 0 < m < |run| && socket.Bridge? && Enabled(run[m - 1], NewStarts(socket.id))
    && run[m] == Apply(run[m - 1], NewStarts(socket.id))
  }

  /** The new process listens on all it took over, and otherwise only on what it has started since. */
  ghost predicate HoldsSince(run: seq<State>, j: nat, k: nat)
  {
    && k < |run| && HoldsAll(run[k])
    && forall fd :: fd in run[k].newFds ==>
         fd.Listener? && (Handed(run[k].snap, fd.socket) || StartedSince(run, j, k, fd.socket))
  }

  /** A ready process gets descriptors by starting bridges only. */
  lemma ReadyGrows(s: State, a: Action, fd: Fd)
    requires Enabled(s, a) && s.next.Ready? && Apply(s, a).next.Ready? && fd in Apply(s, a).newFds && fd !in s.newFds
    ensures a.NewStarts? && fd == Listener(Bridge(a.id))
  {
  }

  lemma {:induction false} HeldSinceTakeover(run: seq<State>, j: nat, k: nat)
    requires Run(run) && TakenOver(run, j, k) && run[k].next.Ready?
    ensures HoldsSince(run, j, k)
  {
    RunKeepsInv(run, k);
    ReadyMeansAll(run[k]);
    assert SameHandoff(run[j], run[k]);
    if k > j {
      assert TakenOver(run, j, k - 1);
      assert SameHandoff(run[j], run[k - 1]);
      var a := StepOf(run, k);
      if run[k - 1].next.Dead? {
        DeadStaysDead(run[k - 1], a);
      }
      HeldSinceTakeover(run, j, k - 1);
      forall fd | fd in run[k].newFds
        ensures fd.Listener? && (Handed(run[k].snap, fd.socket) || StartedSince(run, j, k, fd.socket))
      {
        if fd !in run[k - 1].newFds {
          ReadyGrows(run[k - 1], a, fd);
          assert StartsAt(run, k, fd.socket);
        } else if !Handed(run[k].snap, fd.socket) {
          StartedEarlier(run, j, k, fd.socket);
        }
      }
    }
  }

  lemma StartedEarlier(run: seq<State>, j: nat, k: nat, socket: Socket)
    requires 0 < k < |run| && StartedSince(run, j, k - 1, socket)
    ensures StartedSince(run, j, k, socket)
  {
    var m: nat :| j < m <= k - 1 && StartsAt(run, m, socket);
    assert StartsAt(run, m, socket);
  }

  /**
   A handoff ends in one of two ways. Back to serving: no new process lives, nothing of the handoff is left in
   either table, requests are accepted again. Or gone, after the new process has taken over every socket handed over and
   nothing else: unless it has died since, it still listens on them, on bridges it has started itself since, and on
   nothing else, and unless it has ended by an error return the socket file is in place.
   */
  lemma AllOrNothing(run: seq<State>, k: nat)
    requires Run(run) && k < |run| && !run[k].crashed
    ensures var s := run[k];
            && (OldUp(s) ==> s.restarting == !s.prior.Running?)
            && (s.prior.Running? ==> !NewUp(s) && !s.handedOff && s.newFds == {} && s.oldFds == Listeners(s.oldFds))
            && (s.prior.Gone? ==>
                  exists j: nat :: TakenOver(run, j, k) && (DiedSince(run, j, k) || HoldsSince(run, j, k)))
    ensures run[k].path == !run[k].erred
  {
    RunKeepsInv(run, k);
    if run[k].prior.Gone? {
      var j := ToldAfterTakeover(run, k);
      DeadSince(run, j, k);
      assert SameHandoff(run[j], run[k]);
      if run[k].next.Ready? {
        HeldSinceTakeover(run, j, k);
      }
    }
  }

  /** One more step makes a longer run. */
  lemma RunSnoc(run: seq<State>, a: Action)
    requires Run(run) && Enabled(run[|run| - 1], a)
    ensures Run(run + [Apply(run[|run| - 1], a)])
  {
    var longer := run + [Apply(run[|run| - 1], a)];
    assert Next(run[|run| - 1], longer[|run|]);
  }

  lemma Take(s: State, a: Action) returns (t: State)
    requires Reachable(s) && Enabled(s, a)
    ensures Reachable(t) && t == Apply(s, a)
  {
    var run :| Run(run) && run[|run| - 1] == s;
    t := Apply(s, a);
    RunSnoc(run, a);
    assert (run + [t])[|run + [t]| - 1] == t;
  }

  lemma RestartWithoutBridges() returns (s: State)
    ensures Reachable(s) && s.prior.Launched? && s.snap == [] && s.next == Restoring(0) && !s.pipe && !s.crashed
    ensures s.oldFds == {Listener(Control), Copy(Control), ReadEnd, WriteEnd} && s.newFds == {Copy(Control), WriteEnd}
  {
    s := INITIAL;
    assert Run([s]) && [s][|[s]| - 1] == s;
    s := Take(s, Restart([]));
    s := Take(s, Duplicate);
    s := Take(s, MakePipe);
    s := Take(s, Launch);
  }

  lemma ReadyWithoutBridges() returns (s: State)
    ensures Reachable(s) && s.prior.Waiting? && s.next.Ready? && s.pipe && !s.crashed && s.snap == []
    ensures s.oldFds == {Listener(Control), Copy(Control), ReadEnd} && s.newFds == {Listener(Control)}
  {
    s := RestartWithoutBridges();
    s := Take(s, CloseWriteEnd);
    s := Take(s, Restore);
    s := Take(s, Announce(true));
  }

  /**
   The ready byte is a promise the new process may not live to keep: here it dies after writing it, the old one
   reads it and exits, and no descriptor of the control socket is left.
   */
  lemma LateDeathLosesControl() returns (s: State)
    ensures Reachable(s) && !s.crashed && s.handedOff && !Open(s, Control)
  {
    s := ReadyWithoutBridges();
    s := Take(s, NewDies);
    s := Take(s, ReadByte);
    s := Take(s, Cancel);
    s := Take(s, OldExits);
  }

  /** The new process may listen on more than it was handed: a bridge it has started before the old one is gone. */
  lemma StartsBeforeOldIsGone() returns (s: State)
    ensures Reachable(s) && !s.crashed && s.prior.Gone? && s.next.Ready? && !HoldsExactly(s)
  {
    s := ReadyWithoutBridges();
    s := Take(s, NewStarts(0));
    s := Take(s, ReadByte);
    s := Take(s, Cancel);
    s := Take(s, OldExits);
    assert Listener(Bridge(0)) in s.newFds;
  }

  lemma ReadyTooLate() returns (s: State)
    ensures Reachable(s) && s.prior.Killing? && s.next.Ready? && !s.crashed && Listener(Control) in s.oldFds
  {
    s := RestartWithoutBridges();
    s := Take(s, CloseWriteEnd);
    s := Take(s, TimeOut);
    s := Take(s, Restore);
    s := Take(s, Announce(true));
  }

  /**
   The old daemon serves on without its socket file: the deadline has passed, and before the new process is killed it
   becomes ready and ends by an error return.
   */
  lemma ErrorReturnRemovesSocketFile() returns (s: State)
    ensures Reachable(s) && !s.crashed && s.prior.Running? && Open(s, Control) && !s.path
  {
    s := ReadyTooLate();
    s := Take(s, NewErrs);
    s := Take(s, Reap);
  }
}
