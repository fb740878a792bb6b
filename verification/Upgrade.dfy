/**
 The old daemon's side of a restart as its code (src/internal/daemon/upgrade_unix.go, server.go, handler.go): the two
 flags, the gate in front of the requests, and handoff statement by statement, with the new process, the reaper and
 late requests acting in between.
 */
module Upgrade {
  import opened Bytes
  import opened Handoff

  datatype Op = Version | Start | Stop | Restart | List | Status | Shutdown | Unknown

  datatype Gate = Served | Busy | Accepted | Rejected

  /** What goes on beside the handoff goroutine. */
  predicate ByOthers(a: Action)
  {
    || a.Restore? || a.Announce? || a.NewDrops? || a.NewStarts? || a.NewDies? || a.NewErrs?
    || a.StartBridge? || a.DropBridge?
  }

  /** The handoff goroutine's own part of the state. */
  predicate SameOwn(s: State, t: State)
  {
    && t.prior == s.prior && t.snap == s.snap && t.restarting == s.restarting && t.handedOff == s.handedOff
    && t.crashed == s.crashed
  }

  lemma OthersKeepOwn(s: State, a: Action)
    requires ByOthers(a) && Enabled(s, a)
    ensures SameOwn(s, Apply(s, a))
  {
  }

  predicate ReadsByte(s: State, t: State)
  {
    Enabled(s, ReadByte) && t == Apply(s, ReadByte)
  }

  /**
   How the fallible steps of a handoff turn out: finding the executable, duplicating the k-th listener, the pipe, the
   restore state, starting the process, setting the deadline, and whether the deadline passes before the read returns.
   */
  datatype Luck = Luck(path: bool, duplicate: nat -> bool, pipe: bool, state: bool, start: bool, deadline: bool,
                       late: bool)
  {
    /** No step fails by itself, of a handoff with n listeners. */
    ghost predicate Good(n: nat)
    {
      path && (forall k :: 0 <= k < n ==> duplicate(k)) && pipe && state && start && deadline && !late
    }
  }

  /** Why a handoff ends as it does. */
  datatype Reason =
    | ByteRead        // the ready byte was there to be read
    | StepFailed      // some step failed by itself
    | ListenerClosed  // a listener to be duplicated was closed by then
    | NoByte          // the ready pipe was read, or waited for in vain, without the byte in it

  /** In state m of the run the next listener to be duplicated is closed. */
  predicate ClosedAt(run: seq<State>, m: nat)
  {
    && m < |run| && run[m].prior.Copying? && run[m].prior.n <= |run[m].snap|
    && Listener(FileAt(run[m].snap, run[m].prior.n)) !in run[m].oldFds
  }

  /** Between states m and m + 1 of the run the old process gives up its wait, with no byte in the pipe. */
  predicate NoByteAt(run: seq<State>, m: nat)
  {
    m + 1 < |run| && run[m].prior.Waiting? && !run[m].pipe && run[m + 1].prior.Killing?
  }

  /** Between states m and m + 1 of the run the old process reads the byte. */
  predicate ByteAt(run: seq<State>, m: nat)
  {
    m + 1 < |run| && ReadsByte(run[m], run[m + 1])
  }

  class Server {
    var restarting: bool
    var handedOff: bool
    var files: seq<Option<Fd>>       // handoff's file list; a closed entry is nil
    var kernel: State
    ghost var history: seq<State>    // the run of both processes so far

    /** A restart that has won its flag and not begun yet is not in the kernel's state. */
    ghost predicate Valid()
      reads this
    {
      Traced() && (kernel.restarting ==> restarting) && handedOff == kernel.handedOff
    }

    ghost predicate Traced()
      reads this
    {
      Run(history) && history[|history| - 1] == kernel
    }

    /** The open entries of the file list: the first n listeners' duplicates, in the order they are handed over. */
    ghost predicate Duplicates(n: nat)
      reads this
    {
      n <= |kernel.snap| + 1 && n <= |files| && forall k :: 0 <= k < n ==>
        files[k] == Some(Copy(FileAt(kernel.snap, k)))
    }

    constructor ()
      ensures Valid() && !restarting && kernel == INITIAL && files == []
    {
      restarting, handedOff, files, kernel, history := false, false, [], INITIAL, [INITIAL];
    }

    method Do(a: Action)
      requires Traced() && Enabled(kernel, a)
      modifies this`kernel, this`history
      ensures Traced() && kernel == Apply(old(kernel), a) && history == old(history) + [kernel]
    {
      RunSnoc(history, a);
      kernel := Apply(kernel, a);
      history := history + [kernel];
    }

    /** The others act for any time. */
    method Yield()
      requires Traced()
      modifies this`kernel, this`history
      ensures Traced() && SameOwn(old(kernel), kernel) && old(history) <= history
    {
      var n: nat :| 0 <= n;
      for i := 0 to n
        invariant Traced() && SameOwn(old(kernel), kernel) && old(history) <= history
      {
        var a: Action := *;
        if ByOthers(a) && Enabled(kernel, a) {
          OthersKeepOwn(kernel, a);
          Do(a);
        }
      }
    }

    /** While a restart is on, Start and Stop are turned away and a second Restart is refused. */
    method Dispatch(op: Op) returns (gate: Gate)
      requires Valid()
      modifies this`restarting
      ensures gate == match op
                      case Start | Stop => if old(restarting) then Busy else Served
                      case Restart => if old(restarting) then Rejected else Accepted
                      case Version | List | Status | Shutdown => Served
                      case Unknown => Rejected
      ensures restarting == (old(restarting) || op.Restart?)
      ensures Valid()
    {
      match op {
        case Start => gate := if restarting then Busy else Served;
        case Stop => gate := if restarting then Busy else Served;
        case Restart =>
          var won := CompareAndSwapRestarting();
          gate := if won then Accepted else Rejected;
        case Unknown => gate := Rejected;
        case _ => gate := Served;
      }
    }

    method CompareAndSwapRestarting() returns (won: bool)
      modifies this`restarting
      ensures won == !old(restarting) && restarting
    {
      won := !restarting;
      restarting := true;
    }

    /** failHandoff. */
    method FailHandoff()
      modifies this`restarting
      ensures !restarting
    {
      restarting := false;
    }

    /** Some step before the new process is started has failed; the deferred closes run. */
    method AbortHandoff()
      requires Valid() && (kernel.prior.Copying? || kernel.prior.Piped?)
      modifies this`kernel, this`history, this`restarting, this`files
      ensures Valid() && !restarting && kernel.prior.Running? && files == [] && old(history) <= history
    {
      Do(Abort);
      FailHandoff();
      files := [];
    }

    method DuplicateOne(luck: Luck, k: nat) returns (ok: bool, ghost reason: Reason)
      requires Valid() && kernel.prior == Copying(k) && k <= |kernel.snap| && |files| == k && Duplicates(k)
      modifies this`kernel, this`history, this`files
      ensures Valid() && kernel.snap == old(kernel.snap) && old(history) <= history
      ensures ok ==> luck.duplicate(k) && kernel.prior == Copying(k + 1) && |files| == k + 1 && Duplicates(k + 1)
      ensures !ok ==> kernel.prior == Copying(k)
      ensures ok ==> reason.StepFailed?
      ensures !ok ==> if reason.ListenerClosed? then ClosedAt(history, |history| - 1)
                      else reason.StepFailed? && !luck.duplicate(k)
    {
      reason := StepFailed;
      Yield();
      if !luck.duplicate(k) {
        return false, StepFailed;
      }
      if Listener(FileAt(kernel.snap, k)) !in kernel.oldFds {
        return false, ListenerClosed;
      }
      Do(Duplicate);
      files := files + [Some(Copy(FileAt(kernel.snap, k)))];
      ok := true;
    }

    /** The control listener and then the bridges' listeners are duplicated, unless one cannot be or is closed. */
    method DuplicateAll(luck: Luck) returns (ok: bool, ghost reason: Reason)
      requires Valid() && kernel.prior == Copying(0) && files == []
      modifies this`kernel, this`history, this`files
      ensures Valid() && kernel.snap == old(kernel.snap) && kernel.prior.Copying? && old(history) <= history
      ensures ok ==> kernel.prior.n == |kernel.snap| + 1 == |files| && Duplicates(|files|)
      ensures ok ==> forall k :: 0 <= k <= |kernel.snap| ==> luck.duplicate(k)
      ensures !ok ==> kernel.prior.n <= |kernel.snap|
      ensures !ok ==> if reason.ListenerClosed? then ClosedAt(history, |history| - 1)
                      else reason.StepFailed? && !luck.duplicate(kernel.prior.n)
    {
      reason := StepFailed;
      for k := 0 to |kernel.snap| + 1
        invariant Valid() && kernel.snap == old(kernel.snap) && kernel.prior == Copying(k) && old(history) <= history
        invariant |files| == k && Duplicates(k) && reason.StepFailed?
        invariant forall i :: 0 <= i < k ==> luck.duplicate(i)
      {
        ok, reason := DuplicateOne(luck, k);
        if !ok {
          return;
        }
      }
      ok := true;
    }

    /** The listeners of the snapshot are duplicated, after that of the control socket. */
    method Collect(luck: Luck, snap: seq<nat>) returns (ok: bool, ghost reason: Reason)
      requires Valid() && restarting && !kernel.restarting && kernel.prior.Running? && files == [] && Distinct(snap)
      modifies this`kernel, this`history, this`restarting, this`files
      ensures Valid() && old(history) <= history
      ensures if ok then
                && restarting && kernel.prior == Copying(|snap| + 1) && kernel.snap == snap
                && |files| == |snap| + 1 && Duplicates(|files|)
              else !restarting && kernel.prior.Running? && files == []
      ensures ok ==> luck.path && forall k :: 0 <= k <= |snap| ==> luck.duplicate(k)
      ensures !ok ==> if reason.ListenerClosed? then exists m :: |old(history)| <= m && ClosedAt(history, m)
                      else reason.StepFailed? && !luck.Good(|snap| + 1)
    {
      Yield();
      reason := StepFailed;
      ok := luck.path;
      if !ok {
        FailHandoff();
        return;
      }
      Do(Action.Restart(snap));
      ghost var begun := history;
      ok, reason := DuplicateAll(luck);
      if !ok {
        ghost var m := |history| - 1;
        AbortHandoff();
        assert reason.ListenerClosed? ==> ClosedAt(history, m);
      }
    }

    /** The ready pipe, the restore state and the new process. */
    method StartNew(luck: Luck) returns (started: bool)
      requires Valid() && restarting && kernel.prior == Copying(|kernel.snap| + 1)
      requires |files| == |kernel.snap| + 1 && Duplicates(|files|)
      modifies this`kernel, this`history, this`restarting, this`files
      ensures Valid() && old(history) <= history
      ensures if started then restarting && kernel.prior.Launched? && kernel.snap == old(kernel.snap) && Listed()
              else !restarting && kernel.prior.Running? && files == []
      ensures started <==> luck.pipe && luck.state && luck.start
    {
      Yield();
      started := luck.pipe;
      if !started {
        AbortHandoff();
        return;
      }
      Do(MakePipe);
      files := files + [Some(WriteEnd)];
      Yield();
      started := luck.state && luck.start;
      if !started {
        AbortHandoff();
        return;
      }
      Do(Launch);
    }

    /** The whole file list: control, the bridges in snapshot order, the write end of the ready pipe. */
    ghost predicate Listed()
      reads this
    {
      |files| == |kernel.snap| + 2 && Duplicates(|kernel.snap| + 1) && files[|files| - 1] == Some(WriteEnd)
    }

    /** Everything up to and including the start of the new process. */
    method Prepare(luck: Luck, snap: seq<nat>) returns (started: bool, ghost reason: Reason)
      requires Valid() && restarting && !kernel.restarting && kernel.prior.Running? && files == [] && Distinct(snap)
      modifies this`kernel, this`history, this`restarting, this`files
      ensures Valid() && old(history) <= history
      ensures if started then restarting && kernel.prior.Launched? && kernel.snap == snap && Listed()
              else !restarting && kernel.prior.Running? && files == []
      ensures started ==>
                && luck.path && (forall k :: 0 <= k <= |snap| ==> luck.duplicate(k))
                && luck.pipe && luck.state && luck.start
      ensures !started ==> if reason.ListenerClosed? then exists m :: |old(history)| <= m && ClosedAt(history, m)
                           else reason.StepFailed? && !luck.Good(|snap| + 1)
    {
      started, reason := Collect(luck, snap);
      if started {
        started := StartNew(luck);
        reason := StepFailed;
      }
    }

    /** The parent's copy of the write end is closed, and its entry made nil so that it is not closed twice. */
    method DropWriteEnd()
      requires Valid() && kernel.prior.Launched? && files != [] && files[|files| - 1] == Some(WriteEnd)
      modifies this`kernel, this`history, this`files
      ensures Valid() && kernel == Apply(old(kernel), CloseWriteEnd) && old(history) <= history
      ensures files == old(files)[|old(files)| - 1 := None]
    {
      Do(CloseWriteEnd);
      files := files[|files| - 1 := None];
    }

    /**
     Reads the ready pipe, if a deadline can be set: confirms exactly if the byte is there before the deadline; its end,
     or nothing before the deadline, gives up.
     */
    method AwaitReady(luck: Luck) returns (ready: bool, ghost reason: Reason)
      requires Valid() && kernel.prior.Waiting?
      modifies this`kernel, this`history, this`handedOff
      ensures Valid() && (if ready then kernel.prior.Confirmed? && handedOff else kernel.prior.Killing? && !handedOff)
      ensures |old(history)| < |history| && old(history) <= history && kernel.snap == old(kernel.snap)
      ensures ready <==> luck.deadline && !luck.late && history[|history| - 2].pipe
      ensures ready ==> ByteAt(history, |history| - 2) && AfterTakeover(history, |history| - 1)
      ensures !ready && luck.deadline && !luck.late ==> reason.NoByte? && NoByteAt(history, |history| - 2)
      ensures !ready && !(luck.deadline && !luck.late) ==> reason.StepFailed?
    {
      InvOf();
      Yield();
      if !luck.deadline || luck.late {
        Do(TimeOut);
        return false, StepFailed;
      }
      if kernel.pipe {
        Do(ReadByte);
        handedOff := true;
        HandedOffAfterTakeover(history, |history| - 1);
        return true, ByteRead;
      }
      if WriteEnd !in kernel.oldFds + kernel.newFds {
        Do(ReadEof);
      } else {
        Do(TimeOut);
      }
      return false, NoByte;
    }

    lemma InvOf()
      requires Traced()
      ensures Inv(kernel)
    {
      RunKeepsInv(history, |history| - 1);
    }

    /** Kill and Wait: goes on only when the new process is dead. */
    method KillAndWait()
      requires Valid() && kernel.prior.Killing?
      modifies this`kernel, this`history
      ensures Valid() && SameOwn(old(kernel), kernel) && kernel.next.Dead? && old(history) <= history
    {
      Yield();
      InvOf();
      if NewUp(kernel) {
        Do(NewDies);
      }
    }

    /** The ready pipe is read; then either exit, or kill the new process and serve again. */
    method Conclude(luck: Luck) returns (handed: bool, ghost reason: Reason)
      requires Valid() && restarting && kernel.prior.Waiting? && !kernel.crashed
      modifies this
      ensures Valid() && handedOff == handed && old(history) <= history && kernel.snap == old(kernel.snap)
      ensures if handed then kernel.prior.Exiting? else !restarting && kernel.prior.Running?
      ensures handed ==> luck.deadline && !luck.late && exists m :: |old(history)| <= m + 1 && ByteAt(history, m)
      ensures !handed ==> if reason.NoByte? then exists m :: |old(history)| <= m + 1 && NoByteAt(history, m)
                          else reason.StepFailed? && !(luck.deadline && !luck.late)
    {
      handed, reason := AwaitReady(luck);
      ghost var read := history;
      if handed {
        Yield();
        Do(Cancel);
        assert ByteAt(history, |read| - 2);
      } else {
        KillAndWait();
        Do(Reap);
        FailHandoff();
        assert reason.NoByte? ==> NoByteAt(history, |read| - 2);
      }
      files := [];
    }

    /**
     handoff, of the bridges of the snapshot. It hands over exactly if no step fails by itself, no listener is closed
     before it is duplicated and the ready byte is in the pipe when it is read in time; the reason is the one that the
     run shows. If it gives up, the daemon serves again, nothing of the handoff is left in its table and no new process
     lives. If it hands over, the daemon is about to exit, and in this handoff the new process has been ready and has
     listened on every socket handed over.
     */
    method Handoff(luck: Luck, snap: seq<nat>) returns (handed: bool, ghost reason: Reason)
      requires Valid() && restarting && !kernel.restarting && kernel.prior.Running? && !kernel.crashed && files == []
      requires Distinct(snap)
      modifies this
      ensures Valid() && handedOff == handed && old(history) <= history
      ensures handed <==> reason.ByteRead?
      ensures handed ==> luck.Good(|snap| + 1) && kernel.snap == snap
      ensures handed ==> exists m :: |old(history)| <= m && ByteAt(history, m)
      ensures reason.StepFailed? ==> !luck.Good(|snap| + 1)
      ensures reason.ListenerClosed? ==> exists m :: |old(history)| <= m && ClosedAt(history, m)
      ensures reason.NoByte? ==> exists m :: |old(history)| <= m && NoByteAt(history, m)
      ensures !handed ==>
                && !restarting && kernel.prior.Running? && !NewUp(kernel)
                && kernel.newFds == {} && kernel.oldFds == Listeners(kernel.oldFds)
      ensures handed ==> kernel.prior.Exiting? && AfterTakeover(history, |history| - 1)
    {
      InvOf();
      handed, reason := Prepare(luck, snap);
      if handed {
        InvOf();
        ghost var prepared := history;
        DropWriteEnd();
        handed, reason := Conclude(luck);
        reason := if handed then ByteRead else reason;
      }
      InvOf();
      if handed {
        HandedOffAfterTakeover(history, |history| - 1);
      }
    }
  }
}
