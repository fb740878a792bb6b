/**
 The bridge table under every interleaving (src/internal/daemon/manager.go): Start and Adopt, Stop, StopAll,
 the reaper and the exits of Serve all work on one map; each of their critical sections is one step here.
 */
module ManagerRuns {
  import opened Bytes
  import BridgeTable

  /** The goroutine startItem starts: Serve, listener.Close, done <- err, then the locked removal. */
  datatype ServePc = Serving | Returned | Unlistened | Reported | Exited

  datatype Item = Item(serial: string, listener: nat, cancelled: bool, serve: ServePc)

  /** A Start or Adopt call; an adopting one comes with a listener, which its caller closes if it fails. */
  datatype Starter =
    | Checking(serial: string, adopted: Option<nat>)  // before the first look at the table
    | Building(serial: string, adopted: Option<nat>)  // NewServer and, for Start, Listen
    | Holding(serial: string, listener: nat)          // startItem with a bound listener
    | Losing(listener: nat)                           // refused: the listener is about to be closed
    | Settled                                         // returned, holding nothing

  datatype Owner = Call(k: nat) | Bridge(i: nat) | Nobody

  datatype State = State(
    items: seq<Item>,            // every item ever registered
    table: map<string, nat>,     // Manager.items
    starters: seq<Starter>,
    removers: seq<set<nat>>,     // per Stop, StopAll or reap: items it took out and has not cancelled yet
    owner: seq<Owner>,           // per listener bound or inherited so far: who is to close it
    closed: set<nat>,            // those closed
    left: multiset<nat>)         // how often each item has left the table

  const INITIAL := State([], map[], [], [], [], {}, multiset{})

  datatype Action =
    | Begin(serial: string)          // Start is called
    | BeginAdopt(serial: string)     // Adopt is called with an inherited listener
    | Check(k: nat)                  // the first look at the table
    | Build(k: nat, ok: bool)        // NewServer and Listen
    | Register(k: nat)               // startItem's critical section
    | Abandon(k: nat)                // the listener of a refused call is closed
    | TakeOut(serials: set<string>)  // the critical section of Stop, StopAll or reapExpired
    | Cancel(r: nat, i: nat)         // a remover cancels one item it holds
    | RootCancel                     // the daemon's context is cancelled
    | CancelCloses(i: nat)           // Serve's watcher closes the listener of a cancelled bridge
    | Return(i: nat)                 // Serve returns
    | CloseListener(i: nat)          // the goroutine closes the listener
    | Report(i: nat)                 // and signals done
    | Exit(i: nat)                   // and runs its critical section

  predicate Enabled(s: State, a: Action)
  {
    match a
    case Check(k) => k < |s.starters| && s.starters[k].Checking?
    case Build(k, _) => k < |s.starters| && s.starters[k].Building?
    case Register(k) => k < |s.starters| && s.starters[k].Holding?
    case Abandon(k) => k < |s.starters| && s.starters[k].Losing?
    case Cancel(r, i) => r < |s.removers| && i in s.removers[r] && i < |s.items|
    case CancelCloses(i) => i < |s.items| && s.items[i].cancelled
    case Return(i) => i < |s.items| && s.items[i].serve.Serving?
    case CloseListener(i) => i < |s.items| && s.items[i].serve.Returned?
    case Report(i) => i < |s.items| && s.items[i].serve.Unlistened?
    case Exit(i) => i < |s.items| && s.items[i].serve.Reported?
    case _ => true
  }

  function Refused(adopted: Option<nat>): Starter
  {
    match adopted case Some(l) => Losing(l) case None => Settled
  }

  function Given(owner: seq<Owner>, l: nat, o: Owner): seq<Owner>
  {
    if l < |owner| then owner[l := o] else owner
  }

  function Values(table: map<string, nat>, serials: set<string>): set<nat>
  {
    set serial | serial in serials && serial in table :: table[serial]
  }

  function Apply(s: State, a: Action): State
    requires Enabled(s, a)
  {
    match a
    case Begin(serial) => s.(starters := s.starters + [Checking(serial, None)])
    case BeginAdopt(serial) =>
      s.(starters := s.starters + [Checking(serial, Some(|s.owner|))], owner := s.owner + [Call(|s.starters|)])
    case Check(k) =>
      var c := s.starters[k];
      s.(starters := s.starters[k := if c.serial == "" || c.serial in s.table then Refused(c.adopted)
                                     else Building(c.serial, c.adopted)])
    case Build(k, ok) =>
      var c := s.starters[k];
      if !ok then s.(starters := s.starters[k := Refused(c.adopted)])
      else if c.adopted.Some? then s.(starters := s.starters[k := Holding(c.serial, c.adopted.value)])
      else s.(starters := s.starters[k := Holding(c.serial, |s.owner|)], owner := s.owner + [Call(k)])
    case Register(k) =>
      var c := s.starters[k];
      if c.serial in s.table then s.(starters := s.starters[k := Losing(c.listener)])
      else
        s.(starters := s.starters[k := Settled],
           items := s.items + [Item(c.serial, c.listener, false, Serving)],
           table := s.table[c.serial := |s.items|],
           owner := Given(s.owner, c.listener, Bridge(|s.items|)))
    case Abandon(k) =>
      var l := s.starters[k].listener;
      s.(starters := s.starters[k := Settled], closed := s.closed + {l}, owner := Given(s.owner, l, Nobody))
    case TakeOut(serials) =>
      s.(table := s.table - serials,
         removers := s.removers + [Values(s.table, serials)],
         left := s.left + multiset(Values(s.table, serials)))
    case Cancel(r, i) =>
      s.(removers := s.removers[r := s.removers[r] - {i}], items := s.items[i := s.items[i].(cancelled := true)])
    case RootCancel => s.(items := seq(|s.items|, i requires 0 <= i < |s.items| => s.items[i].(cancelled := true)))
    case CancelCloses(i) => s.(closed := s.closed + {s.items[i].listener})
    case Return(i) => s.(items := s.items[i := s.items[i].(serve := Returned)])
    case CloseListener(i) =>
      s.(items := s.items[i := s.items[i].(serve := Unlistened)], closed := s.closed + {s.items[i].listener})
    case Report(i) => s.(items := s.items[i := s.items[i].(serve := Reported)])
    case Exit(i) =>
      var table := BridgeTable.AfterExit(s.table, s.items[i].serial, i);
      s.(items := s.items[i := s.items[i].(serve := Exited)], table := table,
         left := if table != s.table then s.left + multiset{i} else s.left)
  }

  ghost predicate Next(s: State, t: State)
  {
    exists a :: Enabled(s, a) && t == Apply(s, a)
  }

  ghost predicate Run(run: seq<State>)
  {
    && run != [] && run[0] == INITIAL
    && forall j, k {:trigger Next(run[j], run[k])} :: 0 <= j && k == j + 1 < |run| ==> Next(run[j], run[k])
  }

  // ---- The invariant

  predicate InTable(s: State, i: nat)
  {
    i < |s.items| && s.items[i].serial in s.table && s.table[s.items[i].serial] == i
  }

  function Held(c: Starter): Option<nat>
  {
    match c
    case Checking(_, adopted) => adopted
    case Building(_, adopted) => adopted
    case Holding(_, listener) => Some(listener)
    case Losing(listener) => Some(listener)
    case Settled => None
  }

  /** The table names items that exist, each under its own serial; an item is in it until it has left, once. */
  ghost predicate TableOk(s: State)
  {
    && (forall serial :: serial in s.table ==> s.table[serial] < |s.items| && s.items[s.table[serial]].serial == serial)
    && (forall i :: 0 <= i < |s.items| ==> s.left[i] == if InTable(s, i) then 0 else 1)
    && (forall i :: i >= |s.items| ==> s.left[i] == 0)
    && (forall i :: 0 <= i < |s.items| && s.items[i].serve.Exited? ==> !InTable(s, i))
  }

  /** An item outside the table is cancelled, about to be cancelled by its remover, or has finished serving. */
  ghost predicate LeaversEnd(s: State)
  {
    forall i :: 0 <= i < |s.items| && !InTable(s, i) ==> Ending(s, i)
  }

  predicate CallOwns(s: State, k: nat)
    requires k < |s.starters|
  {
    match Held(s.starters[k]) case Some(l) => l < |s.owner| && s.owner[l] == Call(k) && l !in s.closed case None => true
  }

  predicate BridgeOwns(s: State, i: nat)
    requires i < |s.items|
  {
    s.items[i].listener < |s.owner| && s.owner[s.items[i].listener] == Bridge(i)
  }

  predicate Owned(s: State, l: nat)
    requires l < |s.owner|
  {
    match s.owner[l]
    case Call(k) => k < |s.starters| && Held(s.starters[k]) == Some(l)
    case Bridge(i) => i < |s.items| && s.items[i].listener == l
    case Nobody => l in s.closed
  }

  /** Every listener has one owner, a call under way or a bridge, until it is closed; an owning call's is open. */
  ghost predicate ListenersOwned(s: State)
  {
    && (forall k :: 0 <= k < |s.starters| ==> CallOwns(s, k))
    && (forall i :: 0 <= i < |s.items| ==> BridgeOwns(s, i))
    && (forall l :: 0 <= l < |s.owner| ==> Owned(s, l))
    && (forall l :: l in s.closed ==> l < |s.owner|)
  }

  /** A bridge's listener stays open while it serves uncancelled, and is closed once its goroutine closed it. */
  predicate ListeningOk(s: State, i: nat)
    requires i < |s.items|
  {
    && (s.items[i].listener in s.closed ==>
         s.items[i].cancelled || !(s.items[i].serve.Serving? || s.items[i].serve.Returned?))
    && (!(s.items[i].serve.Serving? || s.items[i].serve.Returned?) ==> s.items[i].listener in s.closed)
  }

  ghost predicate ServingListens(s: State)
  {
    forall i :: 0 <= i < |s.items| ==> ListeningOk(s, i)
  }

  ghost predicate Inv(s: State)
  {
    TableOk(s) && LeaversEnd(s) && ListenersOwned(s) && ServingListens(s)
  }

  /** Who is taken out: the items filed under the given serials. */
  lemma TakenOut(s: State, serials: set<string>, i: nat)
    requires TableOk(s)
    ensures i in Values(s.table, serials) <==> InTable(s, i) && s.items[i].serial in serials
  {
  }

  lemma StepKeepsTable(s: State, a: Action)
    requires TableOk(s) && Enabled(s, a)
    ensures TableOk(Apply(s, a))
  {
    match a {
      case TakeOut(serials) => TakeOutKeepsTable(s, serials);
      case Register(k) => RegisterKeepsTable(s, k);
      case Exit(i) => ExitKeepsTable(s, i);
      case _ => QuietKeepsTable(s, a);
    }
  }

  lemma TakeOutKeepsTable(s: State, serials: set<string>)
    requires TableOk(s)
    ensures TableOk(Apply(s, TakeOut(serials)))
  {
    var t := Apply(s, TakeOut(serials));
    forall i: nat ensures t.left[i] == s.left[i] + if InTable(s, i) && s.items[i].serial in serials then 1 else 0 {
      TakenOut(s, serials, i);
    }
  }

  lemma RegisterKeepsTable(s: State, k: nat)
    requires TableOk(s) && Enabled(s, Register(k))
    ensures TableOk(Apply(s, Register(k)))
  {
  }

  lemma ExitKeepsTable(s: State, i: nat)
    requires TableOk(s) && Enabled(s, Exit(i))
    ensures TableOk(Apply(s, Exit(i)))
  {
    var t := Apply(s, Exit(i));
    assert t.items == s.items[i := t.items[i]] && t.items[i].serial == s.items[i].serial;
    if InTable(s, i) {
      assert t.table == s.table - {s.items[i].serial} && t.left == s.left[i := s.left[i] + 1];
    } else {
      assert t.table == s.table && t.left == s.left;
    }
  }

  lemma QuietKeepsTable(s: State, a: Action)
    requires TableOk(s) && Enabled(s, a) && !a.TakeOut? && !a.Register? && !a.Exit?
    ensures TableOk(Apply(s, a))
  {
    var t := Apply(s, a);
    assert t.table == s.table && t.left == s.left && |t.items| == |s.items|;
    assert forall i :: 0 <= i < |s.items| ==> t.items[i].serial == s.items[i].serial;
  }

  predicate Ending(s: State, i: nat)
    requires i < |s.items|
  {
    s.items[i].cancelled || s.items[i].serve.Exited? || exists r :: 0 <= r < |s.removers| && i in s.removers[r]
  }

  lemma TakeOutKeepsLeaver(s: State, serials: set<string>, i: nat)
    requires TableOk(s) && i < |s.items| && (InTable(s, i) || Ending(s, i)) && !InTable(Apply(s, TakeOut(serials)), i)
    ensures Ending(Apply(s, TakeOut(serials)), i)
  {
    var t := Apply(s, TakeOut(serials));
    TakenOut(s, serials, i);
    if InTable(s, i) {
      assert i in t.removers[|s.removers|];
    } else if r :| 0 <= r < |s.removers| && i in s.removers[r] {
      assert i in t.removers[r];
    }
  }

  lemma CancelKeepsLeaver(s: State, r: nat, j: nat, i: nat)
    requires Enabled(s, Cancel(r, j)) && i < |s.items| && Ending(s, i)
    ensures Ending(Apply(s, Cancel(r, j)), i)
  {
    var t := Apply(s, Cancel(r, j));
    if m :| 0 <= m < |s.removers| && i in s.removers[m] {
      assert i == j || i in t.removers[m];
    }
  }

  lemma OtherKeepsLeaver(s: State, a: Action, i: nat)
    requires TableOk(s) && Enabled(s, a) && !a.TakeOut? && !a.Cancel? && i < |s.items|
    requires (InTable(s, i) || Ending(s, i)) && !InTable(Apply(s, a), i)
    ensures Ending(Apply(s, a), i)
  {
    assert Apply(s, a).removers == s.removers;
  }

  lemma StepKeepsLeavers(s: State, a: Action)
    requires TableOk(s) && LeaversEnd(s) && Enabled(s, a)
    ensures LeaversEnd(Apply(s, a))
  {
    var t := Apply(s, a);
    forall i | 0 <= i < |t.items| && !InTable(t, i) ensures Ending(t, i) {
      if i < |s.items| {
        match a {
          case TakeOut(serials) => TakeOutKeepsLeaver(s, serials, i);
          case Cancel(r, j) => CancelKeepsLeaver(s, r, j, i);
          case _ => OtherKeepsLeaver(s, a, i);
        }
      }
    }
  }

  lemma StepKeepsCalls(s: State, a: Action, k: nat)
    requires ListenersOwned(s) && Enabled(s, a) && k < |Apply(s, a).starters|
    ensures CallOwns(Apply(s, a), k)
  {
    if k < |s.starters| {
      assert CallOwns(s, k);
    }
    match a {
      case Register(j) => assert CallOwns(s, j);
      case Abandon(j) => assert CallOwns(s, j);
      case CancelCloses(i) => assert BridgeOwns(s, i);
      case CloseListener(i) => assert BridgeOwns(s, i);
      case _ =>
    }
  }

  lemma StepKeepsBridges(s: State, a: Action, i: nat)
    requires ListenersOwned(s) && Enabled(s, a) && i < |Apply(s, a).items|
    ensures BridgeOwns(Apply(s, a), i)
  {
    if i < |s.items| {
      assert BridgeOwns(s, i);
    }
    match a {
      case Register(j) => assert CallOwns(s, j);
      case Abandon(j) => assert CallOwns(s, j);
      case _ =>
    }
  }

  lemma StepKeepsOwner(s: State, a: Action, l: nat)
    requires ListenersOwned(s) && Enabled(s, a) && l < |Apply(s, a).owner|
    ensures Owned(Apply(s, a), l)
  {
    if l < |s.owner| {
      assert Owned(s, l);
    }
    match a {
      case Register(j) => assert CallOwns(s, j);
      case Abandon(j) => assert CallOwns(s, j);
      case _ =>
    }
  }

  lemma StepKeepsOwned(s: State, a: Action)
    requires ListenersOwned(s) && Enabled(s, a)
    ensures ListenersOwned(Apply(s, a))
  {
    var t := Apply(s, a);
    forall k | 0 <= k < |t.starters| ensures CallOwns(t, k) { StepKeepsCalls(s, a, k); }
    forall i | 0 <= i < |t.items| ensures BridgeOwns(t, i) { StepKeepsBridges(s, a, i); }
    forall l | 0 <= l < |t.owner| ensures Owned(t, l) { StepKeepsOwner(s, a, l); }
    match a {
      case Abandon(j) => assert CallOwns(s, j);
      case CancelCloses(i) => assert BridgeOwns(s, i);
      case CloseListener(i) => assert BridgeOwns(s, i);
      case _ =>
    }
  }

  lemma StepKeepsListening(s: State, a: Action)
    requires ListenersOwned(s) && ServingListens(s) && Enabled(s, a)
    ensures ServingListens(Apply(s, a))
  {
    var t := Apply(s, a);
    forall i | 0 <= i < |t.items| ensures ListeningOk(t, i) {
      if i < |s.items| {
        assert BridgeOwns(s, i) && ListeningOk(s, i);
      }
      match a {
        case Register(j) => assert CallOwns(s, j);
        case Abandon(j) => assert CallOwns(s, j);
        case CancelCloses(j) => assert BridgeOwns(s, j);
        case CloseListener(j) => assert BridgeOwns(s, j);
        case _ =>
      }
    }
  }

  // ---- Whole runs

  lemma StepOf(run: seq<State>, k: nat) returns (a: Action)
    requires Run(run) && 0 < k < |run|
    ensures Enabled(run[k - 1], a) && run[k] == Apply(run[k - 1], a)
  {
    assert Next(run[k - 1], run[k]);
    a :| Enabled(run[k - 1], a) && run[k] == Apply(run[k - 1], a);
  }

  lemma {:induction false} RunKeepsInv(run: seq<State>, k: nat)
    requires Run(run) && k < |run|
    ensures Inv(run[k])
  {
    if k > 0 {
      RunKeepsInv(run, k - 1);
      var a := StepOf(run, k);
      StepKeepsTable(run[k - 1], a);
      StepKeepsLeavers(run[k - 1], a);
      StepKeepsOwned(run[k - 1], a);
      StepKeepsListening(run[k - 1], a);
    }
  }

  /** One entry per serial, the item's own; an item leaves the table at most once and does not come back. */
  lemma LeavesOnce(run: seq<State>, k: nat, i: nat)
    requires Run(run) && k < |run| && i < |run[k].items|
    ensures run[k].left[i] <= 1 && (InTable(run[k], i) <==> run[k].left[i] == 0)
    ensures forall serial :: serial in run[k].table ==>
              run[k].table[serial] < |run[k].items| && run[k].items[run[k].table[serial]].serial == serial
  {
    RunKeepsInv(run, k);
  }

  /** This step takes the item out: a remover names its serial, or its own goroutine exits. */
  predicate Removes(s: State, a: Action, i: nat)
  {
    InTable(s, i) && (a == Exit(i) || (a.TakeOut? && s.items[i].serial in a.serials))
  }

  lemma RemovesOrKeeps(s: State, a: Action, i: nat)
    requires TableOk(s) && Enabled(s, a) && InTable(s, i)
    ensures !InTable(Apply(s, a), i) <==> Removes(s, a, i)
  {
  }

  lemma NeverBack(s: State, a: Action, i: nat)
    requires TableOk(s) && Enabled(s, a) && i < |s.items| && !InTable(s, i)
    ensures !InTable(Apply(s, a), i)
  {
  }

  /** Between states m - 1 and m of a run item i is removed, by a remover that names it or by its own exit. */
  ghost predicate RemovedAt(run: seq<State>, m: nat, i: nat)
  {
    0 < m < |run| && RemovedIn(run[m - 1], run[m], i)
  }

  ghost predicate RemovedIn(s: State, t: State, i: nat)
  {
    exists a :: Enabled(s, a) && t == Apply(s, a) && Removes(s, a, i)
  }

  /**
   Over a whole run, an item that is in the table at one time is out of it at a later time if and only if in between a
   remover named its serial or its own goroutine exited; no other item's exit, and no other call, has removed it.
   */
  lemma {:induction false} RemovedBy(run: seq<State>, j: nat, k: nat, i: nat)
    requires Run(run) && j <= k < |run| && InTable(run[j], i)
    ensures !InTable(run[k], i) <==> exists m :: j < m <= k && RemovedAt(run, m, i)
  {
    if j < k {
      RemovedBy(run, j, k - 1, i);
      RunKeepsInv(run, k - 1);
      var a := StepOf(run, k);
      if InTable(run[k - 1], i) {
        RemovesOrKeeps(run[k - 1], a, i);
        if RemovedAt(run, k, i) {
          var b :| Enabled(run[k - 1], b) && run[k] == Apply(run[k - 1], b) && Removes(run[k - 1], b, i);
          RemovesOrKeeps(run[k - 1], b, i);
        }
      } else {
        var m :| j < m <= k - 1 && RemovedAt(run, m, i);
        StillThere(run, j, k - 1, i);
        NeverBack(run[k - 1], a, i);
      }
    }
  }

  lemma {:induction false} StillThere(run: seq<State>, j: nat, k: nat, i: nat)
    requires Run(run) && j <= k < |run| && i < |run[j].items|
    ensures i < |run[k].items|
  {
    if j < k {
      StillThere(run, j, k - 1, i);
      var a := StepOf(run, k);
    }
  }

  /** An item outside the table is cancelled, about to be cancelled by its remover, or has finished serving. */
  lemma OutsideIsEnding(run: seq<State>, k: nat, i: nat)
    requires Run(run) && k < |run| && i < |run[k].items| && !InTable(run[k], i)
    ensures || run[k].items[i].cancelled || run[k].items[i].serve.Exited?
            || exists r :: 0 <= r < |run[k].removers| && i in run[k].removers[r]
  {
    RunKeepsInv(run, k);
  }

  /** Nothing under way: calls have returned, removers have cancelled, cancelled bridges have finished. */
  ghost predicate AtRest(s: State)
  {
    && (forall k :: 0 <= k < |s.starters| ==> s.starters[k].Settled?)
    && (forall r :: 0 <= r < |s.removers| ==> s.removers[r] == {})
    && (forall i :: 0 <= i < |s.items| ==>
         (s.items[i].serve.Serving? && !s.items[i].cancelled) || s.items[i].serve.Exited?)
  }

  /**
   At rest the open listeners are those of the bridges in the table: every call that failed, in particular the
   loser of a race for one serial, has closed the listener it bound, and no registered bridge has lost its own.
   */
  lemma OpenListenersAreTheTable(run: seq<State>, k: nat, l: nat)
    requires Run(run) && k < |run| && AtRest(run[k]) && l < |run[k].owner|
    ensures l !in run[k].closed <==> exists i: nat :: InTable(run[k], i) && run[k].items[i].listener == l
  {
    var s := run[k];
    RunKeepsInv(run, k);
    assert Owned(s, l);
    if l !in s.closed {
      var i := s.owner[l].i;
      assert ListeningOk(s, i) && InTable(s, i);
    }
    forall i: nat | InTable(s, i) && s.items[i].listener == l ensures l !in s.closed {
      assert ListeningOk(s, i);
    }
  }

  /** While it serves uncancelled, a bridge's listener is open, whatever other calls and exits do. */
  lemma ServingBridgeListens(run: seq<State>, k: nat, i: nat)
    requires Run(run) && k < |run| && i < |run[k].items|
    requires run[k].items[i].serve.Serving? && !run[k].items[i].cancelled
    ensures run[k].items[i].listener !in run[k].closed
  {
    RunKeepsInv(run, k);
    assert ListeningOk(run[k], i);
  }
}
