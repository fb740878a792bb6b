/** The daemon's bridge table (src/internal/daemon/manager.go): its critical sections, one method each. */
module BridgeTable {
  import opened Bytes

  datatype BridgeRestore = BridgeRestore(
    serial: string, listenHost: string, backendName: string, adbServer: string, hdcServer: string,
    authMode: string, deviceID: string)

  // ---- What the critical sections do, for items of any kind

  /** Serve's exit removes the entry only if it is still its own. */
  function AfterExit<T(==)>(items: map<string, T>, serial: string, item: T): map<string, T>
  {
    if serial in items && items[serial] == item then items - {serial} else items
  }

  /** The failure clock: success clears it, a failure starts it if it is not running. */
  function AfterResult(lastFailedAt: Option<int>, ok: bool, now: int): Option<int>
  {
    if ok then None else if lastFailedAt.None? then Some(now) else lastFailedAt
  }

  predicate Expired(lastFailedAt: Option<int>, now: int, cleanAfterFailure: int)
  {
    lastFailedAt.Some? && now - lastFailedAt.value >= cleanAfterFailure
  }

  /** What happens to the table, as far as the failure clocks are concerned. */
  datatype Event =
    | Register(serial: string)
    | Remove(serial: string)
    | Clear
    | Result(serial: string, ok: bool, at: int)
    | Reap(at: int)

  /** The failure clocks of the registered serials, one event later. */
  function AfterEvent(clocks: map<string, Option<int>>, e: Event, cleanAfterFailure: int): map<string, Option<int>>
  {
    match e
    case Register(serial) => if serial in clocks then clocks else clocks[serial := None]
    case Remove(serial) => clocks - {serial}
    case Clear => map[]
    case Result(serial, ok, at) =>
      if serial in clocks then clocks[serial := AfterResult(clocks[serial], ok, at)] else clocks
    case Reap(at) =>
      map serial | serial in clocks && !Expired(clocks[serial], at, cleanAfterFailure) :: clocks[serial]
  }

  /** managedBridge: `listening` is false once its listener has been closed. */
  class ManagedBridge {
    const restore: BridgeRestore
    const listener: nat
    var cancelled: bool
    var listening: bool
    var lastFailedAt: Option<int>

    constructor (restore: BridgeRestore, listener: nat)
      ensures this.restore == restore && this.listener == listener
      ensures !cancelled && listening && lastFailedAt == None
    {
      this.restore, this.listener := restore, listener;
      cancelled, listening, lastFailedAt := false, true, None;
    }
  }

  class Manager {
    var items: map<string, ManagedBridge>
    const cleanAfterFailure: int

    constructor (cleanAfterFailure: int)
      ensures items == map[] && this.cleanAfterFailure == cleanAfterFailure && Keyed()
    {
      items := map[];
      this.cleanAfterFailure := cleanAfterFailure;
    }

    /** Every item is filed under its own serial, so no item is filed twice. */
    ghost predicate Keyed()
      reads this
    {
      forall serial :: serial in items ==> items[serial].restore.serial == serial
    }

    ghost function Clocks(): map<string, Option<int>>
      reads this, items.Values
    {
      map serial | serial in items :: items[serial].lastFailedAt
    }

    /** startItem: a bound listener becomes a registered bridge, or is closed. */
    method StartItem(restore: BridgeRestore, listener: nat) returns (item: ManagedBridge, ok: bool)
      requires Keyed()
      modifies this`items
      ensures Keyed() && fresh(item) && item.listener == listener && item.restore == restore
      ensures ok == (restore.serial !in old(items))
      ensures items == if ok then old(items)[restore.serial := item] else old(items)
      ensures if ok then item.listening && !item.cancelled else !item.listening && item.cancelled
      ensures Clocks() == AfterEvent(old(Clocks()), Register(restore.serial), cleanAfterFailure)
    {
      item := new ManagedBridge(restore, listener);
      ok := restore.serial !in items;
      if ok {
        items := items[restore.serial := item];
      } else {
        item.cancelled := true;
        item.listening := false;
      }
    }

    /** The locked tail of startItem's goroutine. */
    method ServeExit(item: ManagedBridge)
      requires Keyed()
      modifies this`items
      ensures Keyed() && items == AfterExit(old(items), item.restore.serial, item)
    {
      if item.restore.serial !in items || items[item.restore.serial] != item {
        return;
      }
      items := items - {item.restore.serial};
    }

    method Stop(serial: string) returns (found: bool)
      requires Keyed()
      modifies this`items, items.Values`cancelled
      ensures Keyed() && found == (serial in old(items)) && items == old(items) - {serial}
      ensures Clocks() == AfterEvent(old(Clocks()), Remove(serial), cleanAfterFailure)
      ensures forall item :: item in old(items.Values) ==>
                item.cancelled == (old(item.cancelled) || (found && item == old(items)[serial]))
    {
      found := serial in items;
      if found {
        var item := items[serial];
        items := items - {serial};
        item.cancelled := true;
      }
    }

    method StopAll()
      requires Keyed()
      modifies this`items, items.Values`cancelled
      ensures items == map[] && forall item :: item in old(items.Values) ==> item.cancelled
    {
      var stopped := items.Values;
      items := map[];
      var todo := stopped;
      while todo != {}
        invariant items == map[]
        invariant todo <= stopped && forall item :: item in stopped - todo ==> item.cancelled
      {
        var item :| item in todo;
        item.cancelled := true;
        todo := todo - {item};
      }
    }

    method OnBackendResult(serial: string, ok: bool, now: int)
      requires Keyed()
      modifies items.Values`lastFailedAt
      ensures Clocks() == AfterEvent(old(Clocks()), Result(serial, ok, now), cleanAfterFailure)
    {
      if serial !in items {
        return;
      }
      var item := items[serial];
      if ok {
        item.lastFailedAt := None;
        return;
      }
      if item.lastFailedAt.None? {
        item.lastFailedAt := Some(now);
      }
    }

    /** Takes exactly the expired items out of the table, and then cancels exactly those. */
    method ReapExpired(now: int)
      requires Keyed()
      modifies this`items, items.Values`cancelled
      ensures Keyed() && Clocks() == AfterEvent(old(Clocks()), Reap(now), cleanAfterFailure)
      ensures forall serial :: serial in items ==> serial in old(items) && items[serial] == old(items)[serial]
      ensures forall item :: item in old(items.Values) ==>
                item.cancelled == (old(item.cancelled) || Expired(item.lastFailedAt, now, cleanAfterFailure))
    {
      ghost var before := items;
      var expired := RemoveExpired(now);
      for k := 0 to |expired|
        modifies before.Values`cancelled
        invariant forall item :: item in before.Values ==>
                    item.cancelled == (old(item.cancelled) || item in expired[..k])
      {
        var item := expired[k];
        assert item in expired;
        item.cancelled := true;
      }
      assert expired[..|expired|] == expired;
    }

    /** The locked part of reapExpired. */
    method RemoveExpired(now: int) returns (expired: seq<ManagedBridge>)
      requires Keyed()
      modifies this`items
      ensures items == map serial | serial in old(items) &&
                !Expired(old(items)[serial].lastFailedAt, now, cleanAfterFailure)
                         :: old(items)[serial]
      ensures forall item :: item in expired <==>
                item in old(items.Values) && Expired(item.lastFailedAt, now, cleanAfterFailure)
    {
      ghost var before := items;
      expired := [];
      var todo := items.Keys;
      while todo != {}
        invariant todo <= before.Keys
        invariant items == map serial | serial in before &&
                    (serial in todo || !Expired(before[serial].lastFailedAt, now, cleanAfterFailure)) :: before[serial]
        invariant forall item :: item in expired <==>
                    && item.restore.serial in before.Keys - todo && before[item.restore.serial] == item
                    && Expired(item.lastFailedAt, now, cleanAfterFailure)
      {
        var serial :| serial in todo;
        var item := items[serial];
        todo := todo - {serial};
        if item.lastFailedAt.Some? && now - item.lastFailedAt.value >= cleanAfterFailure {
          items := items - {serial};
          expired := expired + [item];
        }
      }
    }

    /** Every registered bridge once, its restore record with its own listener, in some order. */
    method Snapshot() returns (out: seq<(BridgeRestore, nat)>)
      requires Keyed()
      ensures |out| == |items|
      ensures forall j, k :: 0 <= j < k < |out| ==> out[j].0.serial != out[k].0.serial
      ensures forall k :: 0 <= k < |out| ==>
                exists serial :: serial in items && out[k] == (items[serial].restore, items[serial].listener)
      ensures forall serial :: serial in items ==> (items[serial].restore, items[serial].listener) in out
    {
      out := [];
      var todo := items.Keys;
      while todo != {}
        invariant todo <= items.Keys && |out| + |todo| == |items|
        invariant forall k :: 0 <= k < |out| ==> out[k].0.serial in items.Keys - todo
        invariant forall j, k :: 0 <= j < k < |out| ==> out[j].0.serial != out[k].0.serial
        invariant forall k :: 0 <= k < |out| ==>
                    exists serial :: serial in items && out[k] == (items[serial].restore, items[serial].listener)
        invariant forall serial :: serial in items.Keys - todo ==>
                    (items[serial].restore, items[serial].listener) in out
      {
        var serial :| serial in todo;
        todo := todo - {serial};
        out := out + [(items[serial].restore, items[serial].listener)];
      }
    }
  }
}
