/** What the failure clock means over a whole history of events (src/internal/daemon/manager.go). */
module FailureClock {
  import opened Bytes
  import opened BridgeTable

  /** The clocks of the registered serials after a history. */
  function Clocks(h: seq<Event>, clean: int): map<string, Option<int>>
  {
    if h == [] then map[] else AfterEvent(Clocks(h[..|h| - 1], clean), h[|h| - 1], clean)
  }

  /** Event k is a success of the serial or its (successful) registration. */
  predicate Resets(h: seq<Event>, clean: int, serial: string, k: nat)
    requires k < |h|
  {
    || (h[k].Result? && h[k].serial == serial && h[k].ok)
    || (h[k] == Register(serial) && serial !in Clocks(h[..k], clean))
  }

  predicate Fails(h: seq<Event>, serial: string, k: nat)
    requires k < |h|
  {
    h[k].Result? && h[k].serial == serial && !h[k].ok
  }

  ghost predicate NoFailure(h: seq<Event>, serial: string, r: nat, k: nat)
    requires k <= |h|
  {
    forall j :: r < j < k ==> !Fails(h, serial, j)
  }

  ghost predicate LastReset(h: seq<Event>, clean: int, serial: string, r: nat)
    requires r < |h|
  {
    Resets(h, clean, serial, r) && forall j :: r < j < |h| ==> !Resets(h, clean, serial, j)
  }

  /** Event k is the first failure since the latest success or registration. */
  ghost predicate FirstFailure(h: seq<Event>, clean: int, serial: string, k: nat)
    requires k < |h|
  {
    && Fails(h, serial, k)
    && exists r :: 0 <= r < k && LastReset(h, clean, serial, r) && NoFailure(h, serial, r, k)
  }

  lemma ResetsSnoc(h: seq<Event>, clean: int, serial: string, e: Event, k: nat)
    requires k < |h|
    ensures Resets(h + [e], clean, serial, k) == Resets(h, clean, serial, k)
  {
    assert (h + [e])[..k] == h[..k];
  }

  lemma NoFailureSnoc(h: seq<Event>, serial: string, e: Event, r: nat, k: nat)
    requires k <= |h|
    ensures NoFailure(h + [e], serial, r, k) == NoFailure(h, serial, r, k)
  {
    assert forall j :: r < j < k ==> Fails(h + [e], serial, j) == Fails(h, serial, j);
  }

  lemma LastResetSnoc(h: seq<Event>, clean: int, serial: string, e: Event, r: nat)
    requires r < |h|
    ensures LastReset(h + [e], clean, serial, r) <==>
              LastReset(h, clean, serial, r) && !Resets(h + [e], clean, serial, |h|)
  {
    forall k: nat | k < |h| ensures Resets(h + [e], clean, serial, k) == Resets(h, clean, serial, k) {
      ResetsSnoc(h, clean, serial, e, k);
    }
  }

  /** A registered serial has a latest reset; its clock runs from the first failure after it, if there is one. */
  lemma {:induction false} ClockRuns(h: seq<Event>, clean: int, serial: string) returns (r: nat)
    requires serial in Clocks(h, clean)
    ensures r < |h| && LastReset(h, clean, serial, r)
    ensures Clocks(h, clean)[serial].None? ==> NoFailure(h, serial, r, |h|)
    ensures Clocks(h, clean)[serial].Some? ==>
              exists k :: 0 <= k < |h| && FirstFailure(h, clean, serial, k) && h[k].at == Clocks(h, clean)[serial].value
  {
    var g, e := h[..|h| - 1], h[|h| - 1];
    assert h == g + [e];
    if Resets(h, clean, serial, |g|) {
      r := |g|;
    } else {
      r := ClockRuns(g, clean, serial);
      LastResetSnoc(g, clean, serial, e, r);
      NoFailureSnoc(g, serial, e, r, |g|);
      var was := Clocks(g, clean)[serial];
      if was.Some? {
        var k :| 0 <= k < |g| && FirstFailure(g, clean, serial, k) && g[k].at == was.value;
        KeptFirst(g, clean, serial, e, k);
      } else if Fails(h, serial, |g|) {
        assert FirstFailure(h, clean, serial, |g|);
      }
    }
  }

  lemma KeptFirst(h: seq<Event>, clean: int, serial: string, e: Event, k: nat)
    requires k < |h| && FirstFailure(h, clean, serial, k) && !Resets(h + [e], clean, serial, |h|)
    ensures FirstFailure(h + [e], clean, serial, k)
  {
    var r :| 0 <= r < k && LastReset(h, clean, serial, r) && NoFailure(h, serial, r, k);
    LastResetSnoc(h, clean, serial, e, r);
    NoFailureSnoc(h, serial, e, r, k);
  }

  lemma OneFirstFailure(h: seq<Event>, clean: int, serial: string, j: nat, k: nat)
    requires j < |h| && k < |h| && FirstFailure(h, clean, serial, j) && FirstFailure(h, clean, serial, k)
    ensures j == k
  {
  }

  /** The clock of a registered serial shows the time of the first failure since its latest success or registration. */
  lemma ClockIsFirstFailure(h: seq<Event>, clean: int, serial: string, t: int)
    requires serial in Clocks(h, clean)
    ensures Clocks(h, clean)[serial] == Some(t) <==>
              exists k :: 0 <= k < |h| && FirstFailure(h, clean, serial, k) && h[k].at == t
  {
    var r := ClockRuns(h, clean, serial);
    forall j: nat, k: nat | j < |h| && k < |h| && FirstFailure(h, clean, serial, j) && FirstFailure(h, clean, serial, k)
      ensures j == k
    {
      OneFirstFailure(h, clean, serial, j, k);
    }
  }

  /** A reap removes exactly the serials whose first failure since is at least cleanAfterFailure old. */
  lemma ReapRemovesExactlyTheExpired(h: seq<Event>, clean: int, serial: string, t: int)
    requires serial in Clocks(h, clean)
    ensures serial !in Clocks(h + [Reap(t)], clean) <==>
              exists k :: 0 <= k < |h| && FirstFailure(h, clean, serial, k) && t - h[k].at >= clean
  {
    assert (h + [Reap(t)])[..|h|] == h;
    if Clocks(h, clean)[serial].Some? {
      ClockIsFirstFailure(h, clean, serial, Clocks(h, clean)[serial].value);
    }
    forall k: nat | k < |h| && FirstFailure(h, clean, serial, k) ensures Clocks(h, clean)[serial] == Some(h[k].at) {
      ClockIsFirstFailure(h, clean, serial, h[k].at);
    }
  }
}
