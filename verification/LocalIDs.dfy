/** Local IDs: a uint32 counter that wraps and skips 0, and when the service map can trust it. */
module LocalIDs {
  import opened Bytes
  import opened Multiplexer
  import opened StreamInvariant
  import opened FlowControl
  import opened RequestsByID
  import opened HonestClient

  const CYCLE: int := 0xffff_ffff

  /** The n-th ID handed out, counting from 0. */
  function IDOf(n: nat): uint32
  {
    1 + n % 0xffff_ffff
  }

  lemma NextIDCycles(n: nat)
    ensures NextID(IDOf(n)) == IDOf(n + 1)
  {
  }

  /** IDs are never 0, and two allocations get the same ID exactly when a multiple of the cycle apart. */
  lemma IDsRepeatOnlyByCycle(i: nat, j: nat)
    ensures IDOf(i) != 0
    ensures IDOf(i) == IDOf(j) <==> (j - i) % 0xffff_ffff == 0
  {
    var m := 0xffff_ffff;
    assert i == m * (i / m) + i % m && j == m * (j / m) + j % m;
    if i % m == j % m {
      ModMultiple(j / m - i / m);
    } else {
      var d := (j - i) / m;
      assert (j - i) % m == 0 ==> j - i == m * d;
    }
  }

  lemma ModMultiple(q: int)
    ensures (0xffff_ffff * q) % 0xffff_ffff == 0
  {
  }

  ghost predicate Numbered(s: Session)
  {
    && s.nextLocalID == IDOf(|s.svcs|)
    && forall i :: 0 <= i < |s.svcs| ==> s.svcs[i].localID == IDOf(i)
  }

  lemma StepKeepsNumbered(s: Session, a: Action)
    requires Numbered(s) && Enabled(s, a)
    ensures Numbered(Apply(s, a))
  {
    EffectIsAll(s, a);
    NextIDCycles(|s.svcs|);
    forall i | 0 <= i < |s.svcs| ensures Apply(s, a).svcs[i].localID == IDOf(i) {
      SameID(s, a, i);
    }
  }

  /** In every run the n-th stream created has the ID 1 + n mod (2^32 - 1). */
  lemma {:induction false} RunKeepsNumbered(run: seq<Session>, k: nat)
    requires Run(run) && k < |run|
    ensures Numbered(run[k])
  {
    if k > 0 {
      var a := StepOf(run, k);
      RunKeepsNumbered(run, k - 1);
      StepKeepsNumbered(run[k - 1], a);
    }
  }

  /** IDs stay distinct for exactly as long as no more than 2^32 - 1 streams have been created. */
  lemma DistinctUntilWrap(run: seq<Session>, k: nat)
    requires Run(run) && k < |run|
    ensures DistinctIDs(run[k]) <==> |run[k].svcs| <= CYCLE
  {
    var s := run[k];
    RunKeepsNumbered(run, k);
    forall i, j | 0 <= i < j < |s.svcs| && |s.svcs| <= CYCLE ensures s.svcs[i].localID != s.svcs[j].localID {
      IDsRepeatOnlyByCycle(i, j);
    }
    if |s.svcs| > CYCLE {
      assert s.svcs[0].localID == s.svcs[CYCLE].localID;
    }
  }

  // ---- The service map

  /** No stream still in use is older than one full cycle of IDs. */
  ghost predicate Windowed(s: Session)
  {
    forall i :: 0 <= i < |s.svcs| && !Left(s.svcs[i].pc) ==> |s.svcs| - i <= 0xffff_ffff
  }

  /** Until the session is closed the map holds exactly the streams in use. */
  ghost predicate MapExact(s: Session)
  {
    !s.closer.Draining? ==> forall i :: 0 <= i < |s.svcs| ==> (Mapped(s.svcs[i]) <==> InMap(s, i, s.svcs[i].localID))
  }

  lemma DistinctInWindow(s: Session, i: nat, j: nat)
    requires Numbered(s) && Windowed(s) && i < |s.svcs| && j < |s.svcs| && i != j
    requires !Left(s.svcs[i].pc) && !Left(s.svcs[j].pc)
    ensures s.svcs[i].localID != s.svcs[j].localID
  {
    IDsRepeatOnlyByCycle(i, j);
    if i < j {
      assert 0 < j - i < 0xffff_ffff;
    } else {
      assert -0xffff_ffff < j - i < 0;
    }
  }

  lemma StepKeepsMapExact(s: Session, a: Action)
    requires Numbered(s) && MapOk(s) && Windowed(s) && MapExact(s) && Enabled(s, a)
    ensures MapExact(Apply(s, a))
  {
    if Settled(s, a) {
      SettledKeepsTable(s, a);
      EffectIsAll(s, a);
      if Effect(s, a).Update? {
        EffectIsSteady(s, a);
      }
      SettledKeepsCloser(s, a);
    } else if !a.CloseDrain? {
      MapMoves(s, a);
    }
  }

  lemma SettledKeepsCloser(s: Session, a: Action)
    requires Enabled(s, a) && Settled(s, a)
    ensures Apply(s, a).closer.Draining? <==> s.closer.Draining?
  {
  }

  /** Registration and removal touch only the entry of the stream they are for. */
  lemma MapMoves(s: Session, a: Action)
    requires Numbered(s) && MapOk(s) && Windowed(s) && MapExact(s) && Enabled(s, a)
    requires Registers(s, a) || a.Leave?
    ensures MapExact(Apply(s, a))
  {
    var t, i := Apply(s, a), Effect(s, a).i;
    EffectIsAll(s, a);
    forall j | 0 <= j < |t.svcs| && !t.closer.Draining?
      ensures Mapped(t.svcs[j]) <==> InMap(t, j, t.svcs[j].localID)
    {
      if j != i && Mapped(s.svcs[j]) {
        DistinctInWindow(s, i, j);
      }
    }
  }

  lemma {:induction false} RunKeepsMapExact(run: seq<Session>, k: nat)
    requires Run(run) && k < |run| && forall j :: 0 <= j < k ==> Windowed(run[j])
    ensures MapExact(run[k])
  {
    if k > 0 {
      var a := StepOf(run, k);
      RunKeepsMapExact(run, k - 1);
      RunKeepsInv(run, k - 1);
      RunKeepsNumbered(run, k - 1);
      assert Windowed(run[k - 1]);
      StepKeepsMapExact(run[k - 1], a);
    }
  }

  /**
   * If no stream outlives 2^32 - 2 later ones, then, until the session is closed, putService never overwrites
   * an entry, removeService deletes only its caller's own, and each stream in use is found under its ID.
   */
  lemma MapIsReliable(run: seq<Session>, k: nat, i: nat)
    requires Run(run) && k < |run| && (forall j :: 0 <= j <= k ==> Windowed(run[j]))
    requires i < |run[k].svcs| && !run[k].closer.Draining?
    ensures var s, v := run[k], run[k].svcs[i];
            && (v.pc.Fresh? ==> v.localID !in s.table)
            && (v.pc.Leaving? ==> InMap(s, i, v.localID))
            && (Mapped(v) <==> InMap(s, i, v.localID))
  {
    var s, v := run[k], run[k].svcs[i];
    RunKeepsMapExact(run, k);
    RunKeepsInv(run, k);
    RunKeepsNumbered(run, k);
    if v.pc.Fresh? && v.localID in s.table {
      DistinctInWindow(s, i, s.table[v.localID]);
    }
  }
}
