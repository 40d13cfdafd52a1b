/**
  Each job of MemoryJobs, run without interruption, is a run of the interleaved machine: the state
  its method computes is the one the machine reaches, so the machine's safety covers the jobs.
 */
module MemoryRefinement {
  import opened Common
  import opened Batches
  import opened MemoryMirror
  import opened MemoryExposure
  import opened MemoryJobs

  function Mirrored(rows: Table): map<RowId, Row> {
    map r | r in rows ::
      Row(rows[r].namespace, rows[r].syncedAt.Some?, rows[r].deletedAt.Some?, rows[r].expiresAt)
  }

  /** The machine state `s` shows this table and this index, and process p is free with no row locked. */
  ghost predicate Shows(s: Mirror, rows: Table, index: set<Vector>, p: ProcId) {
    && s.rows == Mirrored(rows)
    && s.index == index
    && ProcAt(s, p).Idle?
    && (forall q | q in s.procs :: Locks(s.procs[q]) == {})
  }

  lemma {:induction false} RunConcat(s: Mirror, a: seq<Action>, b: seq<Action>)
    requires CanRun(s, a) && CanRun(Run(s, a), b)
    ensures CanRun(s, a + b) && Run(s, a + b) == Run(Run(s, a), b)
    decreases |a|
  {
    if a == [] {
      assert a + b == b;
    } else {
      assert (a + b)[1..] == a[1..] + b;
      RunConcat(Apply(s, a[0]), a[1..], b);
    }
  }

  lemma RunOne(s: Mirror, a: Action)
    requires Enabled(s, a)
    ensures CanRun(s, [a]) && Run(s, [a]) == Apply(s, a)
  {
  }

  // ---------------------------------------------------------------------------
  // Sync
  // ---------------------------------------------------------------------------

  function SyncActions(p: ProcId, records: seq<RowId>, stored: set<RowId>, landed: set<RowId>): seq<Action> {
    if records == [] then []
    else
      var r := records[0];
      [if r in stored then SyncUpsert(p, r) else SyncFail(p, r, r in landed)]
      + SyncActions(p, records[1..], stored, landed)
  }

  function SyncScript(p: ProcId, records: seq<RowId>, stored: set<RowId>, landed: set<RowId>, commits: bool): seq<Action> {
    [SyncLock(p, Elements(records))] + SyncActions(p, records, stored, landed)
    + [if commits then SyncCommit(p) else Abort(p)]
  }

  function RowVectors(s: Mirror, ids: set<RowId>): set<Vector> {
    set r | r in ids && r in s.rows :: (s.rows[r].namespace, r)
  }

  /** One row of the sync loop. */
  lemma SyncItem(s: Mirror, p: ProcId, locked: set<RowId>, todo: set<RowId>, done: set<RowId>,
                 r: RowId, stored: set<RowId>, landed: set<RowId>)
    requires p in s.procs && s.procs[p] == Syncing(locked, todo, done) && r in todo && r in s.rows
    ensures var a := if r in stored then SyncUpsert(p, r) else SyncFail(p, r, r in landed);
            && Enabled(s, a)
            && Apply(s, a).rows == s.rows
            && Apply(s, a).procs == s.procs[p := Syncing(locked, todo - {r}, done + {r} * stored)]
            && Apply(s, a).index == s.index + RowVectors(s, {r} * (stored + landed))
  {
    if r in stored {
      assert {r} * stored == {r};
    } else {
      assert done + {r} * stored == done;
    }
    assert RowVectors(s, {r} * (stored + landed))
           == if r in stored + landed then {(s.rows[r].namespace, r)} else {};
  }

  lemma {:induction false} SyncActionsRun(s: Mirror, p: ProcId, locked: set<RowId>, done: set<RowId>,
                                          records: seq<RowId>, stored: set<RowId>, landed: set<RowId>)
    requires Distinct(records) && Elements(records) <= s.rows.Keys
    requires p in s.procs && s.procs[p] == Syncing(locked, Elements(records), done)
    ensures CanRun(s, SyncActions(p, records, stored, landed))
    ensures var t := Run(s, SyncActions(p, records, stored, landed));
            && t.procs == s.procs[p := Syncing(locked, {}, done + Elements(records) * stored)]
            && t.rows == s.rows
            && t.index == s.index + RowVectors(s, Elements(records) * (stored + landed))
    decreases |records|
  {
    if records == [] {
      assert Elements(records) == {};
      assert done + Elements(records) * stored == done;
    } else {
      var r, rest := records[0], records[1..];
      assert r in Elements(records);
      assert Elements(rest) == Elements(records) - {r};
      SyncItem(s, p, locked, Elements(records), done, r, stored, landed);
      var a := if r in stored then SyncUpsert(p, r) else SyncFail(p, r, r in landed);
      SyncActionsRun(Apply(s, a), p, locked, done + {r} * stored, rest, stored, landed);
      RunCons(s, a, SyncActions(p, rest, stored, landed));
      assert done + {r} * stored + Elements(rest) * stored == done + Elements(records) * stored;
      SplitVectors(s, r, Elements(rest), stored + landed);
      assert Elements(records) == Elements(rest) + {r};
    }
  }

  lemma SplitVectors(s: Mirror, r: RowId, rest: set<RowId>, upserted: set<RowId>)
    ensures RowVectors(s, (rest + {r}) * upserted)
            == RowVectors(s, {r} * upserted) + RowVectors(s, rest * upserted)
  {
  }

  /** A run between a first and a last action. */
  lemma RunBetween(s: Mirror, first: Action, middle: seq<Action>, last: Action)
    requires Enabled(s, first) && CanRun(Apply(s, first), middle)
    requires Enabled(Run(Apply(s, first), middle), last)
    ensures CanRun(s, [first] + middle + [last])
    ensures Run(s, [first] + middle + [last]) == Apply(Run(Apply(s, first), middle), last)
  {
    RunOne(s, first);
    RunConcat(s, [first], middle);
    RunOne(Run(Apply(s, first), middle), last);
    RunConcat(s, [first] + middle, [last]);
  }

  lemma SyncLocks(s: Mirror, p: ProcId, rows: Table, index: set<Vector>, ids: set<RowId>)
    requires Shows(s, rows, index, p) && ids <= Unsynced(rows)
    ensures Enabled(s, SyncLock(p, ids))
    ensures Apply(s, SyncLock(p, ids)) == s.(procs := s.procs[p := Syncing(ids, ids, {})])
  {
    forall r | r in ids ensures Live(s, r) && !s.rows[r].synced {}
  }

  lemma SyncEnds(s: Mirror, t: Mirror, p: ProcId, rows: Table, index: set<Vector>, ids: set<RowId>,
                 stored: set<RowId>, commits: bool, now: int)
    requires Shows(s, rows, index, p) && ids <= rows.Keys && t.rows == s.rows
    requires t.procs == s.procs[p := Syncing(ids, {}, ids * stored)]
    ensures var last := if commits then SyncCommit(p) else Abort(p);
            Enabled(t, last) &&
            Shows(Apply(t, last), if commits then SyncTable(rows, ids, stored, now) else rows, t.index, p)
  {
    if commits {
      assert MarkSynced(t.rows, ids * stored) == Mirrored(SyncTable(rows, ids, stored, now));
    }
  }

  /** A pass of the sync worker, committed or not, with any failures. */
  lemma SyncPassIsARun(s: Mirror, p: ProcId, rows: Table, index: set<Vector>, records: seq<RowId>,
                       stored: set<RowId>, landed: set<RowId>, commits: bool, now: int)
    requires Shows(s, rows, index, p) && Distinct(records) && Elements(records) <= Unsynced(rows)
    ensures var script := SyncScript(p, records, stored, landed, commits);
            && CanRun(s, script)
            && Shows(Run(s, script),
                     if commits then SyncTable(rows, Elements(records), stored, now) else rows,
                     SyncIndex(rows, index, Elements(records), stored + landed), p)
  {
    var ids := Elements(records);
    var lock := SyncLock(p, ids);
    SyncLocks(s, p, rows, index, ids);
    var s1 := Apply(s, lock);
    SyncActionsRun(s1, p, ids, {}, records, stored, landed);
    var t := Run(s1, SyncActions(p, records, stored, landed));
    assert {} + ids * stored == ids * stored;
    assert t.procs == s.procs[p := Syncing(ids, {}, ids * stored)];
    SyncEnds(s, t, p, rows, index, ids, stored, commits, now);
    RunBetween(s, lock, SyncActions(p, records, stored, landed), if commits then SyncCommit(p) else Abort(p));
    SameVectors(s, rows, ids * (stored + landed));
  }

  lemma SameVectors(s: Mirror, rows: Table, ids: set<RowId>)
    requires s.rows == Mirrored(rows)
    ensures RowVectors(s, ids) == VectorsOf(rows, ids)
  {
    forall r | r in rows ensures (s.rows[r].namespace, r) == VectorOf(rows, r) {}
  }

  // ---------------------------------------------------------------------------
  // Retention
  // ---------------------------------------------------------------------------

  lemma SoftDeleteIsARun(s: Mirror, p: ProcId, rows: Table, index: set<Vector>, ids: set<RowId>, now: int)
    requires Shows(s, rows, index, p) && ids <= ExpiredLive(rows, now)
    ensures var script := [SoftLock(p, ids, now)] + [SoftCommit(p)];
            CanRun(s, script) && Shows(Run(s, script), SoftDelete(rows, ids, now), index, p)
  {
    var lock := SoftLock(p, ids, now);
    forall r | r in ids ensures Live(s, r) && Expired(s.rows[r], now) {}
    RunOne(s, lock);
    var s1 := Apply(s, lock);
    RunOne(s1, SoftCommit(p));
    RunConcat(s, [lock], [SoftCommit(p)]);
    assert Apply(s1, SoftCommit(p)).rows == Mirrored(SoftDelete(rows, ids, now));
  }

  function ClearActions(p: ProcId, namespaces: seq<Namespace>): seq<Action> {
    if namespaces == [] then [] else [HardVectors(p, namespaces[0])] + ClearActions(p, namespaces[1..])
  }

  function BatchVectors(batch: map<RowId, Namespace>, namespaces: set<Namespace>): set<Vector> {
    set r | r in batch && batch[r] in namespaces :: (batch[r], r)
  }

  lemma {:induction false} ClearActionsRun(s: Mirror, p: ProcId, namespaces: seq<Namespace>)
    requires ProcAt(s, p).HardDeleting? && p in s.procs
    ensures CanRun(s, ClearActions(p, namespaces))
    ensures var t, batch := Run(s, ClearActions(p, namespaces)), ProcAt(s, p).batch;
            && t.rows == s.rows
            && ProcAt(t, p) == HardDeleting(batch, ProcAt(s, p).cleared + Elements(namespaces))
            && t.index == s.index - BatchVectors(batch, Elements(namespaces))
            && t.procs == s.procs[p := ProcAt(t, p)]
    decreases |namespaces|
  {
    if namespaces == [] {
      assert ProcAt(s, p).cleared + Elements(namespaces) == ProcAt(s, p).cleared;
      assert s.procs == s.procs[p := ProcAt(s, p)];
    } else {
      var ns, rest := namespaces[0], namespaces[1..];
      var t := Apply(s, HardVectors(p, ns));
      ClearActionsRun(t, p, rest);
      assert ClearActions(p, namespaces)[1..] == ClearActions(p, rest);
      assert ProcAt(s, p).cleared + {ns} + Elements(rest) == ProcAt(s, p).cleared + Elements(namespaces);
      assert namespaces == [ns] + rest;
    }
  }

  /** How the machine ends a hard pass: rows deleted, a failing vector call, or an abort at the commit. */
  function HardLast(p: ProcId, result: Result<(nat, nat), JobError>, lost: set<Vector>): Action {
    match result
    case Ok(_) => HardRows(p)
    case Err(IndexUnavailable(ns)) => HardVectorsFail(p, ns, set v | v in lost && v.0 == ns :: v.1)
    case Err(CommitFailed) => Abort(p)
  }

  /** The hard half with any outcome: the vector calls for `cleared` in order, and then its last action. */
  lemma HardDeleteIsARun(s: Mirror, p: ProcId, rows: Table, index: set<Vector>, ids: set<RowId>,
                         cleared: seq<Namespace>, result: Result<(nat, nat), JobError>, lost: set<Vector>)
    requires Shows(s, rows, index, p) && ids <= SoftDeleted(rows)
    requires result.Ok? ==> forall r | r in ids :: rows[r].namespace in cleared
    ensures var script := [HardSelect(p, ids)] + ClearActions(p, cleared) + [HardLast(p, result, lost)];
            CanRun(s, script) &&
            Shows(Run(s, script), if result.Ok? then rows - ids else rows,
                  HardIndex(rows, index, ids, Elements(cleared), FailedAt(result), lost), p)
  {
    var batch := NamespacesOf(s, ids);
    forall r | r in ids ensures r in s.rows && s.rows[r].deleted {}
    var select, clear := HardSelect(p, ids), ClearActions(p, cleared);
    ClearActionsRun(Apply(s, select), p, cleared);
    var t := Run(Apply(s, select), clear);
    BatchIsRows(s, rows, ids, Elements(cleared));
    if result.Ok? {
      HardRowsEnd(s, t, p, rows, ids, cleared);
    } else if result.error.IndexUnavailable? {
      FailedCallEnds(s, t, p, rows, ids, result.error.namespace, lost);
    }
    RunBetween(s, select, clear, HardLast(p, result, lost));
  }

  lemma BatchIsRows(s: Mirror, rows: Table, ids: set<RowId>, namespaces: set<Namespace>)
    requires s.rows == Mirrored(rows) && ids <= rows.Keys
    ensures BatchVectors(NamespacesOf(s, ids), namespaces) == VectorsOf(rows, InNamespaces(rows, ids, namespaces))
  {
    var batch := NamespacesOf(s, ids);
    forall r | r in ids ensures (batch[r], r) == VectorOf(rows, r) && batch[r] == rows[r].namespace {}
  }

  lemma HardRowsEnd(s: Mirror, t: Mirror, p: ProcId, rows: Table, ids: set<RowId>, cleared: seq<Namespace>)
    requires s.rows == Mirrored(rows) && ids <= rows.Keys && t.rows == s.rows
    requires ProcAt(t, p) == HardDeleting(NamespacesOf(s, ids), {} + Elements(cleared))
    requires forall r | r in ids :: rows[r].namespace in cleared
    ensures Enabled(t, HardRows(p)) && Apply(t, HardRows(p)).rows == Mirrored(rows - ids)
  {
    var batch := NamespacesOf(s, ids);
    forall ns | ns in batch.Values ensures ns in Elements(cleared) {
      var r :| r in batch && batch[r] == ns;
      assert r in rows && rows[r].namespace == ns;
    }
  }

  lemma FailedCallEnds(s: Mirror, t: Mirror, p: ProcId, rows: Table, ids: set<RowId>, ns: Namespace, lost: set<Vector>)
    requires s.rows == Mirrored(rows) && ids <= rows.Keys
    requires ProcAt(t, p).HardDeleting? && ProcAt(t, p).batch == NamespacesOf(s, ids)
    ensures var a := HardVectorsFail(p, ns, set v | v in lost && v.0 == ns :: v.1);
            Apply(t, a).index == t.index - (Tagged(ns, InNamespace(rows, ids, ns)) * lost)
  {
    var batch, lostIds := NamespacesOf(s, ids), set v | v in lost && v.0 == ns :: v.1;
    forall r | r in ids ensures batch[r] == rows[r].namespace {}
    forall v ensures v in Among(VectorsIn(batch, ns), lostIds) <==> v in Tagged(ns, InNamespace(rows, ids, ns)) * lost {
      if v in Tagged(ns, InNamespace(rows, ids, ns)) * lost {
        assert v.1 in lostIds;
      }
    }
  }

  // ---------------------------------------------------------------------------
  // Reconciliation
  // ---------------------------------------------------------------------------

  /** One listing and one deletion for each namespace. */
  function SweepActions(p: ProcId, n: nat): seq<Action> {
    if n == 0 then [] else [ReconcileList(p), ReconcileDelete(p)] + SweepActions(p, n - 1)
  }

  function Strays(index: set<Vector>, active: set<Vector>, namespaces: seq<Namespace>): set<Vector> {
    set v | v in index && v.0 in namespaces && v !in active
  }

  lemma {:induction false} SweepActionsRun(s: Mirror, p: ProcId, active: set<Vector>, namespaces: seq<Namespace>)
    requires p in s.procs && s.procs[p] == Reconciling(active, {}, namespaces)
    ensures var actions := SweepActions(p, |namespaces|);
            && CanRun(s, actions)
            && Run(s, actions) == s.(index := s.index - Strays(s.index, active, namespaces),
                                     procs := s.procs[p := Reconciling(active, {}, [])])
    decreases |namespaces|
  {
    if namespaces == [] {
      assert s.procs == s.procs[p := Reconciling(active, {}, [])];
      assert s.index == s.index - Strays(s.index, active, []);
    } else {
      var ns, rest := namespaces[0], namespaces[1..];
      var listed := Apply(s, ReconcileList(p));
      var swept := Apply(listed, ReconcileDelete(p));
      assert swept == s.(index := s.index - Strays(s.index, active, [ns]), procs := s.procs[p := Reconciling(active, {}, rest)]) by {
        assert Listed(s, ns) - active == Strays(s.index, active, [ns]);
      }
      SweepActionsRun(swept, p, active, rest);
      RunCons(listed, ReconcileDelete(p), SweepActions(p, |rest|));
      RunCons(s, ReconcileList(p), [ReconcileDelete(p)] + SweepActions(p, |rest|));
      assert [ReconcileList(p)] + ([ReconcileDelete(p)] + SweepActions(p, |rest|)) == SweepActions(p, |namespaces|);
      assert namespaces == [ns] + rest;
      assert s.index - Strays(s.index, active, namespaces) == swept.index - Strays(swept.index, active, rest);
    }
  }

  /** A reconciliation pass nothing interrupts is a run, and a quiet one. */
  lemma ReconciliationIsARun(s: Mirror, p: ProcId, rows: Table, index: set<Vector>, namespaces: seq<Namespace>)
    requires Shows(s, rows, index, p)
    ensures var script := [ReconcileRead(p, namespaces)] + SweepActions(p, |namespaces|) + [ReconcileDone(p)];
            && CanRun(s, script) && Quiet(s, script)
            && Shows(Run(s, script), rows, index - Orphans(rows, index, namespaces), p)
  {
    var read := ReconcileRead(p, namespaces);
    ActiveIsMirrored(s, rows);
    SweepActionsRun(Apply(s, read), p, Active(rows), namespaces);
    assert Strays(index, Active(rows), namespaces) == Orphans(rows, index, namespaces);
    RunBetween(s, read, SweepActions(p, |namespaces|), ReconcileDone(p));
    SweepsAreOld(p, |namespaces|);
    OldIsQuiet(s, [read] + SweepActions(p, |namespaces|) + [ReconcileDone(p)]);
  }

  lemma ActiveIsMirrored(s: Mirror, rows: Table)
    requires s.rows == Mirrored(rows)
    ensures ActiveVectors(s) == Active(rows)
  {
    forall r | r in s.rows && !s.rows[r].deleted ensures (s.rows[r].namespace, r) in Active(rows) {
      assert VectorOf(rows, r) in Active(rows);
    }
    forall v | v in Active(rows) ensures v in ActiveVectors(s) {
      assert v.1 in s.rows && !s.rows[v.1].deleted && (s.rows[v.1].namespace, v.1) == v;
    }
  }

  /** Runs that neither insert nor erase are quiet. */
  predicate Old(a: Action) {
    !a.Record? && !a.EraseSelect?
  }

  lemma {:induction false} SweepsAreOld(p: ProcId, n: nat)
    ensures forall a | a in SweepActions(p, n) :: Old(a)
  {
    if n > 0 {
      SweepsAreOld(p, n - 1);
    }
  }

  lemma {:induction false} OldIsQuiet(s: Mirror, actions: seq<Action>)
    requires CanRun(s, actions) && forall a | a in actions :: Old(a)
    ensures Quiet(s, actions)
    decreases |actions|
  {
    if actions != [] {
      assert Old(actions[0]);
      OldIsQuiet(Apply(s, actions[0]), actions[1..]);
    }
  }
}
