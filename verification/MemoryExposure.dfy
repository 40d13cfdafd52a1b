/**
  When the index can come out of step with the table, exactly.

  Two things can go wrong with a row: it ends up live and synced without its vector, or its vector
  outlives it.  For each there is a condition on the present state, and it is proved that the
  accident lies in some future of the state if and only if the condition holds.
 */
module MemoryExposure {
  import opened Common
  import opened MemoryMirror

  function VectorAt(s: Mirror, r: RowId): Vector
    requires r in s.rows
  {
    (s.rows[r].namespace, r)
  }

  /** The row is live and marked synced, and its vector is gone. */
  predicate Missing(s: Mirror, r: RowId) {
    Live(s, r) && s.rows[r].synced && VectorAt(s, r) !in s.index
  }

  /** A vector whose row is gone. */
  ghost predicate Orphaned(s: Mirror, r: RowId) {
    r !in s.rows && exists ns :: (ns, r) in s.index
  }

  /** A pass in flight has missed the vector: it read the table too early and has yet to delete it. */
  predicate Missed(proc: Proc, v: Vector) {
    proc.Reconciling? && (v in proc.doomed || (v !in proc.active && v.0 in proc.left))
  }

  predicate Selected(proc: Proc, r: RowId) {
    proc.Erasing? && r in proc.batch
  }

  predicate Stored(proc: Proc, r: RowId) {
    proc.Syncing? && r in proc.stored
  }

  predicate Threatens(s: Mirror, proc: Proc, r: RowId)
    requires r in s.rows
  {
    || Missed(proc, VectorAt(s, r))
    || (Selected(proc, r) && VectorAt(s, r).0 !in proc.cleared)
    || (Stored(proc, r) && VectorAt(s, r) !in s.index)
  }

  /**
    The row can end up live and synced without its vector: that is so already, or a sync is about
    to mark it although the vector has gone, or a pass in flight has missed it, or an eraser that
    has selected it has yet to clear its namespace.
   */
  ghost predicate LossRisk(s: Mirror, r: RowId) {
    Live(s, r) && (Missing(s, r) || exists p :: p in s.procs && Threatens(s, s.procs[p], r))
  }

  /** An eraser holding the row has cleared its namespace already and a vector is there again, or can be. */
  ghost predicate Overtaken(s: Mirror, proc: Proc, r: RowId)
    requires r in s.rows
  {
    Selected(proc, r) &&
    ((VectorAt(s, r).0 in proc.cleared && VectorAt(s, r) in s.index) || (Live(s, r) && !s.rows[r].synced))
  }

  ghost predicate OrphanRisk(s: Mirror, r: RowId) {
    if r in s.rows then exists p :: p in s.procs && Overtaken(s, s.procs[p], r) else Orphaned(s, r)
  }

  // ---------------------------------------------------------------------------
  // Safety: without a risk nothing goes wrong later
  // ---------------------------------------------------------------------------

  /** The action does not have an eraser select the row anew. */
  predicate Spares(a: Action, r: RowId) {
    a.EraseSelect? ==> r !in a.ids
  }

  lemma StepAddsNoLossRisk(s: Mirror, a: Action, r: RowId)
    requires Inv(s) && Enabled(s, a) && Spares(a, r) && r in s.used && !LossRisk(s, r)
    ensures r in Apply(s, a).used && !LossRisk(Apply(s, a), r)
  {
  }

  lemma StepAddsNoOrphanRisk(s: Mirror, a: Action, r: RowId)
    requires Inv(s) && Enabled(s, a) && Spares(a, r) && r in s.used && !OrphanRisk(s, r)
    ensures r in Apply(s, a).used && !OrphanRisk(Apply(s, a), r)
  {
  }

  ghost predicate SparesAll(actions: seq<Action>, r: RowId) {
    forall a | a in actions :: Spares(a, r)
  }

  lemma {:induction false} RunAddsNoRisk(s: Mirror, actions: seq<Action>, r: RowId)
    requires Inv(s) && CanRun(s, actions) && SparesAll(actions, r) && r in s.used
    ensures r in Run(s, actions).used
    ensures !LossRisk(s, r) ==> !LossRisk(Run(s, actions), r)
    ensures !OrphanRisk(s, r) ==> !OrphanRisk(Run(s, actions), r)
    decreases |actions|
  {
    if actions != [] {
      var a := actions[0];
      assert a in actions;
      StepKeepsInv(s, a);
      assert r in Apply(s, a).used;
      if !LossRisk(s, r) {
        StepAddsNoLossRisk(s, a, r);
      }
      if !OrphanRisk(s, r) {
        StepAddsNoOrphanRisk(s, a, r);
      }
      RunAddsNoRisk(Apply(s, a), actions[1..], r);
    }
  }

  // ---------------------------------------------------------------------------
  // No row goes before its time
  // ---------------------------------------------------------------------------

  /** The row is live and nobody at work is about to remove it. */
  ghost predicate Safe(s: Mirror, r: RowId, expiry: Option<int>) {
    && Live(s, r) && s.rows[r].expiresAt == expiry
    && forall p | p in s.procs :: !(s.procs[p].SoftDeleting? && r in s.procs[p].locked) && !Selected(s.procs[p], r)
  }

  /** No eraser selects the row, and no retention pass reads a clock past its expiry. */
  predicate InTime(a: Action, r: RowId, expiry: Option<int>) {
    && Spares(a, r)
    && (a.SoftLock? ==> expiry.None? || a.now <= expiry.value)
  }

  lemma StepKeepsUnexpired(s: Mirror, a: Action, r: RowId, expiry: Option<int>)
    requires Inv(s) && Enabled(s, a) && Safe(s, r, expiry) && InTime(a, r, expiry)
    ensures Safe(Apply(s, a), r, expiry)
  {
  }

  /** Only its expiry or an eraser ends a row: until then it stays live in every run, whatever else fails or races. */
  lemma {:induction false} UnexpiredRowsStay(s: Mirror, actions: seq<Action>, r: RowId, expiry: Option<int>)
    requires Inv(s) && CanRun(s, actions) && Safe(s, r, expiry)
    requires forall a | a in actions :: InTime(a, r, expiry)
    ensures Safe(Run(s, actions), r, expiry)
    decreases |actions|
  {
    if actions != [] {
      assert actions[0] in actions;
      StepKeepsInv(s, actions[0]);
      StepKeepsUnexpired(s, actions[0], r, expiry);
      UnexpiredRowsStay(Apply(s, actions[0]), actions[1..], r, expiry);
    }
  }

  /** From its insertion on. */
  lemma RecordedRowsStay(s: Mirror, id: RowId, ns: Namespace, expiry: Option<int>, actions: seq<Action>)
    requires Inv(s) && Enabled(s, Record(id, ns, expiry)) && CanRun(Apply(s, Record(id, ns, expiry)), actions)
    requires forall a | a in actions :: InTime(a, id, expiry)
    ensures var t := Run(Apply(s, Record(id, ns, expiry)), actions);
            Live(t, id) && t.rows[id].expiresAt == expiry && id !in s.rows
  {
    var start := Apply(s, Record(id, ns, expiry));
    StepKeepsInv(s, Record(id, ns, expiry));
    assert Safe(start, id, expiry) by {
      forall p | p in s.procs
        ensures !(s.procs[p].SoftDeleting? && id in s.procs[p].locked) && !Selected(s.procs[p], id)
      {
        assert ProcOk(s, s.procs[p]);
      }
    }
    UnexpiredRowsStay(start, actions, id, expiry);
  }

  // ---------------------------------------------------------------------------
  // Necessity: with a risk there is a future in which it happens
  // ---------------------------------------------------------------------------

  /** Nothing new begins: no insertion, no reconciliation pass, no erasure. */
  predicate NothingNew(a: Action) {
    !a.Record? && !a.ReconcileRead? && !a.EraseSelect?
  }

  /** From s the system can come to t without anything new beginning. */
  ghost predicate Reaches(s: Mirror, t: Mirror) {
    exists actions :: CanRun(s, actions) && (forall a | a in actions :: NothingNew(a)) && Run(s, actions) == t
  }

  lemma Stay(s: Mirror)
    ensures Reaches(s, s)
  {
    assert CanRun(s, []) && Run(s, []) == s;
  }

  lemma {:induction false} RunSnoc(s: Mirror, actions: seq<Action>, a: Action)
    requires CanRun(s, actions) && Enabled(Run(s, actions), a)
    ensures CanRun(s, actions + [a]) && Run(s, actions + [a]) == Apply(Run(s, actions), a)
    decreases |actions|
  {
    if actions == [] {
      RunCons(s, a, []);
      assert [] + [a] == [a] + [];
    } else {
      assert (actions + [a])[1..] == actions[1..] + [a];
      RunSnoc(Apply(s, actions[0]), actions[1..], a);
    }
  }

  lemma Go(s: Mirror, t: Mirror, a: Action)
    requires Reaches(s, t) && Enabled(t, a) && NothingNew(a)
    ensures Reaches(s, Apply(t, a))
  {
    var actions :| CanRun(s, actions) && (forall b | b in actions :: NothingNew(b)) && Run(s, actions) == t;
    RunSnoc(s, actions, a);
  }

  /** Everybody but `keep` gives up. */
  ghost predicate Calm(t: Mirror, keep: ProcId) {
    forall p | p in t.procs && p != keep :: t.procs[p].Idle?
  }

  lemma CalmDown(s: Mirror, keep: ProcId) returns (t: Mirror)
    ensures Reaches(s, t) && Calm(t, keep)
    ensures t.rows == s.rows && t.index == s.index && ProcAt(t, keep) == ProcAt(s, keep)
  {
    t := s;
    Stay(s);
    var rest := s.procs.Keys - {keep};
    while rest != {}
      invariant Reaches(s, t) && t.rows == s.rows && t.index == s.index && ProcAt(t, keep) == ProcAt(s, keep)
      invariant keep !in rest && forall p | p in t.procs && p != keep && p !in rest :: t.procs[p].Idle?
      decreases |rest|
    {
      var p :| p in rest;
      Go(s, t, Abort(p));
      t := Apply(t, Abort(p));
      rest := rest - {p};
    }
  }

  /** A free process upserts the row's vector. */
  lemma Upsert(s: Mirror, t: Mirror, keep: ProcId, r: RowId) returns (u: Mirror)
    requires Reaches(s, t) && Calm(t, keep) && Locks(ProcAt(t, keep)) == {}
    requires Live(t, r) && !t.rows[r].synced
    ensures Reaches(s, u) && u.rows == t.rows && u.index == t.index + {VectorAt(t, r)}
    ensures ProcAt(u, keep) == ProcAt(t, keep) && ProcAt(u, keep + 1) == Syncing({r}, {}, {r})
    ensures forall p | p in u.procs && p != keep && p != keep + 1 :: u.procs[p].Idle?
  {
    var p := keep + 1;
    forall q | q in t.procs ensures Locks(t.procs[q]) !! {r} {
      assert q != keep ==> t.procs[q].Idle?;
    }
    Go(s, t, SyncLock(p, {r}));
    var locked := Apply(t, SyncLock(p, {r}));
    Go(s, locked, SyncUpsert(p, r));
    u := Apply(locked, SyncUpsert(p, r));
  }

  /** A sync about to mark a row goes on, its other upserts failing. */
  lemma Drain(s: Mirror, p: ProcId) returns (t: Mirror)
    requires Inv(s) && ProcAt(s, p).Syncing?
    ensures Reaches(s, t) && t.rows == s.rows && t.index == s.index
    ensures ProcAt(t, p) == Syncing(ProcAt(s, p).locked, {}, ProcAt(s, p).stored)
  {
    t := s;
    Stay(s);
    assert ProcOk(s, s.procs[p]);
    while ProcAt(t, p).todo != {}
      invariant Reaches(s, t) && t.rows == s.rows && t.index == s.index
      invariant ProcAt(t, p).Syncing? && ProcAt(t, p).todo <= ProcAt(s, p).todo
      invariant ProcAt(t, p).locked == ProcAt(s, p).locked && ProcAt(t, p).stored == ProcAt(s, p).stored
      decreases |ProcAt(t, p).todo|
    {
      var id :| id in ProcAt(t, p).todo;
      assert Live(s, id);
      Go(s, t, SyncFail(p, id, false));
      t := Apply(t, SyncFail(p, id, false));
    }
  }

  lemma MarkWithoutVector(s: Mirror, p: ProcId, r: RowId) returns (t: Mirror)
    requires Inv(s) && p in s.procs && Stored(s.procs[p], r) && Live(s, r) && VectorAt(s, r) !in s.index
    ensures Reaches(s, t) && Missing(t, r)
  {
    var u := Drain(s, p);
    Go(s, u, SyncCommit(p));
    t := Apply(u, SyncCommit(p));
  }

  /** A calm system in which the row is live and synced, and `keep` stands where it stood. */
  lemma Synced(s: Mirror, keep: ProcId, r: RowId) returns (t: Mirror)
    requires Live(s, r) && Locks(ProcAt(s, keep)) == {}
    ensures Reaches(s, t) && Live(t, r) && t.rows[r].synced && VectorAt(t, r) == VectorAt(s, r)
    ensures ProcAt(t, keep) == ProcAt(s, keep)
  {
    t := CalmDown(s, keep);
    if !t.rows[r].synced {
      var u := Upsert(s, t, keep, r);
      Go(s, u, SyncCommit(keep + 1));
      t := Apply(u, SyncCommit(keep + 1));
    }
  }

  /** A pass that has missed the vector goes on to the call that deletes it. */
  lemma Sweep(s: Mirror, t: Mirror, p: ProcId, v: Vector) returns (u: Mirror)
    requires Reaches(s, t) && p in t.procs && Missed(t.procs[p], v)
    ensures Reaches(s, u) && u.rows == t.rows && v !in u.index
  {
    u := t;
    while v in u.index && v !in ProcAt(u, p).doomed
      invariant p in u.procs && u.procs[p].Reconciling?
      invariant Reaches(s, u) && u.rows == t.rows && (v in u.index ==> Missed(u.procs[p], v))
      decreases |ProcAt(u, p).left|
    {
      if ProcAt(u, p).doomed != {} {
        Go(s, u, ReconcileDelete(p));
        u := Apply(u, ReconcileDelete(p));
      }
      if v in u.index {
        Go(s, u, ReconcileList(p));
        u := Apply(u, ReconcileList(p));
      }
    }
    if v in u.index {
      Go(s, u, ReconcileDelete(p));
      u := Apply(u, ReconcileDelete(p));
    }
  }

  /** Everything at risk can be lost. */
  lemma LossIsReachable(s: Mirror, r: RowId) returns (t: Mirror)
    requires Inv(s) && LossRisk(s, r)
    ensures Reaches(s, t) && Missing(t, r)
  {
    if Missing(s, r) {
      Stay(s);
      t := s;
    } else {
      var v := VectorAt(s, r);
      var p :| p in s.procs && Threatens(s, s.procs[p], r);
      if Stored(s.procs[p], r) {
        t := MarkWithoutVector(s, p, r);
      } else {
        assert ProcOk(s, s.procs[p]);
        t := Synced(s, p, r);
        if Selected(s.procs[p], r) {
          Go(s, t, EraseVectors(p, v.0));
          t := Apply(t, EraseVectors(p, v.0));
        } else {
          t := Sweep(s, t, p, v);
        }
      }
    }
  }

  /** A calm eraser with the namespaces in `rest` still to clear. */
  ghost predicate Clearing(t: Mirror, p: ProcId, batch: map<RowId, Namespace>, rest: set<Namespace>) {
    && Calm(t, p) && p in t.procs && t.procs[p].Erasing?
    && t.procs[p].batch == batch && batch.Values - rest <= t.procs[p].cleared && rest !! t.procs[p].cleared
  }

  lemma ClearOne(s: Mirror, t: Mirror, p: ProcId, batch: map<RowId, Namespace>, rest: set<Namespace>, ns: Namespace)
    returns (u: Mirror)
    requires Reaches(s, t) && Clearing(t, p, batch, rest) && ns in rest
    ensures Reaches(s, u) && Clearing(u, p, batch, rest - {ns})
    ensures u.rows == t.rows && forall v | v in t.index && v.0 != ns :: v in u.index
  {
    Go(s, t, EraseVectors(p, ns));
    u := Apply(t, EraseVectors(p, ns));
  }

  /** It goes on until it has cleared them all. */
  lemma {:induction false} ClearAll(s: Mirror, t: Mirror, p: ProcId, batch: map<RowId, Namespace>, rest: set<Namespace>)
    returns (u: Mirror)
    requires Reaches(s, t) && Clearing(t, p, batch, rest)
    ensures Reaches(s, u) && Clearing(u, p, batch, {})
    ensures u.rows == t.rows && forall v | v in t.index && v.0 !in rest :: v in u.index
    decreases |rest|
  {
    if rest == {} {
      u := t;
    } else {
      var ns :| ns in rest;
      u := ClearOne(s, t, p, batch, rest, ns);
      u := ClearAll(s, u, p, batch, rest - {ns});
    }
  }

  /** A calm eraser with everything cleared deletes its rows. */
  lemma Erase(s: Mirror, t: Mirror, p: ProcId, batch: map<RowId, Namespace>, r: RowId) returns (u: Mirror)
    requires Reaches(s, t) && Clearing(t, p, batch, {}) && r in batch
    requires r in t.rows && VectorAt(t, r) in t.index
    ensures Reaches(s, u) && Orphaned(u, r)
  {
    Go(s, t, EraseRows(p));
    u := Apply(t, EraseRows(p));
    assert VectorAt(t, r) in u.index;
  }

  /** A sync stores the vector again after the eraser has cleared it, and gives up before its commit. */
  lemma UpsertThenErase(s: Mirror, t: Mirror, p: ProcId, batch: map<RowId, Namespace>, r: RowId)
    returns (u: Mirror)
    requires Reaches(s, t) && Clearing(t, p, batch, {}) && r in batch
    requires Live(t, r) && !t.rows[r].synced
    ensures Reaches(s, u) && Orphaned(u, r)
  {
    var stored := Upsert(s, t, p, r);
    Go(s, stored, Abort(p + 1));
    u := Erase(s, Apply(stored, Abort(p + 1)), p, batch, r);
  }

  /** Everything at risk can be orphaned. */
  lemma OrphanIsReachable(s: Mirror, r: RowId) returns (t: Mirror)
    requires Inv(s) && OrphanRisk(s, r)
    ensures Reaches(s, t) && Orphaned(t, r)
  {
    if r !in s.rows {
      Stay(s);
      t := s;
    } else {
      var p :| p in s.procs && Overtaken(s, s.procs[p], r);
      var calm := CalmDown(s, p);
      var batch, done := s.procs[p].batch, s.procs[p].cleared;
      var cleared := ClearAll(s, calm, p, batch, batch.Values - done);
      if VectorAt(s, r).0 in done && VectorAt(s, r) in s.index {
        t := Erase(s, cleared, p, batch, r);
      } else {
        t := UpsertThenErase(s, cleared, p, batch, r);
      }
    }
  }

  // ---------------------------------------------------------------------------
  // The exact conditions
  // ---------------------------------------------------------------------------

  /** In some future in which no eraser selects the row anew, it is live and synced without its vector. */
  ghost predicate CanLose(s: Mirror, r: RowId) {
    exists actions :: CanRun(s, actions) && SparesAll(actions, r) && Missing(Run(s, actions), r)
  }

  ghost predicate CanOrphan(s: Mirror, r: RowId) {
    exists actions :: CanRun(s, actions) && SparesAll(actions, r) && Orphaned(Run(s, actions), r)
  }

  /** A row can lose its vector exactly when it is at risk of it. */
  lemma LossRiskIsExact(s: Mirror, r: RowId)
    requires Inv(s) && r in s.used
    ensures CanLose(s, r) <==> LossRisk(s, r)
  {
    if LossRisk(s, r) {
      var t := LossIsReachable(s, r);
      var actions :| CanRun(s, actions) && (forall a | a in actions :: NothingNew(a)) && Run(s, actions) == t;
      assert SparesAll(actions, r);
    }
    if CanLose(s, r) {
      var actions :| CanRun(s, actions) && SparesAll(actions, r) && Missing(Run(s, actions), r);
      RunAddsNoRisk(s, actions, r);
    }
  }

  /** A vector can outlive its row exactly when an eraser is about to overtake it. */
  lemma OrphanRiskIsExact(s: Mirror, r: RowId)
    requires Inv(s) && r in s.used
    ensures CanOrphan(s, r) <==> OrphanRisk(s, r)
  {
    if OrphanRisk(s, r) {
      var t := OrphanIsReachable(s, r);
      var actions :| CanRun(s, actions) && (forall a | a in actions :: NothingNew(a)) && Run(s, actions) == t;
      assert SparesAll(actions, r);
    }
    if CanOrphan(s, r) {
      var actions :| CanRun(s, actions) && SparesAll(actions, r) && Orphaned(Run(s, actions), r);
      RunAddsNoRisk(s, actions, r);
    }
  }

  /** An eraser that selects a live row puts it at risk at once. */
  lemma ErasureExposes(s: Mirror, p: ProcId, ids: set<RowId>, r: RowId)
    requires Inv(s) && Enabled(s, EraseSelect(p, ids)) && r in ids
    ensures LossRisk(Apply(s, EraseSelect(p, ids)), r)
    ensures OrphanRisk(Apply(s, EraseSelect(p, ids)), r) <==> !s.rows[r].synced || OrphanRisk(s, r)
  {
    var t := Apply(s, EraseSelect(p, ids));
    assert Selected(t.procs[p], r);
    if OrphanRisk(s, r) {
      var q :| q in s.procs && Overtaken(s, s.procs[q], r);
      assert t.procs[q] == s.procs[q] && Overtaken(t, t.procs[q], r);
    }
  }

  lemma {:induction false} RunSplit(s: Mirror, actions: seq<Action>, n: nat)
    requires CanRun(s, actions) && n <= |actions|
    ensures CanRun(s, actions[..n]) && CanRun(Run(s, actions[..n]), actions[n..])
    ensures Run(s, actions) == Run(Run(s, actions[..n]), actions[n..])
    decreases n
  {
    if n == 0 {
      assert actions[..0] == [] && actions[0..] == actions;
    } else {
      RunSplit(Apply(s, actions[0]), actions[1..], n - 1);
      assert actions[..n][1..] == actions[1..][..n - 1] && actions[n..] == actions[1..][n - 1..];
    }
  }

  /** The state after the first n actions of a run. */
  ghost function After(actions: seq<Action>, n: nat): Mirror
    requires CanRun(EMPTY, actions) && n <= |actions|
  {
    RunSplit(EMPTY, actions, n);
    Run(EMPTY, actions[..n])
  }

  /**
    Over every run, erasers included: take a row that ends up live and synced without its vector, or
    a vector that ends up without its row.  At every moment since the row's insertion it was at that
    risk, or some eraser selected it later.
   */
  lemma DisagreementIsExposed(actions: seq<Action>, r: RowId)
    requires CanRun(EMPTY, actions)
    ensures forall n | 0 <= n <= |actions| && r in After(actions, n).used && SparesAll(actions[n..], r) ::
              && (Missing(Run(EMPTY, actions), r) ==> LossRisk(After(actions, n), r))
              && (Orphaned(Run(EMPTY, actions), r) ==> OrphanRisk(After(actions, n), r))
  {
    forall n | 0 <= n <= |actions| && r in After(actions, n).used && SparesAll(actions[n..], r)
      ensures Missing(Run(EMPTY, actions), r) ==> LossRisk(After(actions, n), r)
      ensures Orphaned(Run(EMPTY, actions), r) ==> OrphanRisk(After(actions, n), r)
    {
      RunSplit(EMPTY, actions, n);
      RunKeepsInv(EMPTY, actions[..n]);
      RunAddsNoRisk(After(actions, n), actions[n..], r);
    }
  }

  // ---------------------------------------------------------------------------
  // Runs without exposure
  // ---------------------------------------------------------------------------

  /** Full agreement: no vector without its row, no live synced row without its vector. */
  ghost predicate Agreement(s: Mirror) {
    && (forall v | v in s.index :: v.1 in s.rows && s.rows[v.1].namespace == v.0)
    && (forall r | r in s.rows :: !Missing(s, r))
  }

  /** No row is at any risk. */
  ghost predicate Unexposed(s: Mirror) {
    s.erased == {} && forall r | r in s.used :: !LossRisk(s, r) && !OrphanRisk(s, r)
  }

  /** A new row that no pass in flight can take for an orphan. */
  ghost predicate Unmissed(s: Mirror, v: Vector) {
    forall p | p in s.procs :: !Missed(s.procs[p], v)
  }

  /** No eraser runs, and a row is only inserted when every pass in flight is done with its namespace. */
  ghost predicate Quiet(s: Mirror, actions: seq<Action>)
    requires CanRun(s, actions)
    decreases |actions|
  {
    actions == [] ||
    (&& !actions[0].EraseSelect?
     && (actions[0].Record? ==> Unmissed(s, (actions[0].namespace, actions[0].id)))
     && Quiet(Apply(s, actions[0]), actions[1..]))
  }

  lemma NewRowIsSafe(s: Mirror, a: Action)
    requires Inv(s) && Enabled(s, a) && a.Record? && Unmissed(s, (a.namespace, a.id))
    ensures !LossRisk(Apply(s, a), a.id) && !OrphanRisk(Apply(s, a), a.id)
  {
    forall p | p in s.procs ensures ProcOk(s, s.procs[p]) {}
  }

  lemma QuietStepExposesNothing(s: Mirror, a: Action)
    requires Inv(s) && Unexposed(s) && Enabled(s, a) && !a.EraseSelect?
    requires a.Record? ==> Unmissed(s, (a.namespace, a.id))
    ensures Unexposed(Apply(s, a))
  {
    forall r | r in Apply(s, a).used ensures !LossRisk(Apply(s, a), r) && !OrphanRisk(Apply(s, a), r) {
      if r in s.used {
        StepAddsNoLossRisk(s, a, r);
        StepAddsNoOrphanRisk(s, a, r);
      } else {
        NewRowIsSafe(s, a);
      }
    }
  }

  lemma {:induction false} QuietRunExposesNothing(s: Mirror, actions: seq<Action>)
    requires Inv(s) && Unexposed(s) && CanRun(s, actions) && Quiet(s, actions)
    ensures Inv(Run(s, actions)) && Unexposed(Run(s, actions))
    decreases |actions|
  {
    if actions != [] {
      StepKeepsInv(s, actions[0]);
      QuietStepExposesNothing(s, actions[0]);
      QuietRunExposesNothing(Apply(s, actions[0]), actions[1..]);
    }
  }

  /**
    Safety over every run: from the empty system, whatever the interleaving, the aborts and the
    failed index calls, a quiet run ends in full agreement.
   */
  lemma QuietRunsAgree(actions: seq<Action>)
    requires CanRun(EMPTY, actions) && Quiet(EMPTY, actions)
    ensures Agreement(Run(EMPTY, actions))
  {
    QuietRunExposesNothing(EMPTY, actions);
    var t := Run(EMPTY, actions);
    forall r | r in t.rows ensures !Missing(t, r) {
      assert r in t.used && !LossRisk(t, r);
    }
  }
}
