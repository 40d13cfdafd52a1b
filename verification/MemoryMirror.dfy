/**
  The table of memory rows and the vector index it mirrors, as one interleaved machine.

  Every actor is a process with a program counter: the sync worker, the soft and the hard
  half of the retention job, the reconciliation job and the user-memory eraser.  Vector
  effects are immediate, row effects appear at commit, row locks are skipped rather than
  awaited by the batch queries, and any process can abort between two of its actions.
  A vector's identifier is the text of its row's identifier, so both are a RowId here.
 */
module MemoryMirror {
  import opened Common

  type RowId = nat
  type ProcId = nat
  type Namespace = string
  type Vector = (Namespace, RowId)

  datatype Row = Row(namespace: Namespace, synced: bool, deleted: bool, expiresAt: Option<int>)

  /** What a process remembers between two of its actions. */
  datatype Proc =
    | Idle
    | Syncing(locked: set<RowId>, todo: set<RowId>, stored: set<RowId>)
    | SoftDeleting(locked: set<RowId>)
    | HardDeleting(batch: map<RowId, Namespace>, cleared: set<Namespace>)
    | Reconciling(active: set<Vector>, doomed: set<Vector>, left: seq<Namespace>)
    | Erasing(batch: map<RowId, Namespace>, cleared: set<Namespace>)

  /**
    `used` holds every row identifier ever issued; `erased` only records history, the rows some
    eraser has selected.
   */
  datatype Mirror = Mirror(
    rows: map<RowId, Row>,
    index: set<Vector>,
    procs: map<ProcId, Proc>,
    used: set<RowId>,
    erased: set<RowId>)

  datatype Action =
    | Record(id: RowId, namespace: Namespace, expiresAt: Option<int>)
    | SyncLock(p: ProcId, ids: set<RowId>)
    | SyncUpsert(p: ProcId, id: RowId)
    | SyncFail(p: ProcId, id: RowId, landed: bool)
    | SyncCommit(p: ProcId)
    | SoftLock(p: ProcId, ids: set<RowId>, now: int)
    | SoftCommit(p: ProcId)
    | HardSelect(p: ProcId, ids: set<RowId>)
    | HardVectors(p: ProcId, namespace: Namespace)
    | HardVectorsFail(p: ProcId, namespace: Namespace, lost: set<RowId>)
    | HardRows(p: ProcId)
    | ReconcileRead(p: ProcId, namespaces: seq<Namespace>)
    | ReconcileList(p: ProcId)
    | ReconcileDelete(p: ProcId)
    | ReconcileDeleteFail(p: ProcId, lost: set<RowId>)
    | ReconcileDone(p: ProcId)
    | EraseSelect(p: ProcId, ids: set<RowId>)
    | EraseVectors(p: ProcId, namespace: Namespace)
    | EraseVectorsFail(p: ProcId, namespace: Namespace, lost: set<RowId>)
    | EraseRows(p: ProcId)
    | Abort(p: ProcId)

  const EMPTY := Mirror(map[], {}, map[], {}, {})

  function ProcAt(s: Mirror, p: ProcId): Proc {
    if p in s.procs then s.procs[p] else Idle
  }

  function Locks(proc: Proc): set<RowId> {
    if proc.Syncing? || proc.SoftDeleting? then proc.locked else {}
  }

  ghost predicate Unlocked(s: Mirror, ids: set<RowId>) {
    forall p | p in s.procs :: Locks(s.procs[p]) !! ids
  }

  predicate Live(s: Mirror, r: RowId) {
    r in s.rows && !s.rows[r].deleted
  }

  predicate Expired(row: Row, now: int) {
    row.expiresAt.Some? && row.expiresAt.value < now
  }

  function ActiveVectors(s: Mirror): (active: set<Vector>) {
    set r | r in s.rows && !s.rows[r].deleted :: (s.rows[r].namespace, r)
  }

  function NamespacesOf(s: Mirror, ids: set<RowId>): map<RowId, Namespace>
    requires ids <= s.rows.Keys
  {
    map r | r in ids :: s.rows[r].namespace
  }

  function VectorsIn(batch: map<RowId, Namespace>, ns: Namespace): set<Vector> {
    set r | r in batch && batch[r] == ns :: (ns, r)
  }

  /** The vectors whose identifiers are in `lost`: what a failing call had already removed. */
  function Among(vectors: set<Vector>, lost: set<RowId>): set<Vector> {
    set v | v in vectors && v.1 in lost
  }

  function Listed(s: Mirror, ns: Namespace): set<Vector> {
    set v | v in s.index && v.0 == ns
  }

  ghost predicate Enabled(s: Mirror, a: Action) {
    match a
    case Record(id, _, _) => id !in s.used
    case SyncLock(p, ids) =>
      ProcAt(s, p).Idle? && Unlocked(s, ids) &&
      forall r | r in ids :: Live(s, r) && !s.rows[r].synced
    case SyncUpsert(p, id) => ProcAt(s, p).Syncing? && id in ProcAt(s, p).todo && id in s.rows
    case SyncFail(p, id, _) => ProcAt(s, p).Syncing? && id in ProcAt(s, p).todo && id in s.rows
    case SyncCommit(p) => ProcAt(s, p).Syncing? && ProcAt(s, p).todo == {}
    case SoftLock(p, ids, now) =>
      ProcAt(s, p).Idle? && Unlocked(s, ids) &&
      forall r | r in ids :: Live(s, r) && Expired(s.rows[r], now)
    case SoftCommit(p) => ProcAt(s, p).SoftDeleting?
    case HardSelect(p, ids) =>
      ProcAt(s, p).Idle? && Unlocked(s, ids) &&
      forall r | r in ids :: r in s.rows && s.rows[r].deleted
    case HardVectors(p, _) => ProcAt(s, p).HardDeleting?
    case HardVectorsFail(p, _, _) => ProcAt(s, p).HardDeleting?
    case HardRows(p) => ProcAt(s, p).HardDeleting? && ProcAt(s, p).batch.Values <= ProcAt(s, p).cleared
    case ReconcileRead(p, _) => ProcAt(s, p).Idle?
    case ReconcileList(p) => ProcAt(s, p).Reconciling? && ProcAt(s, p).doomed == {} && ProcAt(s, p).left != []
    case ReconcileDelete(p) => ProcAt(s, p).Reconciling?
    case ReconcileDeleteFail(p, _) => ProcAt(s, p).Reconciling?
    case ReconcileDone(p) => ProcAt(s, p).Reconciling? && ProcAt(s, p).doomed == {} && ProcAt(s, p).left == []
    case EraseSelect(p, ids) => ProcAt(s, p).Idle? && forall r | r in ids :: Live(s, r)
    case EraseVectors(p, ns) => ProcAt(s, p).Erasing? && ns !in ProcAt(s, p).cleared
    case EraseVectorsFail(p, ns, _) => ProcAt(s, p).Erasing? && ns !in ProcAt(s, p).cleared
    case EraseRows(p) =>
      ProcAt(s, p).Erasing? && ProcAt(s, p).batch.Values <= ProcAt(s, p).cleared &&
      Unlocked(s, ProcAt(s, p).batch.Keys)
    case Abort(p) => true
  }

  function MarkSynced(rows: map<RowId, Row>, ids: set<RowId>): map<RowId, Row> {
    map r | r in rows :: if r in ids then rows[r].(synced := true) else rows[r]
  }

  function MarkDeleted(rows: map<RowId, Row>, ids: set<RowId>): map<RowId, Row> {
    map r | r in rows :: if r in ids then rows[r].(deleted := true) else rows[r]
  }

  function To(s: Mirror, p: ProcId, proc: Proc): Mirror {
    s.(procs := s.procs[p := proc])
  }

  ghost function Apply(s: Mirror, a: Action): Mirror
    requires Enabled(s, a)
  {
    match a
    case Record(id, ns, expiresAt) =>
      s.(rows := s.rows[id := Row(ns, false, false, expiresAt)],
         used := s.used + {id})
    case SyncLock(p, ids) => To(s, p, Syncing(ids, ids, {}))
    case SyncUpsert(p, id) =>
      var proc := ProcAt(s, p);
      To(s, p, Syncing(proc.locked, proc.todo - {id}, proc.stored + {id}))
        .(index := s.index + {(s.rows[id].namespace, id)})
    case SyncFail(p, id, landed) =>
      // The upsert may have reached the index even though the call raised.
      var proc := ProcAt(s, p);
      To(s, p, Syncing(proc.locked, proc.todo - {id}, proc.stored))
        .(index := if landed then s.index + {(s.rows[id].namespace, id)} else s.index)
    case SyncCommit(p) => To(s, p, Idle).(rows := MarkSynced(s.rows, ProcAt(s, p).stored))
    case SoftLock(p, ids, _) => To(s, p, SoftDeleting(ids))
    case SoftCommit(p) => To(s, p, Idle).(rows := MarkDeleted(s.rows, ProcAt(s, p).locked))
    case HardSelect(p, ids) => To(s, p, HardDeleting(NamespacesOf(s, ids), {}))
    case HardVectors(p, ns) =>
      var proc := ProcAt(s, p);
      To(s, p, HardDeleting(proc.batch, proc.cleared + {ns}))
        .(index := s.index - VectorsIn(proc.batch, ns))
    case HardVectorsFail(p, ns, lost) =>
      To(s, p, Idle).(index := s.index - Among(VectorsIn(ProcAt(s, p).batch, ns), lost))
    case HardRows(p) => To(s, p, Idle).(rows := s.rows - ProcAt(s, p).batch.Keys)
    case ReconcileRead(p, namespaces) => To(s, p, Reconciling(ActiveVectors(s), {}, namespaces))
    case ReconcileList(p) =>
      var proc := ProcAt(s, p);
      To(s, p, Reconciling(proc.active, Listed(s, proc.left[0]) - proc.active, proc.left[1..]))
    case ReconcileDelete(p) =>
      var proc := ProcAt(s, p);
      To(s, p, Reconciling(proc.active, {}, proc.left)).(index := s.index - proc.doomed)
    case ReconcileDeleteFail(p, lost) =>
      To(s, p, Idle).(index := s.index - Among(ProcAt(s, p).doomed, lost))
    case ReconcileDone(p) => To(s, p, Idle)
    case EraseSelect(p, ids) => To(s, p, Erasing(NamespacesOf(s, ids), {})).(erased := s.erased + ids)
    case EraseVectors(p, ns) =>
      var proc := ProcAt(s, p);
      To(s, p, Erasing(proc.batch, proc.cleared + {ns}))
        .(index := s.index - VectorsIn(proc.batch, ns))
    case EraseVectorsFail(p, ns, lost) =>
      To(s, p, Idle).(index := s.index - Among(VectorsIn(ProcAt(s, p).batch, ns), lost))
    case EraseRows(p) => To(s, p, Idle).(rows := s.rows - ProcAt(s, p).batch.Keys)
    case Abort(p) => To(s, p, Idle)
  }

  ghost predicate CanRun(s: Mirror, actions: seq<Action>)
    decreases |actions|
  {
    actions == [] || (Enabled(s, actions[0]) && CanRun(Apply(s, actions[0]), actions[1..]))
  }

  ghost function Run(s: Mirror, actions: seq<Action>): Mirror
    requires CanRun(s, actions)
    decreases |actions|
  {
    if actions == [] then s else Run(Apply(s, actions[0]), actions[1..])
  }

  // ---------------------------------------------------------------------------
  // The inductive invariant
  // ---------------------------------------------------------------------------

  /** Every vector has a mirror row in its own namespace, unless an eraser has selected its row. */
  ghost predicate VectorsHaveRows(s: Mirror) {
    forall v | v in s.index ::
      && (v.1 in s.erased || v.1 in s.rows)
      && (v.1 in s.rows ==> s.rows[v.1].namespace == v.0)
  }

  ghost predicate ProcOk(s: Mirror, proc: Proc) {
    match proc
    case Idle => true
    case Syncing(locked, todo, stored) =>
      && todo <= locked && stored <= locked
      && (forall r | r in locked :: Live(s, r) && !s.rows[r].synced)
    case SoftDeleting(locked) => forall r | r in locked :: Live(s, r)
    case HardDeleting(batch, cleared) =>
      forall r | r in batch ::
        && r in s.used
        && (r in s.rows ==> s.rows[r].deleted && s.rows[r].namespace == batch[r])
        && (batch[r] in cleared ==> (batch[r], r) !in s.index)
    case Reconciling(_, _, _) => true
    case Erasing(batch, _) =>
      && batch.Keys <= s.erased && batch.Keys <= s.used
      && (forall r | r in batch && r in s.rows :: s.rows[r].namespace == batch[r])
  }

  ghost predicate ProcsOk(s: Mirror) {
    forall p | p in s.procs :: ProcOk(s, s.procs[p])
  }

  ghost predicate LocksDisjoint(s: Mirror) {
    forall p, q | p in s.procs && q in s.procs && p != q :: Locks(s.procs[p]) !! Locks(s.procs[q])
  }

  ghost predicate Inv(s: Mirror) {
    && VectorsHaveRows(s)
    && ProcsOk(s)
    && LocksDisjoint(s)
    && s.rows.Keys <= s.used
    && s.erased <= s.used
  }

  lemma StepKeepsLocks(s: Mirror, a: Action)
    requires Inv(s) && Enabled(s, a)
    ensures LocksDisjoint(Apply(s, a))
    ensures Apply(s, a).rows.Keys <= Apply(s, a).used && Apply(s, a).erased <= Apply(s, a).used
  {
  }

  lemma StepKeepsVectorsHaveRows(s: Mirror, a: Action)
    requires Inv(s) && Enabled(s, a)
    ensures VectorsHaveRows(Apply(s, a))
  {
  }

  // The acting process and every bystander keep their own part of the invariant.
  lemma StepKeepsSyncing(s: Mirror, a: Action, q: ProcId)
    requires Inv(s) && Enabled(s, a) && q in Apply(s, a).procs && Apply(s, a).procs[q].Syncing?
    ensures ProcOk(Apply(s, a), Apply(s, a).procs[q])
  {
    if q in s.procs {
      assert ProcOk(s, s.procs[q]);
    }
  }

  lemma StepKeepsSoftDeleting(s: Mirror, a: Action, q: ProcId)
    requires Inv(s) && Enabled(s, a) && q in Apply(s, a).procs && Apply(s, a).procs[q].SoftDeleting?
    ensures ProcOk(Apply(s, a), Apply(s, a).procs[q])
  {
    if q in s.procs {
      assert ProcOk(s, s.procs[q]);
    }
  }

  lemma StepKeepsHardDeleting(s: Mirror, a: Action, q: ProcId)
    requires Inv(s) && Enabled(s, a) && q in Apply(s, a).procs && Apply(s, a).procs[q].HardDeleting?
    ensures ProcOk(Apply(s, a), Apply(s, a).procs[q])
  {
    if q in s.procs {
      assert ProcOk(s, s.procs[q]);
    }
  }

  lemma StepKeepsErasing(s: Mirror, a: Action, q: ProcId)
    requires Inv(s) && Enabled(s, a) && q in Apply(s, a).procs && Apply(s, a).procs[q].Erasing?
    ensures ProcOk(Apply(s, a), Apply(s, a).procs[q])
  {
    if q in s.procs {
      assert ProcOk(s, s.procs[q]);
    }
  }

  lemma StepKeepsProc(s: Mirror, a: Action, q: ProcId)
    requires Inv(s) && Enabled(s, a) && q in Apply(s, a).procs
    ensures ProcOk(Apply(s, a), Apply(s, a).procs[q])
  {
    match Apply(s, a).procs[q]
    case Idle =>
    case Syncing(_, _, _) => StepKeepsSyncing(s, a, q);
    case SoftDeleting(_) => StepKeepsSoftDeleting(s, a, q);
    case HardDeleting(_, _) => StepKeepsHardDeleting(s, a, q);
    case Reconciling(_, _, _) =>
    case Erasing(_, _) => StepKeepsErasing(s, a, q);
  }

  lemma StepKeepsInv(s: Mirror, a: Action)
    requires Inv(s) && Enabled(s, a)
    ensures Inv(Apply(s, a))
  {
    StepKeepsLocks(s, a);
    StepKeepsVectorsHaveRows(s, a);
    forall q | q in Apply(s, a).procs ensures ProcOk(Apply(s, a), Apply(s, a).procs[q]) {
      StepKeepsProc(s, a, q);
    }
  }

  lemma {:induction false} RunKeepsInv(s: Mirror, actions: seq<Action>)
    requires Inv(s) && CanRun(s, actions)
    ensures Inv(Run(s, actions))
    decreases |actions|
  {
    if actions != [] {
      StepKeepsInv(s, actions[0]);
      RunKeepsInv(Apply(s, actions[0]), actions[1..]);
    }
  }

  // ---------------------------------------------------------------------------
  // What never comes back
  // ---------------------------------------------------------------------------

  /** Neither the row nor a vector of it is there any more. */
  ghost predicate Gone(s: Mirror, r: RowId) {
    r in s.used && r !in s.rows && forall v | v in s.index :: v.1 != r
  }

  lemma {:induction false} GoneStays(s: Mirror, actions: seq<Action>, r: RowId)
    requires Inv(s) && CanRun(s, actions) && Gone(s, r)
    ensures Gone(Run(s, actions), r)
    decreases |actions|
  {
    if actions != [] {
      StepKeepsInv(s, actions[0]);
      GoneStep(s, actions[0], r);
      GoneStays(Apply(s, actions[0]), actions[1..], r);
    }
  }

  lemma GoneStep(s: Mirror, a: Action, r: RowId)
    requires Inv(s) && Enabled(s, a) && Gone(s, r)
    ensures Gone(Apply(s, a), r)
  {
    forall p | p in s.procs ensures ProcOk(s, s.procs[p]) {}
  }

  /**
    Hard deletion is final: a row it removes leaves no vector behind, and neither ever comes back,
    whatever runs afterwards and whoever had selected the row before.
   */
  lemma HardDeletionIsFinal(s: Mirror, p: ProcId, actions: seq<Action>, r: RowId)
    requires Inv(s) && Enabled(s, HardRows(p)) && r in ProcAt(s, p).batch && r in s.rows
    requires CanRun(Apply(s, HardRows(p)), actions)
    ensures Gone(Run(Apply(s, HardRows(p)), actions), r)
  {
    var t := Apply(s, HardRows(p));
    assert ProcOk(s, s.procs[p]) && ProcAt(s, p).batch[r] in ProcAt(s, p).batch.Values;
    assert Gone(t, r);
    StepKeepsInv(s, HardRows(p));
    GoneStays(t, actions, r);
  }

  /** A row that has left the table without any eraser having selected it is gone for good. */
  lemma UnerasedRowsAreGone(s: Mirror, actions: seq<Action>, r: RowId)
    requires Inv(s) && CanRun(s, actions) && r in s.used && r !in s.rows && r !in s.erased
    ensures Gone(Run(s, actions), r)
  {
    GoneStays(s, actions, r);
  }

  /** A row whose vector is gone although it is marked synced, or that is deleted without a vector. */
  ghost predicate Lost(s: Mirror, r: RowId) {
    r in s.used &&
    (r in s.rows ==> (s.rows[r].synced || s.rows[r].deleted) && (s.rows[r].namespace, r) !in s.index)
  }

  /** Nothing ever restores a lost vector: the sync worker only selects unsynced rows. */
  lemma {:induction false} LostVectorsStayLost(s: Mirror, actions: seq<Action>, r: RowId)
    requires Inv(s) && CanRun(s, actions) && Lost(s, r)
    ensures Lost(Run(s, actions), r)
    decreases |actions|
  {
    if actions != [] {
      StepKeepsInv(s, actions[0]);
      LostStep(s, actions[0], r);
      LostVectorsStayLost(Apply(s, actions[0]), actions[1..], r);
    }
  }

  lemma LostStep(s: Mirror, a: Action, r: RowId)
    requires Inv(s) && Enabled(s, a) && Lost(s, r)
    ensures Lost(Apply(s, a), r)
  {
    forall p | p in s.procs ensures ProcOk(s, s.procs[p]) {}
  }

  // ---------------------------------------------------------------------------
  // The two races, by concrete runs
  // ---------------------------------------------------------------------------

  /**
    The reconciliation job reads the table before it lists the vectors.  A row inserted and
    synced between the two is taken for an orphan: it ends up live and synced without a vector.
   */
  lemma ReconciliationCanLoseAVector(ns: Namespace)
    ensures var actions := [ReconcileRead(0, [ns]), Record(7, ns, None)] +
                           [SyncLock(1, {7}), SyncUpsert(1, 7), SyncCommit(1)] +
                           [ReconcileList(0), ReconcileDelete(0)];
            CanRun(EMPTY, actions) && Lost(Run(EMPTY, actions), 7) && Live(Run(EMPTY, actions), 7)
  {
    var sweep := [ReconcileList(0), ReconcileDelete(0)];
    var sync := [SyncLock(1, {7}), SyncUpsert(1, 7), SyncCommit(1)] + sweep;
    var idle := map[0 := Reconciling({}, {}, [ns])];
    var read := Mirror(map[], {}, idle, {}, {});
    var recorded := Mirror(map[7 := Row(ns, false, false, None)], {}, idle, {7}, {});
    RaceTail(ns, recorded);
    assert ActiveVectors(EMPTY) == {};
    assert Apply(EMPTY, ReconcileRead(0, [ns])) == read;
    assert Apply(read, Record(7, ns, None)) == recorded;
    RunCons(read, Record(7, ns, None), sync);
    RunCons(EMPTY, ReconcileRead(0, [ns]), [Record(7, ns, None)] + sync);
    assert [ReconcileRead(0, [ns])] + ([Record(7, ns, None)] + sync) ==
           [ReconcileRead(0, [ns]), Record(7, ns, None)] + [SyncLock(1, {7}), SyncUpsert(1, 7), SyncCommit(1)] + sweep;
  }

  /** The sync of a row that the reconciliation pass in flight has not seen, then the sweep. */
  lemma RaceTail(ns: Namespace, s: Mirror)
    requires s == Mirror(map[7 := Row(ns, false, false, None)], {}, map[0 := Reconciling({}, {}, [ns])], {7}, {})
    ensures var actions := [SyncLock(1, {7}), SyncUpsert(1, 7), SyncCommit(1)] + [ReconcileList(0), ReconcileDelete(0)];
            CanRun(s, actions) && Lost(Run(s, actions), 7) && Live(Run(s, actions), 7)
  {
    var locked := Apply(s, SyncLock(1, {7}));
    var stored := Apply(locked, SyncUpsert(1, 7));
    var synced := Apply(stored, SyncCommit(1));
    var sweep := [ReconcileList(0), ReconcileDelete(0)];
    assert synced.procs[0] == Reconciling({}, {}, [ns]) && synced.index == {(ns, 7)};
    SweepTail(ns, synced);
    RunCons(stored, SyncCommit(1), sweep);
    RunCons(locked, SyncUpsert(1, 7), [SyncCommit(1)] + sweep);
    RunCons(s, SyncLock(1, {7}), [SyncUpsert(1, 7)] + ([SyncCommit(1)] + sweep));
    assert [SyncLock(1, {7})] + ([SyncUpsert(1, 7)] + ([SyncCommit(1)] + sweep)) ==
           [SyncLock(1, {7}), SyncUpsert(1, 7), SyncCommit(1)] + sweep;
  }

  lemma SweepTail(ns: Namespace, s: Mirror)
    requires s.rows == map[7 := Row(ns, true, false, None)] && s.index == {(ns, 7)} && s.used == {7}
    requires 0 in s.procs && s.procs[0] == Reconciling({}, {}, [ns])
    ensures var actions := [ReconcileList(0), ReconcileDelete(0)];
            CanRun(s, actions) && Lost(Run(s, actions), 7) && Live(Run(s, actions), 7)
  {
    var listed := Apply(s, ReconcileList(0));
    assert listed.procs[0].doomed == {(ns, 7)};
    RunCons(listed, ReconcileDelete(0), []);
    RunCons(s, ReconcileList(0), [ReconcileDelete(0)]);
    assert [ReconcileList(0)] + [ReconcileDelete(0)] == [ReconcileList(0), ReconcileDelete(0)];
  }

  /** An eraser reads rows without locking them, so an erase racing a sync leaves an orphan vector. */
  lemma ErasureCanLeaveAnOrphan(ns: Namespace)
    ensures var actions := [Record(7, ns, None), SyncLock(1, {7}), EraseSelect(2, {7})] +
                           [EraseVectors(2, ns), SyncUpsert(1, 7), SyncCommit(1), EraseRows(2)];
            && CanRun(EMPTY, actions)
            && (ns, 7) in Run(EMPTY, actions).index
            && 7 !in Run(EMPTY, actions).rows
  {
    var tail := [EraseVectors(2, ns), SyncUpsert(1, 7), SyncCommit(1), EraseRows(2)];
    var head := [Record(7, ns, None), SyncLock(1, {7}), EraseSelect(2, {7})];
    var s1 := Apply(EMPTY, Record(7, ns, None));
    var s2 := Apply(s1, SyncLock(1, {7}));
    var s3 := Mirror(map[7 := Row(ns, false, false, None)], {},
                     map[1 := Syncing({7}, {7}, {}), 2 := Erasing(map[7 := ns], {})], {7}, {7});
    assert NamespacesOf(s2, {7}) == map[7 := ns];
    assert Apply(s2, EraseSelect(2, {7})) == s3;
    OrphanTail(ns, s3);
    RunCons(s2, EraseSelect(2, {7}), tail);
    RunCons(s1, SyncLock(1, {7}), [EraseSelect(2, {7})] + tail);
    RunCons(EMPTY, Record(7, ns, None), [SyncLock(1, {7})] + ([EraseSelect(2, {7})] + tail));
    assert [Record(7, ns, None)] + ([SyncLock(1, {7})] + ([EraseSelect(2, {7})] + tail)) == head + tail;
  }

  /** The eraser clears the index, the sync then stores and commits, and the row is deleted last. */
  lemma OrphanTail(ns: Namespace, s: Mirror)
    requires s == Mirror(map[7 := Row(ns, false, false, None)], {},
                         map[1 := Syncing({7}, {7}, {}), 2 := Erasing(map[7 := ns], {})], {7}, {7})
    ensures var actions := [EraseVectors(2, ns), SyncUpsert(1, 7), SyncCommit(1), EraseRows(2)];
            CanRun(s, actions) && (ns, 7) in Run(s, actions).index && 7 !in Run(s, actions).rows
  {
    var cleared := Apply(s, EraseVectors(2, ns));
    assert cleared.rows == s.rows && cleared.procs[1] == s.procs[1] && cleared.procs[2].cleared == {ns};
    var stored := Apply(cleared, SyncUpsert(1, 7));
    assert stored.rows == s.rows && (ns, 7) in stored.index && stored.procs[1].todo == {};
    assert stored.procs[1].stored == {7} && stored.procs[2] == cleared.procs[2];
    var rest := [SyncCommit(1), EraseRows(2)];
    OrphanEnd(ns, stored);
    RunCons(cleared, SyncUpsert(1, 7), rest);
    RunCons(s, EraseVectors(2, ns), [SyncUpsert(1, 7)] + rest);
    assert [EraseVectors(2, ns)] + ([SyncUpsert(1, 7)] + rest) ==
           [EraseVectors(2, ns), SyncUpsert(1, 7), SyncCommit(1), EraseRows(2)];
  }

  lemma OrphanEnd(ns: Namespace, s: Mirror)
    requires s.rows == map[7 := Row(ns, false, false, None)] && (ns, 7) in s.index
    requires s.procs.Keys == {1, 2} && s.procs[1].Syncing? && s.procs[1].todo == {}
    requires s.procs[2].Erasing? && s.procs[2].batch == map[7 := ns] && s.procs[2].cleared == {ns}
    ensures var actions := [SyncCommit(1), EraseRows(2)];
            CanRun(s, actions) && (ns, 7) in Run(s, actions).index && 7 !in Run(s, actions).rows
  {
    var synced := Apply(s, SyncCommit(1));
    RunCons(synced, EraseRows(2), []);
    RunCons(s, SyncCommit(1), [EraseRows(2)]);
    assert [SyncCommit(1)] + [EraseRows(2)] == [SyncCommit(1), EraseRows(2)];
  }

  lemma RunCons(s: Mirror, a: Action, rest: seq<Action>)
    requires Enabled(s, a) && CanRun(Apply(s, a), rest)
    ensures CanRun(s, [a] + rest) && Run(s, [a] + rest) == Run(Apply(s, a), rest)
  {
    assert ([a] + rest)[1..] == rest;
  }
}
