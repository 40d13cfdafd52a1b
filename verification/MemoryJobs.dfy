/**
  The background jobs of long-term memory as they run on the store: sync, reconciliation and
  retention.  Database queries, embeddings and vector calls are foreign, so which rows an embedding
  or an index call fails for, and whether a commit succeeds, are parameters.
 */
module MemoryJobs {
  import opened Common
  import opened Batches
  import opened MemoryMirror

  datatype StoredRow = StoredRow(
    namespace: Namespace,
    createdAt: int,
    expiresAt: Option<int>,
    syncedAt: Option<int>,
    deletedAt: Option<int>,
    retries: nat)

  datatype Candidate = Candidate(createdAt: int, expiresAt: int)

  datatype JobError = CommitFailed | IndexUnavailable(namespace: Namespace)

  datatype RetentionResult = RetentionResult(
    softDeleted: nat, hardDeleted: nat, deletedVectors: nat, deletedCandidates: nat)

  /** The failures of one retention pass: commits, index calls, and what a failing call had removed. */
  datatype PurgeWorld = PurgeWorld(
    softCommits: bool, unavailable: set<Namespace>, lost: set<Vector>, hardCommits: bool, candidatesCommit: bool)

  const SMOOTH := PurgeWorld(true, {}, {}, true, true)

  type Table = map<RowId, StoredRow>

  function CreatedOrder(rows: Table): map<RowId, int> {
    map r | r in rows :: rows[r].createdAt
  }

  function DeletedOrder(rows: Table): map<RowId, int> {
    map r | r in rows :: if rows[r].deletedAt.Some? then rows[r].deletedAt.value else 0
  }

  function CandidateOrder(candidates: map<RowId, Candidate>): map<RowId, int> {
    map c | c in candidates :: candidates[c].createdAt
  }

  predicate IsExpired(expiresAt: Option<int>, now: int) {
    expiresAt.Some? && expiresAt.value < now
  }

  function Unsynced(rows: Table): set<RowId> {
    set r | r in rows && rows[r].syncedAt.None? && rows[r].deletedAt.None?
  }

  function ExpiredLive(rows: Table, now: int): set<RowId> {
    set r | r in rows && rows[r].deletedAt.None? && IsExpired(rows[r].expiresAt, now)
  }

  function SoftDeleted(rows: Table): set<RowId> {
    set r | r in rows && rows[r].deletedAt.Some?
  }

  function ExpiredCandidates(candidates: map<RowId, Candidate>, now: int): set<RowId> {
    set c | c in candidates && candidates[c].expiresAt < now
  }

  function VectorOf(rows: Table, r: RowId): Vector
    requires r in rows
  {
    (rows[r].namespace, r)
  }

  /** The vectors of the live rows. */
  function Active(rows: Table): set<Vector> {
    set r | r in rows && rows[r].deletedAt.None? :: VectorOf(rows, r)
  }

  function Orphans(rows: Table, index: set<Vector>, namespaces: seq<Namespace>): set<Vector> {
    set v | v in index && v.0 in namespaces && v !in Active(rows)
  }

  // ---------------------------------------------------------------------------
  // What a query takes, field by field
  // ---------------------------------------------------------------------------

  /** The oldest rows that are neither synced nor deleted, and all of them when they fit. */
  ghost predicate TakesOldestUnsynced(rows: Table, batch: seq<RowId>, batchSize: nat) {
    && |batch| <= batchSize
    && (forall r | r in batch :: r in rows && rows[r].syncedAt.None? && rows[r].deletedAt.None?)
    && (forall x | x in rows && x !in batch && rows[x].syncedAt.None? && rows[x].deletedAt.None? ::
          |batch| == batchSize && forall r | r in batch :: rows[r].createdAt <= rows[x].createdAt)
  }

  /** The oldest live rows past their expiry, and all of them when they fit. */
  ghost predicate TakesOldestDue(rows: Table, batch: seq<RowId>, batchSize: nat, now: int) {
    && |batch| <= batchSize
    && (forall r | r in batch ::
          r in rows && rows[r].deletedAt.None? && rows[r].expiresAt.Some? && rows[r].expiresAt.value < now)
    && (forall x | x in rows && x !in batch && rows[x].deletedAt.None? ::
          || rows[x].expiresAt.None? || rows[x].expiresAt.value >= now
          || (|batch| == batchSize && forall r | r in batch :: rows[r].createdAt <= rows[x].createdAt))
  }

  /** The rows deleted first, and all deleted rows when they fit. */
  ghost predicate TakesFirstDeleted(rows: Table, batch: seq<RowId>, batchSize: nat) {
    && |batch| <= batchSize
    && (forall r | r in batch :: r in rows && rows[r].deletedAt.Some?)
    && (forall x | x in rows && x !in batch && rows[x].deletedAt.Some? ::
          |batch| == batchSize && forall r | r in batch :: rows[r].deletedAt.value <= rows[x].deletedAt.value)
  }

  /** The oldest candidates past their expiry, and all of them when they fit. */
  ghost predicate TakesOldestCandidates(candidates: map<RowId, Candidate>, batch: seq<RowId>, batchSize: nat, now: int) {
    && |batch| <= batchSize
    && (forall c | c in batch :: c in candidates && candidates[c].expiresAt < now)
    && (forall x | x in candidates && x !in batch && candidates[x].expiresAt < now ::
          |batch| == batchSize && forall c | c in batch :: candidates[c].createdAt <= candidates[x].createdAt)
  }

  lemma UnsyncedByFields(rows: Table, batch: seq<RowId>, batchSize: nat)
    requires IsBatch(batch, Unsynced(rows), CreatedOrder(rows), batchSize)
    ensures TakesOldestUnsynced(rows, batch, batchSize)
  {
    forall r | r in batch ensures r in Unsynced(rows) {
      assert r in Elements(batch);
    }
    forall x | x in rows && x !in batch && rows[x].syncedAt.None? && rows[x].deletedAt.None?
      ensures |batch| == batchSize && forall r | r in batch :: rows[r].createdAt <= rows[x].createdAt
    {
      LeftOutOfFull(batch, Unsynced(rows), CreatedOrder(rows), batchSize, x);
    }
  }

  lemma DueByFields(rows: Table, batch: seq<RowId>, batchSize: nat, now: int)
    requires IsBatch(batch, ExpiredLive(rows, now), CreatedOrder(rows), batchSize)
    ensures TakesOldestDue(rows, batch, batchSize, now)
  {
    forall r | r in batch ensures r in ExpiredLive(rows, now) {
      assert r in Elements(batch);
    }
    forall x | x in rows && x !in batch && rows[x].deletedAt.None? && rows[x].expiresAt.Some? && rows[x].expiresAt.value < now
      ensures |batch| == batchSize && forall r | r in batch :: rows[r].createdAt <= rows[x].createdAt
    {
      LeftOutOfFull(batch, ExpiredLive(rows, now), CreatedOrder(rows), batchSize, x);
    }
  }

  lemma DeletedByFields(rows: Table, batch: seq<RowId>, batchSize: nat)
    requires IsBatch(batch, SoftDeleted(rows), DeletedOrder(rows), batchSize)
    ensures TakesFirstDeleted(rows, batch, batchSize)
  {
    forall r | r in batch ensures r in SoftDeleted(rows) {
      assert r in Elements(batch);
    }
    forall x | x in rows && x !in batch && rows[x].deletedAt.Some?
      ensures |batch| == batchSize && forall r | r in batch :: rows[r].deletedAt.value <= rows[x].deletedAt.value
    {
      LeftOutOfFull(batch, SoftDeleted(rows), DeletedOrder(rows), batchSize, x);
    }
  }

  lemma CandidatesByFields(candidates: map<RowId, Candidate>, batch: seq<RowId>, batchSize: nat, now: int)
    requires IsBatch(batch, ExpiredCandidates(candidates, now), CandidateOrder(candidates), batchSize)
    ensures TakesOldestCandidates(candidates, batch, batchSize, now)
  {
    forall c | c in batch ensures c in ExpiredCandidates(candidates, now) {
      assert c in Elements(batch);
    }
    forall x | x in candidates && x !in batch && candidates[x].expiresAt < now
      ensures |batch| == batchSize && forall c | c in batch :: candidates[c].createdAt <= candidates[x].createdAt
    {
      LeftOutOfFull(batch, ExpiredCandidates(candidates, now), CandidateOrder(candidates), batchSize, x);
    }
  }

  ghost predicate SyncedPresent(rows: Table, index: set<Vector>) {
    forall r | r in rows && rows[r].syncedAt.Some? && rows[r].deletedAt.None? :: VectorOf(rows, r) in index
  }

  /** What one pass of the sync loop leaves of a row. */
  function AfterSync(row: StoredRow, stored: bool, now: int): StoredRow {
    if stored then row.(syncedAt := Some(now)) else row.(retries := row.retries + 1)
  }

  /** The table after the rows in `done` went through the sync loop. */
  function SyncTable(rows: Table, done: set<RowId>, stored: set<RowId>, now: int): Table {
    map r | r in rows :: if r in done then AfterSync(rows[r], r in stored, now) else rows[r]
  }

  function VectorsOf(rows: Table, ids: set<RowId>): set<Vector> {
    set r | r in ids && r in rows :: VectorOf(rows, r)
  }

  /** The index after the rows in `done` went through the sync loop: upserts take effect at once. */
  function SyncIndex(rows: Table, index: set<Vector>, done: set<RowId>, upserted: set<RowId>): set<Vector> {
    index + VectorsOf(rows, done * upserted)
  }

  lemma SyncStep(rows: Table, index: set<Vector>, records: seq<RowId>, i: nat,
                 stored: set<RowId>, upserted: set<RowId>, now: int)
    requires i < |records| && Distinct(records) && Elements(records) <= rows.Keys && stored <= upserted
    ensures var x, done, next := records[i], Elements(records[..i]), Elements(records[..i + 1]);
            && x in rows
            && SyncTable(rows, done, stored, now)[x] == rows[x]
            && SyncTable(rows, next, stored, now)
               == SyncTable(rows, done, stored, now)[x := AfterSync(rows[x], x in stored, now)]
            && SyncIndex(rows, index, next, upserted)
               == if x in upserted then SyncIndex(rows, index, done, upserted) + {VectorOf(rows, x)}
                  else SyncIndex(rows, index, done, upserted)
  {
    var x := records[i];
    assert x in Elements(records);
    assert records[..i + 1] == records[..i] + [x];
    assert Elements(records[..i + 1]) == Elements(records[..i]) + {x};
    assert x !in Elements(records[..i]);
  }

  lemma OrphansSnoc(rows: Table, index: set<Vector>, namespaces: seq<Namespace>, i: nat, swept: set<Vector>)
    requires i < |namespaces|
    requires swept == Orphans(rows, index - Orphans(rows, index, namespaces[..i]), [namespaces[i]])
    ensures Orphans(rows, index, namespaces[..i + 1]) == Orphans(rows, index, namespaces[..i]) + swept
    ensures Orphans(rows, index, namespaces[..i]) !! swept
  {
    assert namespaces[..i + 1] == namespaces[..i] + [namespaces[i]];
  }

  class MemoryStore {
    var rows: Table
    var index: set<Vector>
    var candidates: map<RowId, Candidate>

    constructor (rows: Table, index: set<Vector>, candidates: map<RowId, Candidate>)
      ensures this.rows == rows && this.index == index && this.candidates == candidates
    {
      this.rows, this.index, this.candidates := rows, index, candidates;
    }

    /** One record of the sync loop: embed and upsert, or count the failure. */
    method SyncRecord(record: RowId, session: Table, now: int, stored: set<RowId>, landed: set<RowId>)
      returns (updated: Table)
      requires record in session
      modifies this`index
      ensures updated == session[record := AfterSync(session[record], record in stored, now)]
      ensures index == if record in stored + landed then old(index) + {VectorOf(session, record)} else old(index)
    {
      var row := session[record];
      if record in stored {
        index := index + {VectorOf(session, record)};
        return session[record := row.(syncedAt := Some(now))];
      }
      if record in landed {
        index := index + {VectorOf(session, record)};
      }
      return session[record := row.(retries := row.retries + 1)];
    }

    /**
      One pass of the vector sync worker.  `stored` are the rows whose embedding and upsert
      succeed, `landed` those whose upsert raised after it had taken effect.
     */
    method SyncOnce(batchSize: nat, now: int, stored: set<RowId>, landed: set<RowId>, commits: bool)
      returns (result: Result<nat, JobError>, ghost batch: seq<RowId>)
      modifies this`rows, this`index
      ensures IsBatch(batch, Unsynced(old(rows)), CreatedOrder(old(rows)), batchSize)
      ensures TakesOldestUnsynced(old(rows), batch, batchSize)
      ensures result == if commits then Ok(|batch|) else Err(CommitFailed)
      ensures index == SyncIndex(old(rows), old(index), Elements(batch), stored + landed)
      ensures rows == if commits then SyncTable(old(rows), Elements(batch), stored, now) else old(rows)
    {
      var table := rows;
      var records := Fetch(Unsynced(table), CreatedOrder(table), batchSize);
      batch := records;
      UnsyncedByFields(table, batch, batchSize);
      var session := table;
      for i := 0 to |records|
        invariant rows == table
        invariant session == SyncTable(table, Elements(records[..i]), stored, now)
        invariant index == SyncIndex(table, old(index), Elements(records[..i]), stored + landed)
      {
        SyncStep(table, old(index), records, i, stored, stored + landed, now);
        session := SyncRecord(records[i], session, now, stored, landed);
      }
      assert records[..|records|] == records;
      if !commits {
        return Err(CommitFailed), batch;
      }
      rows := session;
      return Ok(|records|), batch;
    }

    /** One namespace of a reconciliation pass: what is listed and not active goes. */
    method SweepNamespace(ns: Namespace, activeIds: map<Namespace, set<RowId>>) returns (deleted: nat)
      requires forall n, r :: (n in activeIds && r in activeIds[n]) <==> (n, r) in Active(rows)
      modifies this`index
      ensures index == old(index) - Orphans(rows, old(index), [ns])
      ensures deleted == |Orphans(rows, old(index), [ns])|
    {
      var orphanIds := ListIds(index, ns) - (if ns in activeIds then activeIds[ns] else {});
      SweptAreOrphans(rows, index, ns, orphanIds);
      if orphanIds != {} {
        index := index - Tagged(ns, orphanIds);
      }
      return |orphanIds|;
    }

    /** One reconciliation pass, run as one step; the configured namespaces may repeat. */
    method ReconcileOnce(namespaces: seq<Namespace>) returns (deletedCount: nat)
      modifies this`index
      ensures index == old(index) - Orphans(rows, old(index), namespaces)
      ensures deletedCount == |Orphans(rows, old(index), namespaces)|
    {
      var activeIds := CollectActive(rows);
      deletedCount := 0;
      for i := 0 to |namespaces|
        invariant index == old(index) - Orphans(rows, old(index), namespaces[..i])
        invariant deletedCount == |Orphans(rows, old(index), namespaces[..i])|
      {
        OrphansSnoc(rows, old(index), namespaces, i, Orphans(rows, index, [namespaces[i]]));
        var deleted := SweepNamespace(namespaces[i], activeIds);
        deletedCount := deletedCount + deleted;
      }
      assert namespaces[..|namespaces|] == namespaces;
    }

    /** The worker's loop until a pass finds nothing, with every embedding and upsert succeeding. */
    method Drain(batchSize: nat, now: int)
      requires batchSize >= 1 && SyncedPresent(rows, index)
      modifies this`rows, this`index
      ensures rows.Keys == old(rows).Keys && Unsynced(rows) == {} && Active(rows) == Active(old(rows))
      ensures index == old(index) + Active(rows)
    {
      var pending := true;
      while pending
        invariant rows.Keys == old(rows).Keys
        invariant SyncedPresent(rows, index) && Active(rows) == Active(old(rows))
        invariant old(index) <= index <= old(index) + Active(old(rows))
        invariant !pending ==> Unsynced(rows) == {}
        decreases |Unsynced(rows)|, pending
      {
        ghost var before, index0 := rows, index;
        var result, batch := SyncOnce(batchSize, now, Unsynced(rows), {}, true);
        pending := result.value != 0;
        DrainStep(before, index0, batch, now);
      }
      DrainedIsPresent(rows, index);
    }

    /** Draining and then one reconciliation pass. */
    method DrainAndReconcile(batchSize: nat, now: int, namespaces: seq<Namespace>)
      returns (deletedCount: nat)
      requires batchSize >= 1 && SyncedPresent(rows, index)
      modifies this`rows, this`index
      ensures index == (old(index) - Orphans(old(rows), old(index), namespaces)) + Active(old(rows))
      ensures deletedCount == |Orphans(old(rows), old(index), namespaces)|
      ensures forall ns, r | ns in namespaces :: (ns, r) in index <==> (ns, r) in Active(rows)
      ensures Unsynced(rows) == {} && Active(rows) == Active(old(rows))
      ensures rows.Keys == old(rows).Keys
    {
      Drain(batchSize, now);
      assert Orphans(rows, index, namespaces) == Orphans(old(rows), old(index), namespaces);
      deletedCount := ReconcileOnce(namespaces);
    }

    /** First half of retention: expired live rows are marked deleted, once the transaction commits. */
    method SoftDeleteExpired(batchSize: nat, now: int, commits: bool)
      returns (result: Result<nat, JobError>, ghost batch: seq<RowId>)
      modifies this`rows
      ensures IsBatch(batch, ExpiredLive(old(rows), now), CreatedOrder(old(rows)), batchSize)
      ensures TakesOldestDue(old(rows), batch, batchSize, now)
      ensures batch == [] && batchSize >= 1 ==>
                forall r | r in rows && rows[r].deletedAt.None? :: rows[r].expiresAt.None? || rows[r].expiresAt.value >= now
      ensures result == if commits || batch == [] then Ok(|batch|) else Err(CommitFailed)
      ensures rows == if result.Ok? then SoftDelete(old(rows), Elements(batch), now) else old(rows)
    {
      var expired := Fetch(ExpiredLive(rows, now), CreatedOrder(rows), batchSize);
      batch := expired;
      DueByFields(rows, batch, batchSize, now);
      if expired == [] {
        assert SoftDelete(rows, Elements(expired), now) == rows;
        return Ok(0), batch;
      }
      var session := rows;
      for i := 0 to |expired|
        invariant session == SoftDelete(rows, Elements(expired[..i]), now)
      {
        assert expired[i] in Elements(expired);
        assert expired[..i + 1] == expired[..i] + [expired[i]];
        assert expired[i] !in Elements(expired[..i]);
        session := session[expired[i] := session[expired[i]].(deletedAt := Some(now))];
      }
      assert expired[..|expired|] == expired;
      if !commits {
        return Err(CommitFailed), batch;
      }
      rows := session;
      return Ok(|expired|), batch;
    }

    /**
      The vector calls of the second half, one per namespace.  `unavailable` are the namespaces whose
      call raises, `lost` what it had already removed.
     */
    method DeleteVectors(ids: set<RowId>, grouped: map<Namespace, seq<RowId>>, unavailable: set<Namespace>, lost: set<Vector>)
      returns (failed: Option<Namespace>, deletable: seq<RowId>, deletedVectors: nat, ghost cleared: set<Namespace>)
      requires ids <= rows.Keys && IsGrouping(rows, ids, grouped)
      modifies this`index
      ensures cleared <= grouped.Keys && cleared !! unavailable
      ensures if failed.Some? then failed.value in unavailable * grouped.Keys else cleared == grouped.Keys
      ensures failed.None? ==>
                Distinct(deletable) && Elements(deletable) == InNamespaces(rows, ids, cleared) && deletedVectors == |deletable|
      ensures index == HardIndex(rows, old(index), ids, cleared, failed, lost)
    {
      deletable, deletedVectors, cleared := [], 0, {};
      var pending := grouped.Keys;
      while pending != {}
        invariant pending <= grouped.Keys && cleared == grouped.Keys - pending && cleared !! unavailable
        invariant Distinct(deletable) && deletedVectors == |deletable|
        invariant Elements(deletable) == InNamespaces(rows, ids, cleared)
        invariant index == old(index) - VectorsOf(rows, Elements(deletable))
        decreases |pending|
      {
        var ns :| ns in pending;
        GroupDone(rows, ids, grouped, cleared, deletable, ns);
        if ns in unavailable {
          index := index - (Tagged(ns, Elements(grouped[ns])) * lost);
          return Some(ns), deletable, deletedVectors, cleared;
        }
        index := index - Tagged(ns, Elements(grouped[ns]));
        deletedVectors := deletedVectors + |grouped[ns]|;
        deletable := deletable + grouped[ns];
        pending, cleared := pending - {ns}, cleared + {ns};
      }
      failed := None;
    }

    /** Second half: the vectors go first, and the rows only when every vector call has succeeded. */
    method DeleteSoftDeletedBatch(batchSize: nat, unavailable: set<Namespace>, lost: set<Vector>, commits: bool)
      returns (result: Result<(nat, nat), JobError>, ghost batch: seq<RowId>, ghost cleared: set<Namespace>)
      modifies this`rows, this`index
      ensures IsBatch(batch, SoftDeleted(old(rows)), DeletedOrder(old(rows)), batchSize)
      ensures TakesFirstDeleted(old(rows), batch, batchSize)
      ensures result.Ok? <==> batch == [] || (commits && InNamespaces(old(rows), Elements(batch), unavailable) == {})
      ensures result.Ok? ==> result.value == (|batch|, |batch|)
      ensures rows == if result.Ok? then old(rows) - Elements(batch) else old(rows)
      ensures cleared !! unavailable
      ensures match result
              case Err(IndexUnavailable(ns)) => ns in unavailable && InNamespace(old(rows), Elements(batch), ns) != {}
              case _ => forall r | r in batch :: r in old(rows) && old(rows)[r].namespace in cleared
      ensures index == HardIndex(old(rows), old(index), Elements(batch), cleared, FailedAt(result), lost)
    {
      var softDeleted := Fetch(SoftDeleted(rows), DeletedOrder(rows), batchSize);
      batch, cleared := softDeleted, {};
      DeletedByFields(rows, batch, batchSize);
      if softDeleted == [] {
        assert index == HardIndex(rows, index, Elements(batch), {}, None, lost);
        return Ok((0, 0)), batch, cleared;
      }
      var grouped := GroupByNamespace(rows, softDeleted);
      ghost var ids := Elements(softDeleted);
      var failed, deletable, deletedVectors;
      failed, deletable, deletedVectors, cleared := DeleteVectors(Elements(softDeleted), grouped, unavailable, lost);
      if failed.Some? {
        UnavailableInBatch(rows, ids, grouped, unavailable, failed.value);
        return Err(IndexUnavailable(failed.value)), batch, cleared;
      }
      GroupsCoverBatch(rows, softDeleted, grouped, deletable, unavailable);
      if !commits {
        return Err(CommitFailed), batch, cleared;
      }
      rows := rows - Elements(deletable);
      return Ok((|deletable|, deletedVectors)), batch, cleared;
    }

    method DeleteExpiredCandidates(batchSize: nat, now: int, commits: bool)
      returns (result: Result<nat, JobError>, ghost batch: seq<RowId>)
      modifies this`candidates
      ensures IsBatch(batch, ExpiredCandidates(old(candidates), now), CandidateOrder(old(candidates)), batchSize)
      ensures TakesOldestCandidates(old(candidates), batch, batchSize, now)
      ensures result == if commits then Ok(|batch|) else Err(CommitFailed)
      ensures candidates == if result.Ok? then old(candidates) - Elements(batch) else old(candidates)
    {
      var expired := Fetch(ExpiredCandidates(candidates, now), CandidateOrder(candidates), batchSize);
      batch := expired;
      CandidatesByFields(candidates, batch, batchSize, now);
      if !commits {
        return Err(CommitFailed), batch;
      }
      candidates := candidates - Elements(expired);
      return Ok(|expired|), batch;
    }

    /** Both halves of the retention of rows, with any failures. */
    method PurgeRows(batchSize: nat, now: int, world: PurgeWorld)
      returns (result: Result<(nat, nat, nat), JobError>, ghost work: nat)
      requires batchSize >= 1
      modifies this`rows, this`index
      ensures RowsLeft(rows, now) + work == RowsLeft(old(rows), now)
      ensures result.Ok? ==>
                && work == result.value.0 + result.value.1 && result.value.1 == result.value.2
                && (work == 0 <==> RowsLeft(old(rows), now) == 0)
      ensures world == SMOOTH ==> result.Ok?
      ensures Retained(rows, now) == Retained(old(rows), now)
      ensures rows.Keys <= old(rows).Keys
      ensures forall r | r in rows :: rows[r].namespace == old(rows)[r].namespace
      ensures VectorsGone(old(rows), rows, old(index), index)
      ensures result.Ok? ==> index == old(index) - VectorsOf(old(rows), old(rows).Keys - rows.Keys)
    {
      ghost var rows0 := rows;
      var softDeleted, soft := SoftDeleteExpired(batchSize, now, world.softCommits);
      if softDeleted.Err? {
        return Err(softDeleted.error), 0;
      }
      SoftDeleteMoves(rows0, soft, now);
      ghost var rows1 := rows;
      var deleted, hard, cleared := DeleteSoftDeletedBatch(batchSize, world.unavailable, world.lost, world.hardCommits);
      HardDeleteRemoves(rows1, hard, now);
      SoftThenHard(rows0, rows1, old(index), soft, hard, cleared, FailedAt(deleted), world.lost, now);
      if deleted.Err? {
        return Err(deleted.error), |soft|;
      }
      return Ok((softDeleted.value, deleted.value.0, deleted.value.1)), |soft| + |hard|;
    }

    /**
      One retention pass, with any failures: `work` is how much of the measure it did before it
      ended.  A pass that raises has still done that much and nothing else.
     */
    method PurgeOnce(batchSize: nat, now: int, world: PurgeWorld)
      returns (result: Result<RetentionResult, JobError>, ghost work: nat)
      requires batchSize >= 1
      modifies this
      ensures Potential(rows, candidates, now) + work == Potential(old(rows), old(candidates), now)
      ensures result.Ok? ==>
                && work == result.value.softDeleted + result.value.hardDeleted + result.value.deletedCandidates
                && result.value.hardDeleted == result.value.deletedVectors
                && (work == 0 <==> Potential(old(rows), old(candidates), now) == 0)
      ensures world == SMOOTH ==> result.Ok?
      ensures Retained(rows, now) == Retained(old(rows), now)
      ensures RetainedCandidates(candidates, now) == RetainedCandidates(old(candidates), now)
      ensures rows.Keys <= old(rows).Keys
      ensures forall r | r in rows :: rows[r].namespace == old(rows)[r].namespace
      ensures VectorsGone(old(rows), rows, old(index), index)
      ensures result.Ok? ==> index == old(index) - VectorsOf(old(rows), old(rows).Keys - rows.Keys)
    {
      var purged;
      purged, work := PurgeRows(batchSize, now, world);
      if purged.Err? {
        return Err(purged.error), work;
      }
      ghost var candidates0 := candidates;
      var deletedCandidates, dropped := DeleteExpiredCandidates(batchSize, now, world.candidatesCommit);
      if deletedCandidates.Err? {
        return Err(deletedCandidates.error), work;
      }
      CandidatesRemoved(candidates0, dropped, now);
      var (softDeleted, hardDeleted, deletedVectors) := purged.value;
      return Ok(RetentionResult(softDeleted, hardDeleted, deletedVectors, deletedCandidates.value)), work + |dropped|;
    }

    /** Passes repeated until one finds nothing: exactly the expired and the deleted rows are gone. */
    method PurgeUntilClean(batchSize: nat, now: int) returns (passes: nat)
      requires batchSize >= 1
      modifies this
      ensures forall r :: r in rows <==>
                r in old(rows) && old(rows)[r].deletedAt.None? &&
                (old(rows)[r].expiresAt.None? || old(rows)[r].expiresAt.value >= now)
      ensures forall r | r in rows :: rows[r] == old(rows)[r]
      ensures forall c :: c in candidates <==> c in old(candidates) && old(candidates)[c].expiresAt >= now
      ensures forall c | c in candidates :: candidates[c] == old(candidates)[c]
      ensures index == old(index) - VectorsOf(old(rows), old(rows).Keys - rows.Keys)
      ensures passes <= Potential(old(rows), old(candidates), now)
    {
      passes := 0;
      while Potential(rows, candidates, now) != 0
        invariant passes + Potential(rows, candidates, now) <= Potential(old(rows), old(candidates), now)
        invariant Retained(rows, now) == Retained(old(rows), now)
        invariant RetainedCandidates(candidates, now) == RetainedCandidates(old(candidates), now)
        invariant rows.Keys <= old(rows).Keys
        invariant forall r | r in rows :: rows[r].namespace == old(rows)[r].namespace
        invariant index == old(index) - VectorsOf(old(rows), old(rows).Keys - rows.Keys)
        decreases Potential(rows, candidates, now)
      {
        var result, work := PurgeOnce(batchSize, now, SMOOTH);
        passes := passes + 1;
      }
      NothingLeft(rows, candidates, now);
    }
  }

  /** Live vectors grouped by namespace, as the reconciliation job builds them. */
  method CollectActive(rows: Table) returns (activeIds: map<Namespace, set<RowId>>)
    ensures forall ns, r :: (ns in activeIds && r in activeIds[ns]) <==> (ns, r) in Active(rows)
  {
    activeIds := map[];
    var rest := set r | r in rows && rows[r].deletedAt.None?;
    while rest != {}
      invariant forall r | r in rest :: r in rows && rows[r].deletedAt.None?
      invariant forall ns, r :: (ns in activeIds && r in activeIds[ns]) <==>
        (ns, r) in Active(rows) && r !in rest
      decreases |rest|
    {
      var r :| r in rest;
      rest := rest - {r};
      var ns := rows[r].namespace;
      var ids := if ns in activeIds then activeIds[ns] else {};
      activeIds := activeIds[ns := ids + {r}];
    }
  }

  function ListIds(index: set<Vector>, ns: Namespace): set<RowId> {
    set v | v in index && v.0 == ns :: v.1
  }

  function Tagged(ns: Namespace, ids: set<RowId>): set<Vector> {
    set r | r in ids :: (ns, r)
  }

  lemma {:induction false} TaggedCount(ns: Namespace, ids: set<RowId>)
    ensures |Tagged(ns, ids)| == |ids|
    decreases |ids|
  {
    if ids != {} {
      var x :| x in ids;
      TaggedCount(ns, ids - {x});
      assert Tagged(ns, ids) == Tagged(ns, ids - {x}) + {(ns, x)};
    }
  }

  lemma SweptAreOrphans(rows: Table, index: set<Vector>, ns: Namespace, ids: set<RowId>)
    requires forall r :: r in ids <==> r in ListIds(index, ns) && (ns, r) !in Active(rows)
    ensures Tagged(ns, ids) == Orphans(rows, index, [ns]) && |Tagged(ns, ids)| == |ids|
  {
    TaggedCount(ns, ids);
    forall v ensures v in Tagged(ns, ids) <==> v in Orphans(rows, index, [ns]) {
      if v in Orphans(rows, index, [ns]) {
        assert v == (ns, v.1) && v.1 in ListIds(index, ns);
      }
    }
  }

  /** A sync pass in which every embedding succeeds. */
  lemma DrainStep(rows: Table, index: set<Vector>, batch: seq<RowId>, now: int)
    requires SyncedPresent(rows, index) && Elements(batch) <= Unsynced(rows)
    ensures var after := SyncTable(rows, Elements(batch), Unsynced(rows), now);
            var index' := SyncIndex(rows, index, Elements(batch), Unsynced(rows) + {});
            && SyncedPresent(after, index')
            && Active(after) == Active(rows)
            && index <= index' <= index + Active(rows)
            && Unsynced(after) == Unsynced(rows) - Elements(batch)
            && (batch != [] ==> |Unsynced(after)| < |Unsynced(rows)|)
  {
    var after := SyncTable(rows, Elements(batch), Unsynced(rows), now);
    var index' := SyncIndex(rows, index, Elements(batch), Unsynced(rows) + {});
    forall r | r in rows ensures after[r].namespace == rows[r].namespace && after[r].deletedAt == rows[r].deletedAt {}
    forall r | r in Elements(batch) ensures VectorOf(rows, r) in index' {}
    if batch != [] {
      assert batch[0] in Elements(batch);
      StrictSubsetCount(Unsynced(after), Unsynced(rows));
    }
  }

  lemma DrainedIsPresent(rows: Table, index: set<Vector>)
    requires SyncedPresent(rows, index) && Unsynced(rows) == {}
    ensures Active(rows) <= index
  {
    forall r | r in rows && rows[r].deletedAt.None? ensures VectorOf(rows, r) in index {
      assert r !in Unsynced(rows);
    }
  }

  // ---------------------------------------------------------------------------
  // Retention
  // ---------------------------------------------------------------------------

  function SoftDelete(rows: Table, ids: set<RowId>, now: int): Table {
    map r | r in rows :: if r in ids then rows[r].(deletedAt := Some(now)) else rows[r]
  }

  /** Work left for the retention job: each expired live row still needs two steps. */
  function RowsLeft(rows: Table, now: int): nat {
    2 * |ExpiredLive(rows, now)| + |SoftDeleted(rows)|
  }

  function Potential(rows: Table, candidates: map<RowId, Candidate>, now: int): nat {
    RowsLeft(rows, now) + |ExpiredCandidates(candidates, now)|
  }

  /** The rows retention must never touch: live, and without an expiry or not past it. */
  function Retained(rows: Table, now: int): Table {
    map r | r in rows && rows[r].deletedAt.None? && (rows[r].expiresAt.None? || rows[r].expiresAt.value >= now) :: rows[r]
  }

  function RetainedCandidates(candidates: map<RowId, Candidate>, now: int): map<RowId, Candidate> {
    map c | c in candidates && candidates[c].expiresAt >= now :: candidates[c]
  }

  /** The batch split by namespace: each group is a list of distinct rows, none is empty. */
  ghost predicate IsGrouping(rows: Table, done: set<RowId>, grouped: map<Namespace, seq<RowId>>)
    requires done <= rows.Keys
  {
    && (forall r | r in done :: rows[r].namespace in grouped)
    && (forall ns | ns in grouped ::
          && grouped[ns] != [] && Distinct(grouped[ns])
          && Elements(grouped[ns]) == InNamespace(rows, done, ns))
  }

  function InNamespace(rows: Table, ids: set<RowId>, ns: Namespace): set<RowId> {
    set r | r in ids && r in rows && rows[r].namespace == ns
  }

  function InNamespaces(rows: Table, ids: set<RowId>, namespaces: set<Namespace>): set<RowId> {
    set r | r in ids && r in rows && rows[r].namespace in namespaces
  }

  lemma GroupingStep(rows: Table, done: set<RowId>, grouped: map<Namespace, seq<RowId>>, x: RowId)
    requires done <= rows.Keys && x in rows && x !in done && IsGrouping(rows, done, grouped)
    ensures var ns := rows[x].namespace;
            var group := if ns in grouped then grouped[ns] else [];
            IsGrouping(rows, done + {x}, grouped[ns := group + [x]])
  {
    var ns := rows[x].namespace;
    var group := if ns in grouped then grouped[ns] else [];
    assert Elements(group) == InNamespace(rows, done, ns);
    assert forall r | r in group :: r in Elements(group);
    assert Elements(group + [x]) == Elements(group) + {x};
    forall m | m in grouped && m != ns ensures InNamespace(rows, done + {x}, m) == InNamespace(rows, done, m) {}
  }

  /** A vector's identifier is its row's, so the two dictionaries of the job are one map here. */
  method GroupByNamespace(rows: Table, batch: seq<RowId>) returns (grouped: map<Namespace, seq<RowId>>)
    requires Distinct(batch) && Elements(batch) <= rows.Keys
    ensures IsGrouping(rows, Elements(batch), grouped)
  {
    grouped := map[];
    for i := 0 to |batch|
      invariant Elements(batch[..i]) <= rows.Keys
      invariant IsGrouping(rows, Elements(batch[..i]), grouped)
    {
      var row := batch[i];
      assert row in Elements(batch);
      assert batch[..i + 1] == batch[..i] + [row];
      assert Elements(batch[..i + 1]) == Elements(batch[..i]) + {row};
      GroupingStep(rows, Elements(batch[..i]), grouped, row);
      var group := if rows[row].namespace in grouped then grouped[rows[row].namespace] else [];
      grouped := grouped[rows[row].namespace := group + [row]];
    }
    assert batch[..|batch|] == batch;
  }

  /** One namespace of a grouping handed over: its rows join the deletable list. */
  lemma GroupDone(rows: Table, ids: set<RowId>, grouped: map<Namespace, seq<RowId>>,
                  done: set<Namespace>, deletable: seq<RowId>, ns: Namespace)
    requires ids <= rows.Keys && IsGrouping(rows, ids, grouped) && ns in grouped && ns !in done
    requires Distinct(deletable) && Elements(deletable) == InNamespaces(rows, ids, done)
    ensures Distinct(deletable + grouped[ns])
    ensures Elements(deletable + grouped[ns]) == InNamespaces(rows, ids, done + {ns})
    ensures VectorsOf(rows, Elements(deletable + grouped[ns]))
            == VectorsOf(rows, Elements(deletable)) + Tagged(ns, Elements(grouped[ns]))
  {
    var group := grouped[ns];
    assert Elements(group) == InNamespace(rows, ids, ns);
    DistinctAppend(deletable, group);
    assert VectorsOf(rows, Elements(group)) == Tagged(ns, Elements(group)) by {
      forall r | r in Elements(group) ensures VectorOf(rows, r) == (ns, r) {}
    }
  }

  /** The index after the vectors of `cleared` went, and a failing call removed a part of its own. */
  function HardIndex(rows: Table, index: set<Vector>, ids: set<RowId>, cleared: set<Namespace>,
                     failed: Option<Namespace>, lost: set<Vector>): set<Vector>
  {
    var rest := index - VectorsOf(rows, InNamespaces(rows, ids, cleared));
    if failed.Some? then rest - (Tagged(failed.value, InNamespace(rows, ids, failed.value)) * lost) else rest
  }

  function FailedAt<T>(result: Result<T, JobError>): Option<Namespace> {
    if result.Err? && result.error.IndexUnavailable? then Some(result.error.namespace) else None
  }

  /** A complete grouping hands over the whole batch, each row once. */
  lemma GroupsCoverBatch(rows: Table, batch: seq<RowId>, grouped: map<Namespace, seq<RowId>>, deletable: seq<RowId>,
                         unavailable: set<Namespace>)
    requires Distinct(batch) && Elements(batch) <= rows.Keys && IsGrouping(rows, Elements(batch), grouped)
    requires Distinct(deletable) && Elements(deletable) == InNamespaces(rows, Elements(batch), grouped.Keys)
    ensures Elements(deletable) == Elements(batch) && |deletable| == |batch|
    ensures grouped.Keys !! unavailable ==> InNamespaces(rows, Elements(batch), unavailable) == {}
  {
    assert Elements(deletable) == Elements(batch);
    DistinctCount(batch);
    DistinctCount(deletable);
  }

  lemma UnavailableInBatch(rows: Table, ids: set<RowId>, grouped: map<Namespace, seq<RowId>>,
                           unavailable: set<Namespace>, ns: Namespace)
    requires ids <= rows.Keys && IsGrouping(rows, ids, grouped)
    requires ns in grouped && ns in unavailable
    ensures InNamespaces(rows, ids, unavailable) != {} && InNamespace(rows, ids, ns) != {}
  {
    assert grouped[ns][0] in Elements(grouped[ns]);
    assert grouped[ns][0] in InNamespaces(rows, ids, unavailable);
  }

  /** Vectors of removed rows are gone, those of rows that are still live were not touched. */
  ghost predicate VectorsGone(before: Table, after: Table, index: set<Vector>, index': set<Vector>) {
    && index' <= index - VectorsOf(before, before.Keys - after.Keys)
    && forall r | r in after && after[r].deletedAt.None? :: VectorOf(after, r) in index ==> VectorOf(after, r) in index'
  }

  /** Both halves together, when the second one ends early and when it does not. */
  lemma SoftThenHard(rows0: Table, rows1: Table, index: set<Vector>, soft: seq<RowId>, hard: seq<RowId>,
                     cleared: set<Namespace>, failed: Option<Namespace>, lost: set<Vector>, now: int)
    requires Elements(soft) <= rows0.Keys && rows1 == SoftDelete(rows0, Elements(soft), now)
    requires Elements(hard) <= SoftDeleted(rows1)
    ensures var index' := HardIndex(rows1, index, Elements(hard), cleared, failed, lost);
            && VectorsGone(rows0, rows1, index, index')
            && (failed.None? && (forall r | r in hard :: r in rows1 && rows1[r].namespace in cleared) ==>
                  && index' == index - VectorsOf(rows0, rows0.Keys - (rows1 - Elements(hard)).Keys)
                  && VectorsGone(rows0, rows1 - Elements(hard), index, index'))
  {
    forall r | r in rows0 ensures VectorOf(rows0, r) == VectorOf(rows1, r) {}
    assert rows0.Keys - rows1.Keys == {};
    assert rows0.Keys - (rows1 - Elements(hard)).Keys == Elements(hard);
    if forall r | r in hard :: r in rows1 && rows1[r].namespace in cleared {
      assert InNamespaces(rows1, Elements(hard), cleared) == Elements(hard);
    }
    assert VectorsOf(rows0, Elements(hard)) == VectorsOf(rows1, Elements(hard));
  }

  lemma NothingLeft(rows: Table, candidates: map<RowId, Candidate>, now: int)
    requires Potential(rows, candidates, now) == 0
    ensures rows == Retained(rows, now) && candidates == RetainedCandidates(candidates, now)
  {
    forall c | c in candidates ensures c in RetainedCandidates(candidates, now) {
      assert c !in ExpiredCandidates(candidates, now);
    }
    forall r | r in rows ensures r in Retained(rows, now) {
      assert r !in ExpiredLive(rows, now) && r !in SoftDeleted(rows);
    }
  }

  lemma SoftDeleteSplits(rows: Table, ids: set<RowId>, now: int)
    requires ids <= ExpiredLive(rows, now)
    ensures var after := SoftDelete(rows, ids, now);
            && ExpiredLive(after, now) == ExpiredLive(rows, now) - ids
            && SoftDeleted(after) == SoftDeleted(rows) + ids
            && Retained(after, now) == Retained(rows, now)
  {
    var after := SoftDelete(rows, ids, now);
    forall r | r in rows && r !in ids ensures after[r] == rows[r] {}
    forall r | r in ids ensures r in rows && after[r].deletedAt.Some? {}
  }

  lemma SoftDeleteMoves(rows: Table, batch: seq<RowId>, now: int)
    requires Distinct(batch) && Elements(batch) <= ExpiredLive(rows, now)
    ensures var after := SoftDelete(rows, Elements(batch), now);
            && |ExpiredLive(after, now)| == |ExpiredLive(rows, now)| - |batch|
            && |SoftDeleted(after)| == |SoftDeleted(rows)| + |batch|
            && Retained(after, now) == Retained(rows, now)
            && after.Keys == rows.Keys
  {
    SoftDeleteSplits(rows, Elements(batch), now);
    DistinctCount(batch);
    assert ExpiredLive(rows, now) == (ExpiredLive(rows, now) - Elements(batch)) + Elements(batch);
    assert SoftDeleted(rows) !! Elements(batch);
  }

  lemma HardDeleteRemoves(rows: Table, batch: seq<RowId>, now: int)
    requires Distinct(batch) && Elements(batch) <= SoftDeleted(rows)
    ensures var after := rows - Elements(batch);
            && |ExpiredLive(after, now)| == |ExpiredLive(rows, now)|
            && |SoftDeleted(after)| == |SoftDeleted(rows)| - |batch|
            && Retained(after, now) == Retained(rows, now)
  {
    var after := rows - Elements(batch);
    DistinctCount(batch);
    assert ExpiredLive(after, now) == ExpiredLive(rows, now);
    assert SoftDeleted(rows) == SoftDeleted(after) + Elements(batch);
  }

  lemma CandidatesRemoved(candidates: map<RowId, Candidate>, batch: seq<RowId>, now: int)
    requires Distinct(batch) && Elements(batch) <= ExpiredCandidates(candidates, now)
    ensures var after := candidates - Elements(batch);
            && |ExpiredCandidates(after, now)| == |ExpiredCandidates(candidates, now)| - |batch|
            && RetainedCandidates(after, now) == RetainedCandidates(candidates, now)
  {
    DistinctCount(batch);
    assert ExpiredCandidates(candidates, now)
        == ExpiredCandidates(candidates - Elements(batch), now) + Elements(batch);
  }
}
