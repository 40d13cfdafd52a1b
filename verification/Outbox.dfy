/**
  The outbox publisher: rows wait in a table until their message has reached the broker.

  Publishing takes effect at once, row changes only at commit.  Which publish calls return, which
  raise after the message had landed, and whether a commit succeeds are parameters.
 */
module Outbox {
  import opened Common
  import opened Batches
  import opened Sums

  type RowId = nat

  datatype Row = Row(publishedAt: Option<int>, retries: nat)

  type Table = map<RowId, Row>

  datatype PublishError = CommitFailed

  /** A pass over `batch`: `acked` publishes return, `landed` ones raise although the message arrived. */
  datatype Event =
    | Enqueue(id: RowId)
    | Pass(batch: seq<RowId>, acked: set<RowId>, landed: set<RowId>, now: int, commits: bool)

  datatype State = State(rows: Table, broker: multiset<RowId>)

  function IdOrder(rows: Table): map<RowId, int> {
    map r | r in rows :: r
  }

  function Eligible(rows: Table, maxRetries: nat): set<RowId> {
    set r | r in rows && rows[r].publishedAt.None? && rows[r].retries < maxRetries
  }

  function Attempted(row: Row, acked: bool, now: int): Row {
    if acked then row.(publishedAt := Some(now)) else row.(retries := row.retries + 1)
  }

  function After(rows: Table, ids: set<RowId>, acked: set<RowId>, now: int): Table {
    map r | r in rows :: if r in ids then Attempted(rows[r], r in acked, now) else rows[r]
  }

  /** Rows locked by other transactions are skipped, so a batch is any part of the eligible rows. */
  ghost predicate Enabled(s: State, e: Event, maxRetries: nat) {
    match e
    case Enqueue(id) => id !in s.rows
    case Pass(batch, _, _, _, _) => Distinct(batch) && Elements(batch) <= Eligible(s.rows, maxRetries)
  }

  function Apply(s: State, e: Event): State {
    match e
    case Enqueue(id) => s.(rows := s.rows[id := Row(None, 0)])
    case Pass(batch, acked, landed, now, commits) =>
      State(if commits then After(s.rows, Elements(batch), acked, now) else s.rows,
            s.broker + multiset(Elements(batch) * (acked + landed)))
  }

  ghost predicate CanRun(s: State, events: seq<Event>, maxRetries: nat)
    decreases |events|
  {
    events == [] || (Enabled(s, events[0], maxRetries) && CanRun(Apply(s, events[0]), events[1..], maxRetries))
  }

  function Run(s: State, events: seq<Event>): State
    decreases |events|
  {
    if events == [] then s else Run(Apply(s, events[0]), events[1..])
  }

  /** A row marked published has its message in the broker, and no row is retried too often. */
  ghost predicate Safe(s: State, maxRetries: nat) {
    && (forall r | r in s.rows && s.rows[r].publishedAt.Some? :: r in s.broker)
    && (forall r | r in s.rows :: s.rows[r].retries <= maxRetries)
  }

  /** Over every run, with failures, lost acknowledgements and aborted commits. */
  lemma {:induction false} RunIsSafe(s: State, events: seq<Event>, maxRetries: nat)
    requires Safe(s, maxRetries) && CanRun(s, events, maxRetries)
    ensures Safe(Run(s, events), maxRetries)
    decreases |events|
  {
    if events != [] {
      var e, t := events[0], Apply(s, events[0]);
      assert Safe(t, maxRetries) by {
        if e.Pass? {
          forall r | r in t.rows && t.rows[r].publishedAt.Some? ensures r in t.broker {
            if r !in s.broker {
              assert r in Elements(e.batch) * (e.acked + e.landed);
            }
          }
        }
      }
      RunIsSafe(t, events[1..], maxRetries);
    }
  }

  // ---------------------------------------------------------------------------
  // Progress
  // ---------------------------------------------------------------------------

  /** Publish attempts a row may still cost. */
  function Left(row: Row, maxRetries: nat): nat {
    if row.publishedAt.Some? || row.retries >= maxRetries then 0 else maxRetries - row.retries
  }

  function LeftOf(rows: Table, maxRetries: nat): map<RowId, int> {
    map r | r in rows :: Left(rows[r], maxRetries)
  }

  ghost function Potential(rows: Table, maxRetries: nat): int {
    Sum(LeftOf(rows, maxRetries))
  }

  lemma {:induction false} SumOfNaturals(counts: map<RowId, int>)
    requires forall r | r in counts :: counts[r] >= 0
    ensures Sum(counts) >= 0
    decreases |counts|
  {
    if counts != map[] {
      var k :| k in counts;
      SumWithout(counts, k);
      SumOfNaturals(counts - {k});
    }
  }

  lemma AfterNext(rows: Table, batch: seq<RowId>, i: nat, acked: set<RowId>, now: int)
    requires Distinct(batch) && Elements(batch) <= rows.Keys && i < |batch|
    ensures var before, after := After(rows, Elements(batch[..i]), acked, now), After(rows, Elements(batch[..i + 1]), acked, now);
            && batch[i] in before && before[batch[i]] == rows[batch[i]]
            && after == before[batch[i] := Attempted(rows[batch[i]], batch[i] in acked, now)]
  {
    assert batch[i] in Elements(batch);
    assert batch[..i + 1] == batch[..i] + [batch[i]];
    assert Elements(batch[..i + 1]) == Elements(batch[..i]) + {batch[i]};
    assert batch[i] !in Elements(batch[..i]);
  }

  lemma AttemptCosts(rows: Table, r: RowId, acked: bool, now: int, maxRetries: nat)
    requires r in Eligible(rows, maxRetries)
    ensures Potential(rows[r := Attempted(rows[r], acked, now)], maxRetries) <= Potential(rows, maxRetries) - 1
  {
    var row := Attempted(rows[r], acked, now);
    assert LeftOf(rows[r := row], maxRetries) == LeftOf(rows, maxRetries)[r := Left(row, maxRetries)];
    SumUpdate(LeftOf(rows, maxRetries), r, Left(row, maxRetries));
  }

  /** A committed pass lowers the potential by at least the number of rows it processed. */
  lemma {:induction false} CommitCosts(rows: Table, batch: seq<RowId>, n: nat, acked: set<RowId>, now: int, maxRetries: nat)
    requires Distinct(batch) && Elements(batch) <= Eligible(rows, maxRetries) && n <= |batch|
    ensures Potential(After(rows, Elements(batch[..n]), acked, now), maxRetries) <= Potential(rows, maxRetries) - n
  {
    if n == 0 {
      assert After(rows, Elements(batch[..0]), acked, now) == rows;
    } else {
      CommitCosts(rows, batch, n - 1, acked, now, maxRetries);
      AfterNext(rows, batch, n - 1, acked, now);
      var r := batch[n - 1];
      assert r in Elements(batch);
      AttemptCosts(After(rows, Elements(batch[..n - 1]), acked, now), r, r in acked, now, maxRetries);
    }
  }

  /** Rows processed by the committed passes of a run. */
  function Processed(events: seq<Event>): nat {
    if events == [] then 0
    else (if events[0].Pass? && events[0].commits then |events[0].batch| else 0) + Processed(events[1..])
  }

  /** Without new rows, every run processes at most as many rows as the potential it started with. */
  lemma {:induction false} CommittedWorkIsBounded(s: State, events: seq<Event>, maxRetries: nat)
    requires CanRun(s, events, maxRetries) && forall e | e in events :: e.Pass?
    ensures Processed(events) + Potential(Run(s, events).rows, maxRetries) <= Potential(s.rows, maxRetries)
    ensures Potential(Run(s, events).rows, maxRetries) >= 0
    decreases |events|
  {
    SumOfNaturals(LeftOf(s.rows, maxRetries));
    if events != [] {
      var e := events[0];
      assert e in events;
      CommittedWorkIsBounded(Apply(s, e), events[1..], maxRetries);
      assert e.batch[..|e.batch|] == e.batch;
      CommitCosts(s.rows, e.batch, |e.batch|, e.acked, e.now, maxRetries);
    }
  }

  predicate Settled(row: Row, maxRetries: nat) {
    row.publishedAt.Some? || row.retries >= maxRetries
  }

  // ---------------------------------------------------------------------------
  // The publisher
  // ---------------------------------------------------------------------------

  class OutboxPublisher {
    var rows: Table
    var broker: multiset<RowId>
    const batchSize: nat
    const maxRetries: nat

    constructor (rows: Table, batchSize: nat, maxRetries: nat)
      ensures this.rows == rows && broker == multiset{}
      ensures this.batchSize == batchSize && this.maxRetries == maxRetries
    {
      this.rows, this.broker, this.batchSize, this.maxRetries := rows, multiset{}, batchSize, maxRetries;
    }

    function Now(): State
      reads this
    {
      State(rows, broker)
    }

    /** One row of the batch: marked when the publish call returns, counted as a retry when it raises. */
    method PublishRow(r: RowId, session: Table, acked: set<RowId>, landed: set<RowId>, now: int) returns (updated: Table)
      requires r in session
      modifies this`broker
      ensures updated == session[r := Attempted(session[r], r in acked, now)]
      ensures broker == old(broker) + if r in acked + landed then multiset{r} else multiset{}
    {
      var row := session[r];
      if r in acked {
        broker := broker + multiset{r};
        return session[r := row.(publishedAt := Some(now))];
      }
      if r in landed {
        broker := broker + multiset{r};
      }
      return session[r := row.(retries := row.retries + 1)];
    }

    /** The loop over the batch.  The session's rows are not in the table yet. */
    method PublishRows(batch: seq<RowId>, acked: set<RowId>, landed: set<RowId>, now: int) returns (session: Table)
      requires Distinct(batch) && Elements(batch) <= rows.Keys
      modifies this`broker
      ensures session == After(rows, Elements(batch), acked, now)
      ensures broker == old(broker) + multiset(Elements(batch) * (acked + landed))
    {
      session := rows;
      for i := 0 to |batch|
        invariant session == After(rows, Elements(batch[..i]), acked, now)
        invariant broker == old(broker) + multiset(Elements(batch[..i]) * (acked + landed))
      {
        AfterNext(rows, batch, i, acked, now);
        SentNext(batch, i, acked + landed);
        session := PublishRow(batch[i], session, acked, landed, now);
      }
      assert batch[..|batch|] == batch;
    }

    /** One batch.  An empty one returns before the commit. */
    method PublishBatch(locked: set<RowId>, acked: set<RowId>, landed: set<RowId>, now: int, commits: bool)
      returns (result: Result<nat, PublishError>, ghost batch: seq<RowId>)
      modifies this
      ensures IsBatch(batch, Eligible(old(rows), maxRetries) - locked, IdOrder(old(rows)), batchSize)
      ensures TakesFirstDue(old(rows), batch, locked, batchSize, maxRetries)
      ensures Now() == Apply(old(Now()), Pass(batch, acked, landed, now, commits))
      ensures result == if commits || batch == [] then Ok(|batch|) else Err(CommitFailed)
    {
      var fetched := Fetch(Eligible(rows, maxRetries) - locked, IdOrder(rows), batchSize);
      batch := fetched;
      DueByFields(rows, batch, locked, batchSize, maxRetries);
      if fetched == [] {
        NothingSent(Now(), acked, landed, now, commits);
        return Ok(0), batch;
      }
      var session := PublishRows(fetched, acked, landed, now);
      if !commits {
        return Err(CommitFailed), batch;
      }
      rows := session;
      return Ok(|fetched|), batch;
    }

    /** One batch, by what it means for the loop. */
    method PublishOnce(locked: set<RowId>, acked: set<RowId>, landed: set<RowId>, now: int, commits: bool)
      returns (result: Result<nat, PublishError>)
      requires batchSize >= 1 && Safe(Now(), maxRetries)
      modifies this
      ensures Safe(Now(), maxRetries) && KeepsPublished(old(rows), rows)
      ensures 0 <= Potential(rows, maxRetries) <= old(Potential(rows, maxRetries)) - if result.Ok? then result.value else 0
      ensures result == Ok(0) ==> AllSettled(rows, locked, maxRetries)
      ensures result.Err? ==> !commits
    {
      ghost var before := Now();
      ghost var batch;
      result, batch := PublishBatch(locked, acked, landed, now, commits);
      PassProgress(before, Pass(batch, acked, landed, now, commits), maxRetries);
      if result == Ok(0) {
        EmptyBatchSettles(before.rows, locked, maxRetries, batch, batchSize);
        NothingSent(before, acked, landed, now, commits);
      }
    }

    /**
      The loop until an empty batch or a failing commit, which ends it with an error.  Whatever the
      publish calls do and whichever rows others have locked, it comes to an end; after an empty
      batch every row not locked is published or at its maximum of retries.
     */
    method PublishUntilIdle(locked: nat -> set<RowId>, acked: nat -> set<RowId>, landed: nat -> set<RowId>,
                            commits: nat -> bool, now: int)
      returns (result: Result<nat, PublishError>, passes: nat)
      requires batchSize >= 1 && Safe(Now(), maxRetries)
      modifies this
      ensures Safe(Now(), maxRetries) && KeepsPublished(old(rows), rows)
      ensures 1 <= passes <= old(Potential(rows, maxRetries)) + 1
      ensures result.Ok? ==> AllSettled(rows, locked(passes - 1), maxRetries)
      ensures result.Err? ==> !commits(passes - 1)
    {
      passes := 0;
      result := Ok(1);
      SumOfNaturals(LeftOf(rows, maxRetries));
      while result.Ok? && result.value != 0
        invariant Safe(Now(), maxRetries) && KeepsPublished(old(rows), rows)
        invariant Busy(result) || passes >= 1
        invariant 0 <= Potential(rows, maxRetries)
        invariant Potential(rows, maxRetries) <= old(Potential(rows, maxRetries)) - passes + if Busy(result) then 0 else 1
        invariant result == Ok(0) ==> AllSettled(rows, locked(passes - 1), maxRetries)
        invariant result.Err? ==> !commits(passes - 1)
        decreases Busy(result), Potential(rows, maxRetries)
      {
        result := PublishOnce(locked(passes), acked(passes), landed(passes), now, commits(passes));
        passes := passes + 1;
      }
    }
  }

  /** The rows with the smallest identifiers that are unpublished, below the maximum and not locked, and all of them when they fit. */
  ghost predicate TakesFirstDue(rows: Table, batch: seq<RowId>, locked: set<RowId>, batchSize: nat, maxRetries: nat) {
    && |batch| <= batchSize
    && (forall i, j | 0 <= i < j < |batch| :: batch[i] < batch[j])
    && (forall r | r in batch :: r in rows && rows[r].publishedAt.None? && rows[r].retries < maxRetries && r !in locked)
    && (forall x | x in rows && x !in batch && rows[x].publishedAt.None? && rows[x].retries < maxRetries && x !in locked ::
          |batch| == batchSize && forall r | r in batch :: r < x)
  }

  lemma DueByFields(rows: Table, batch: seq<RowId>, locked: set<RowId>, batchSize: nat, maxRetries: nat)
    requires IsBatch(batch, Eligible(rows, maxRetries) - locked, IdOrder(rows), batchSize)
    ensures TakesFirstDue(rows, batch, locked, batchSize, maxRetries)
  {
    var due := Eligible(rows, maxRetries) - locked;
    forall r | r in batch ensures r in due {
      assert r in Elements(batch);
    }
    forall i, j | 0 <= i < j < |batch| ensures batch[i] < batch[j] {
      assert IdOrder(rows)[batch[i]] <= IdOrder(rows)[batch[j]];
    }
    forall x | x in due && x !in batch ensures |batch| == batchSize && forall r | r in batch :: r < x {
      LeftOutOfFull(batch, due, IdOrder(rows), batchSize, x);
    }
  }

  /** Published rows are not touched again. */
  ghost predicate KeepsPublished(before: Table, after: Table) {
    before.Keys == after.Keys && forall r | r in after && before[r].publishedAt.Some? :: after[r] == before[r]
  }

  ghost predicate AllSettled(rows: Table, locked: set<RowId>, maxRetries: nat) {
    forall r | r in rows :: r in locked || Settled(rows[r], maxRetries)
  }

  lemma EmptyBatchSettles(rows: Table, locked: set<RowId>, maxRetries: nat, batch: seq<RowId>, limit: nat)
    requires limit >= 1 && batch == []
    requires IsBatch(batch, Eligible(rows, maxRetries) - locked, IdOrder(rows), limit)
    ensures AllSettled(rows, locked, maxRetries)
  {
    forall r | r in rows ensures r in locked || Settled(rows[r], maxRetries) {
      assert r !in Eligible(rows, maxRetries) - locked;
    }
  }

  predicate Busy(result: Result<nat, PublishError>) {
    result.Ok? && result.value != 0
  }

  lemma NothingSent(s: State, acked: set<RowId>, landed: set<RowId>, now: int, commits: bool)
    ensures Apply(s, Pass([], acked, landed, now, commits)) == s
  {
    assert Elements<RowId>([]) == {};
    assert After(s.rows, {}, acked, now) == s.rows;
  }

  lemma SentNext(batch: seq<RowId>, i: nat, sent: set<RowId>)
    requires Distinct(batch) && i < |batch|
    ensures multiset(Elements(batch[..i + 1]) * sent)
            == multiset(Elements(batch[..i]) * sent) + if batch[i] in sent then multiset{batch[i]} else multiset{}
  {
    assert batch[..i + 1] == batch[..i] + [batch[i]];
    assert batch[i] !in Elements(batch[..i]);
    assert Elements(batch[..i + 1]) * sent == Elements(batch[..i]) * sent + if batch[i] in sent then {batch[i]} else {};
  }

  lemma PassProgress(s: State, e: Event, maxRetries: nat)
    requires e.Pass? && Enabled(s, e, maxRetries) && Safe(s, maxRetries)
    ensures var t := Apply(s, e);
            && Safe(t, maxRetries) && 0 <= Potential(t.rows, maxRetries)
            && Potential(t.rows, maxRetries) <= Potential(s.rows, maxRetries) - if e.commits then |e.batch| else 0
  {
    assert Run(s, [e]) == Apply(s, e) by {
      assert [e][1..] == [];
      assert Run(Apply(s, e), []) == Apply(s, e);
    }
    assert CanRun(s, [e], maxRetries) by {
      assert CanRun(Apply(s, e), [], maxRetries);
      assert [e][1..] == [];
    }
    RunIsSafe(s, [e], maxRetries);
    CommittedWorkIsBounded(s, [e], maxRetries);
    assert Processed([e]) == (if e.commits then |e.batch| else 0) by {
      assert [e][1..] == [];
    }
  }
}
