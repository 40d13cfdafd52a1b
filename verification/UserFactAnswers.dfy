/**
  What a caller that promotes a user fact is answered, told from the actions of a whole run: it all
  depends on what its first look saw and on whether that was deleted before the lock was granted.
 */
module UserFactAnswers {
  import opened Common
  import opened Batches
  import opened UserFacts

  /** The action is one of the caller's. */
  predicate Of(a: Action, c: ClientId) {
    !a.Delete? && a.c == c
  }

  lemma {:induction false} CanRunPrefix(s: System, actions: seq<Action>, n: nat)
    requires CanRun(s, actions) && n <= |actions|
    ensures CanRun(s, actions[..n])
    ensures n < |actions| ==>
              && Enabled(Run(s, actions[..n]), actions[n])
              && CanRun(s, actions[..n + 1]) && Run(s, actions[..n + 1]) == Apply(Run(s, actions[..n]), actions[n])
    decreases n
  {
    if n > 0 {
      CanRunPrefix(Apply(s, actions[0]), actions[1..], n - 1);
      assert actions[..n][1..] == actions[1..][..n - 1];
      if n < |actions| {
        assert actions[..n + 1][1..] == actions[1..][..n];
      }
    } else if actions != [] {
      assert actions[..1][1..] == [];
      assert CanRun(Apply(s, actions[0]), []);
    }
  }

  /** The state after the first n actions. */
  ghost function After(actions: seq<Action>, n: nat): System
    requires CanRun(EMPTY, actions) && n <= |actions|
  {
    CanRunPrefix(EMPTY, actions, n);
    Run(EMPTY, actions[..n])
  }

  lemma AfterSteps(actions: seq<Action>, n: nat)
    requires CanRun(EMPTY, actions) && n < |actions|
    ensures Enabled(After(actions, n), actions[n]) && After(actions, n + 1) == Apply(After(actions, n), actions[n])
  {
    CanRunPrefix(EMPTY, actions, n);
  }

  lemma AfterKeepsInv(actions: seq<Action>, n: nat)
    requires CanRun(EMPTY, actions) && n <= |actions|
    ensures Inv(After(actions, n))
  {
    CanRunPrefix(EMPTY, actions, n);
    RunKeepsInv(EMPTY, actions[..n]);
  }

  /** While a caller does nothing its phase stays. */
  lemma {:induction false} PhaseStays(actions: seq<Action>, c: ClientId, a: nat, b: nat)
    requires CanRun(EMPTY, actions) && a <= b <= |actions|
    requires forall n | a <= n < b :: !Of(actions[n], c)
    ensures At(After(actions, b), c) == At(After(actions, a), c)
    decreases b
  {
    if a < b {
      PhaseStays(actions, c, a, b - 1);
      AfterSteps(actions, b - 1);
    }
  }

  /** No step takes a record away, gives it another key, or makes a deleted one active again. */
  lemma StepKeepsRecord(s: System, a: Action, id: RowId)
    requires Inv(s) && Enabled(s, a) && id in s.records
    ensures id in Apply(s, a).records && Apply(s, a).records[id].key == s.records[id].key
    ensures Apply(s, a).records[id].deleted <==> s.records[id].deleted || a == Delete(id)
  {
    if a.Merge? || a.Commit? {
      assert PhaseOk(s, At(s, a.c));
    }
  }

  /** Record `id` was deleted at one of these points. */
  ghost predicate DeletedBetween(actions: seq<Action>, id: RowId, a: nat, b: nat)
    requires b <= |actions|
  {
    exists n :: a <= n < b && actions[n] == Delete(id)
  }

  lemma RecordStep(actions: seq<Action>, id: RowId, n: nat)
    requires CanRun(EMPTY, actions) && n < |actions| && id in After(actions, n).records
    ensures id in After(actions, n + 1).records && After(actions, n + 1).records[id].key == After(actions, n).records[id].key
    ensures After(actions, n + 1).records[id].deleted <==> After(actions, n).records[id].deleted || actions[n] == Delete(id)
  {
    AfterSteps(actions, n);
    AfterKeepsInv(actions, n);
    StepKeepsRecord(After(actions, n), actions[n], id);
  }

  /** A record stays active exactly until it is deleted. */
  lemma {:induction false} RecordStays(actions: seq<Action>, id: RowId, a: nat, b: nat)
    requires CanRun(EMPTY, actions) && a <= b <= |actions| && id in After(actions, a).records
    ensures id in After(actions, b).records && After(actions, b).records[id].key == After(actions, a).records[id].key
    ensures After(actions, b).records[id].deleted <==>
              After(actions, a).records[id].deleted || DeletedBetween(actions, id, a, b)
    decreases b
  {
    if a < b {
      RecordStays(actions, id, a, b - 1);
      RecordStep(actions, id, b - 1);
      assert DeletedBetween(actions, id, a, b) <==> DeletedBetween(actions, id, a, b - 1) || actions[b - 1] == Delete(id);
    }
  }

  /** One promotion begins: the caller asks, looks, and gets its answer from the lock, at these points. */
  ghost predicate Begins(actions: seq<Action>, c: ClientId, req: Request, seen: Option<RowId>, i: nat, j: nat, k: nat) {
    && i < j < k < |actions|
    && actions[i] == Ask(c, req) && actions[j] == Look(c, seen) && actions[k] == Resolve(c)
    && (forall n | i < n < k && n != j :: !Of(actions[n], c))
  }

  /** The first look found a record, and it was still there when the lock was granted. */
  ghost predicate Found(actions: seq<Action>, seen: Option<RowId>, j: nat, k: nat)
    requires k <= |actions|
  {
    seen.Some? && !DeletedBetween(actions, seen.value, j, k)
  }

  lemma LockIsAwaited(actions: seq<Action>, c: ClientId, req: Request, seen: Option<RowId>, i: nat, j: nat, k: nat)
    requires CanRun(EMPTY, actions) && Begins(actions, c, req, seen, i, j, k)
    ensures At(After(actions, k), c) == Looking(req, None, seen)
    ensures seen.Some? ==> ActiveIn(After(actions, j).records, req.key, seen.value)
  {
    AfterSteps(actions, i);
    PhaseStays(actions, c, i + 1, j);
    AfterSteps(actions, j);
    PhaseStays(actions, c, j + 1, k);
  }

  /** What the caller is about to do after its first look. */
  lemma BeginningLeads(actions: seq<Action>, c: ClientId, req: Request, seen: Option<RowId>, i: nat, j: nat, k: nat)
    requires CanRun(EMPTY, actions) && Begins(actions, c, req, seen, i, j, k)
    ensures Found(actions, seen, j, k) <==> seen.Some? && ActiveIn(After(actions, k).records, req.key, seen.value)
    ensures At(After(actions, k + 1), c) ==
              if seen.Some? && ActiveIn(After(actions, k).records, req.key, seen.value)
              then Holding(req, Fact(seen.value, After(actions, k).records[seen.value].turns)) else Ready(req)
  {
    LockIsAwaited(actions, c, req, seen, i, j, k);
    if seen.Some? {
      RecordStays(actions, seen.value, j, k);
    }
    AfterSteps(actions, k);
  }

  /** What merging does: the caller is told the record, which then has exactly its own turns and the caller's. */
  ghost predicate MergesInto(s: System, c: ClientId, req: Request, id: RowId)
    requires Enabled(s, Merge(c))
  {
    var t := Apply(s, Merge(c));
    && ActiveIn(s.records, req.key, id) && ActiveIn(t.records, req.key, id)
    && t.log == s.log + [Told(req, id, Merged)] && t.records == s.records[id := t.records[id]]
    && Distinct(t.records[id].turns)
    && forall turn :: turn in t.records[id].turns <==> turn in s.records[id].turns || turn in req.turns
  }

  lemma HoldingMerges(s: System, c: ClientId)
    requires Inv(s) && At(s, c).Holding?
    ensures MergesInto(s, c, At(s, c).req, At(s, c).fact.id)
    ensures s.records[At(s, c).fact.id].turns == At(s, c).fact.turns
    ensures forall a | Of(a, c) :: Enabled(s, a) <==> a == Merge(c) || a == Abort(c)
  {
    assert PhaseOk(s, At(s, c));
    DistinctlyKeepsMembers(At(s, c).fact.turns + At(s, c).req.turns);
  }

  /** The lock is held until the caller does something. */
  lemma FoundIsHeld(actions: seq<Action>, c: ClientId, req: Request, id: RowId, i: nat, j: nat, k: nat)
    requires CanRun(EMPTY, actions) && Begins(actions, c, req, Some(id), i, j, k)
    requires !DeletedBetween(actions, id, j, k)
    requires forall n | k < n < |actions| :: !Of(actions[n], c)
    ensures ActiveIn(After(actions, k).records, req.key, id)
    ensures At(Run(EMPTY, actions), c) == Holding(req, Fact(id, After(actions, k).records[id].turns))
  {
    BeginningLeads(actions, c, req, Some(id), i, j, k);
    PhaseStays(actions, c, k + 1, |actions|);
    assert actions[..|actions|] == actions;
  }

  /**
    Whoever finds the record merges: when the first look of a caller saw a record that is not
    deleted before the lock is granted, then from there on the caller can merge, can do nothing else
    but die, and merging tells it that record, with exactly its turns and the caller's on it.
   */
  lemma FoundIsMerged(actions: seq<Action>, c: ClientId, req: Request, id: RowId, i: nat, j: nat, k: nat)
    requires CanRun(EMPTY, actions) && Begins(actions, c, req, Some(id), i, j, k)
    requires !DeletedBetween(actions, id, j, k)
    requires forall n | k < n < |actions| :: !Of(actions[n], c)
    ensures var s := Run(EMPTY, actions);
            && (forall a | Of(a, c) :: Enabled(s, a) <==> a == Merge(c) || a == Abort(c))
            && Enabled(s, Merge(c)) && MergesInto(s, c, req, id)
            && id in After(actions, k).records && s.records[id].turns == After(actions, k).records[id].turns
  {
    FoundIsHeld(actions, c, req, id, i, j, k);
    RunKeepsInv(EMPTY, actions);
    HoldingMerges(Run(EMPTY, actions), c);
  }

  /** The last action of a caller that is not idle. */
  lemma {:induction false} LastOwn(actions: seq<Action>, c: ClientId, n: nat) returns (p: nat)
    requires CanRun(EMPTY, actions) && n <= |actions| && !At(After(actions, n), c).Idle?
    ensures p < n && Of(actions[p], c) && forall m | p < m < n :: !Of(actions[m], c)
    ensures At(After(actions, p + 1), c) == At(After(actions, n), c)
    decreases n
  {
    assert actions[..0] == [];
    AfterSteps(actions, n - 1);
    if Of(actions[n - 1], c) {
      p := n - 1;
    } else {
      p := LastOwn(actions, c, n - 1);
    }
  }

  /** A caller that waits for the lock after its first look. */
  lemma FirstLook(actions: seq<Action>, c: ClientId, n: nat) returns (i: nat, j: nat)
    requires CanRun(EMPTY, actions) && n <= |actions|
    requires At(After(actions, n), c).Looking? && At(After(actions, n), c).since.None?
    ensures var Looking(req, _, seen) := At(After(actions, n), c);
            && i < j < n && actions[i] == Ask(c, req) && actions[j] == Look(c, seen)
            && forall m | i < m < n && m != j :: !Of(actions[m], c)
  {
    j := LastOwn(actions, c, n);
    AfterSteps(actions, j);
    i := LastOwn(actions, c, j);
    AfterSteps(actions, i);
  }

  /** A caller that has resolved its first look, with nothing done since. */
  lemma FirstResolve(actions: seq<Action>, c: ClientId, n: nat) returns (seen: Option<RowId>, i: nat, j: nat, k: nat)
    requires CanRun(EMPTY, actions) && n <= |actions|
    requires At(After(actions, n), c).Holding? || At(After(actions, n), c).Ready?
    ensures Begins(actions, c, At(After(actions, n), c).req, seen, i, j, k) && k < n
    ensures forall m | k < m < n :: !Of(actions[m], c)
    ensures At(After(actions, n), c).Holding? <==> Found(actions, seen, j, k)
    ensures At(After(actions, n), c).Holding? ==> At(After(actions, n), c).fact.id == seen.value
  {
    k := LastOwn(actions, c, n);
    AfterSteps(actions, k);
    seen := At(After(actions, k), c).seen;
    i, j := FirstLook(actions, c, k);
    BeginningLeads(actions, c, At(After(actions, n), c).req, seen, i, j, k);
  }

  /** No new request and no death of the caller in between. */
  ghost predicate SamePromotion(actions: seq<Action>, c: ClientId, i: nat, p: nat)
    requires p <= |actions|
  {
    forall n | i < n < p && Of(actions[n], c) :: !actions[n].Ask? && !actions[n].Abort?
  }

  /** An insert follows a first resolve. */
  lemma InsertFollows(actions: seq<Action>, c: ClientId, n: nat) returns (p: nat)
    requires CanRun(EMPTY, actions) && n <= |actions|
    requires At(After(actions, n), c).Inserted? || (At(After(actions, n), c).Asked? && At(After(actions, n), c).since.Some?)
    ensures p < n && actions[p].Insert? && forall m | p < m < n :: !Of(actions[m], c)
    ensures At(After(actions, p), c) == Ready(At(After(actions, n), c).req)
  {
    p := LastOwn(actions, c, n);
    AfterSteps(actions, p);
  }

  /** A second look follows a refused insert. */
  lemma SecondLookFollows(actions: seq<Action>, c: ClientId, n: nat) returns (p: nat)
    requires CanRun(EMPTY, actions) && n <= |actions|
    requires At(After(actions, n), c).Looking? && At(After(actions, n), c).since.Some?
    ensures p < n && actions[p].Look? && forall m | p < m < n :: !Of(actions[m], c)
    ensures At(After(actions, p), c) == Asked(At(After(actions, n), c).req, At(After(actions, n), c).since)
  {
    p := LastOwn(actions, c, n);
    AfterSteps(actions, p);
  }

  /** A caller that goes on after its first resolve found nothing there. */
  lemma Sequel(actions: seq<Action>, c: ClientId, n: nat) returns (seen: Option<RowId>, i: nat, j: nat, k: nat)
    requires CanRun(EMPTY, actions) && n <= |actions|
    requires At(After(actions, n), c).Inserted? || (At(After(actions, n), c).Asked? && At(After(actions, n), c).since.Some?)
    ensures Begins(actions, c, At(After(actions, n), c).req, seen, i, j, k) && k < n
    ensures SamePromotion(actions, c, i, n) && !Found(actions, seen, j, k)
  {
    var p := InsertFollows(actions, c, n);
    seen, i, j, k := FirstResolve(actions, c, p);
  }

  /** So did a caller that looks a second time. */
  lemma SecondSequel(actions: seq<Action>, c: ClientId, n: nat) returns (seen: Option<RowId>, i: nat, j: nat, k: nat)
    requires CanRun(EMPTY, actions) && n <= |actions|
    requires At(After(actions, n), c).Looking? && At(After(actions, n), c).since.Some?
    ensures Begins(actions, c, At(After(actions, n), c).req, seen, i, j, k) && k < n
    ensures SamePromotion(actions, c, i, n) && !Found(actions, seen, j, k)
  {
    var p := SecondLookFollows(actions, c, n);
    seen, i, j, k := Sequel(actions, c, p);
  }

  /**
    Every answer of every run follows from the first look: the caller is told to have merged
    exactly when that look saw a record that was not deleted before the lock was granted, and it is
    that record.  So whoever is told of a record without having merged, or is turned away with an
    error, had seen none, or one that was gone by then.
   */
  lemma AnswersFollowFirstLook(actions: seq<Action>, c: ClientId, p: nat)
    returns (req: Request, seen: Option<RowId>, i: nat, j: nat, k: nat)
    requires CanRun(EMPTY, actions) && p < |actions| && Of(actions[p], c)
    requires After(actions, p + 1).log != After(actions, p).log
    ensures Begins(actions, c, req, seen, i, j, k) && k < p && SamePromotion(actions, c, i, p)
    ensures |After(actions, p + 1).log| == |After(actions, p).log| + 1
    ensures var answer := After(actions, p + 1).log[|After(actions, p).log|];
            && !answer.Deleted? && answer.req == req
            && (answer.Told? && answer.how.Merged? <==> seen.Some? && !DeletedBetween(actions, seen.value, j, k))
            && (answer.Told? && answer.how.Merged? ==> answer.id == seen.value)
  {
    AfterSteps(actions, p);
    var phase := At(After(actions, p), c);
    req := phase.req;
    if phase.Holding? {
      seen, i, j, k := FirstResolve(actions, c, p);
    } else if phase.Inserted? {
      seen, i, j, k := Sequel(actions, c, p);
    } else {
      seen, i, j, k := SecondSequel(actions, c, p);
    }
  }
}
