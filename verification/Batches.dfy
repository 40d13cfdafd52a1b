/** The rows a `SELECT ... ORDER BY key LIMIT n` may return, and distinct sequences as sets. */
module Batches {
  import opened Common

  ghost predicate Distinct<T>(s: seq<T>) {
    forall i, j | 0 <= i < j < |s| :: s[i] != s[j]
  }

  function Elements<T>(s: seq<T>): set<T> {
    set x | x in s
  }

  lemma {:induction false} DistinctCount<T>(s: seq<T>)
    requires Distinct(s)
    ensures |Elements(s)| == |s|
  {
    if s != [] {
      DistinctCount(s[1..]);
      assert s[0] !in s[1..];
      assert Elements(s) == Elements(s[1..]) + {s[0]};
    }
  }

  lemma DistinctAppend<T>(a: seq<T>, b: seq<T>)
    requires Distinct(a) && Distinct(b) && Elements(a) !! Elements(b)
    ensures Distinct(a + b) && Elements(a + b) == Elements(a) + Elements(b)
  {
    forall i, j | 0 <= i < |a| && 0 <= j < |b| ensures a[i] != b[j] {
      assert a[i] in Elements(a) && b[j] in Elements(b);
    }
  }

  /** Keys of a dictionary filled from left to right: each key keeps its first position. */
  function Distinctly<T(==)>(s: seq<T>): seq<T> {
    if s == [] then []
    else
      var last, before := s[|s| - 1], Distinctly(s[..|s| - 1]);
      if last in before then before else before + [last]
  }

  lemma {:induction false} DistinctlyKeepsMembers<T>(s: seq<T>)
    ensures Distinct(Distinctly(s))
    ensures forall e :: e in Distinctly(s) <==> e in s
  {
    if s != [] {
      DistinctlyKeepsMembers(s[..|s| - 1]);
      assert s == s[..|s| - 1] + [s[|s| - 1]];
    }
  }

  /** The last n, or all when there are fewer. */
  function Last<T>(s: seq<T>, n: nat): seq<T> {
    if |s| <= n then s else s[|s| - n..]
  }

  /**
    `batch` answers the query: distinct eligible rows in key order, as many as the limit allows,
    and no row left out comes before one that was taken.  Ties may be broken either way.
   */
  ghost predicate IsBatch(batch: seq<nat>, eligible: set<nat>, key: map<nat, int>, limit: nat)
    requires eligible <= key.Keys
  {
    && Distinct(batch)
    && Elements(batch) <= eligible
    && |batch| == Min(limit, |eligible|)
    && (forall i, j | 0 <= i < j < |batch| :: batch[i] in key && batch[j] in key && key[batch[i]] <= key[batch[j]])
    && (forall r, q | r in batch && q in eligible && q !in batch :: r in key && key[r] <= key[q])
  }

  lemma StrictSubsetCount<T>(a: set<T>, b: set<T>)
    requires a < b
    ensures |a| < |b|
  {
    assert b == a + (b - a);
    assert b - a != {};
  }

  /** A batch that leaves an eligible row out is full. */
  lemma LeftOutOfFull(batch: seq<nat>, eligible: set<nat>, key: map<nat, int>, limit: nat, x: nat)
    requires eligible <= key.Keys && IsBatch(batch, eligible, key, limit) && x in eligible && x !in batch
    ensures |batch| == limit && forall r | r in batch :: r in key && key[r] <= key[x]
  {
    DistinctCount(batch);
    assert x !in Elements(batch);
    StrictSubsetCount(Elements(batch), eligible);
  }

  lemma {:induction false} LeastExists(s: set<nat>, key: map<nat, int>)
    requires s != {} && s <= key.Keys
    ensures exists x :: x in s && forall y | y in s :: key[x] <= key[y]
  {
    var a :| a in s;
    if s == {a} {
      assert forall y | y in s :: key[a] <= key[y];
    } else {
      LeastExists(s - {a}, key);
      var b :| b in s - {a} && forall y | y in s - {a} :: key[b] <= key[y];
      var least := if key[a] <= key[b] then a else b;
      assert forall y | y in s :: y == a || y in s - {a};
      assert least in s && forall y | y in s :: key[least] <= key[y];
    }
  }

  /** Part of the query done: `batch` is taken in key order and everything in `rest` comes later. */
  ghost predicate Taken(batch: seq<nat>, rest: set<nat>, eligible: set<nat>, key: map<nat, int>)
    requires eligible <= key.Keys
  {
    && Distinct(batch)
    && Elements(batch) !! rest
    && Elements(batch) + rest == eligible
    && (forall i, j | 0 <= i < j < |batch| :: batch[i] in key && batch[j] in key && key[batch[i]] <= key[batch[j]])
    && (forall r, q | r in batch && q in rest :: r in key && q in key && key[r] <= key[q])
  }

  lemma TakeNext(batch: seq<nat>, rest: set<nat>, eligible: set<nat>, key: map<nat, int>, x: nat)
    requires eligible <= key.Keys && Taken(batch, rest, eligible, key)
    requires x in rest && forall y | y in rest :: key[x] <= key[y]
    ensures Taken(batch + [x], rest - {x}, eligible, key)
  {
    assert Elements(batch + [x]) == Elements(batch) + {x};
    assert x in Elements(batch) + rest;
    forall r | r in batch ensures r != x {
      assert r in Elements(batch);
    }
  }

  lemma TakenIsBatch(batch: seq<nat>, rest: set<nat>, eligible: set<nat>, key: map<nat, int>, limit: nat)
    requires eligible <= key.Keys && Taken(batch, rest, eligible, key)
    requires |rest| + |batch| == |eligible| && |batch| <= limit && (|batch| == limit || rest == {})
    ensures IsBatch(batch, eligible, key, limit)
  {
    forall q | q in eligible && q !in batch ensures q in rest {
      assert q in Elements(batch) + rest;
    }
  }

  /** The query itself: one row after another in key order. */
  method Fetch(eligible: set<nat>, key: map<nat, int>, limit: nat) returns (batch: seq<nat>)
    requires eligible <= key.Keys
    ensures IsBatch(batch, eligible, key, limit)
  {
    batch := [];
    var rest := eligible;
    assert Elements(batch) + rest == eligible;
    while |batch| < limit && rest != {}
      invariant Taken(batch, rest, eligible, key)
      invariant |rest| + |batch| == |eligible| && |batch| <= limit
      decreases |rest|
    {
      assert rest <= key.Keys;
      LeastExists(rest, key);
      var x :| x in rest && forall y | y in rest :: key[x] <= key[y];
      TakeNext(batch, rest, eligible, key, x);
      rest := rest - {x};
      batch := batch + [x];
    }
    TakenIsBatch(batch, rest, eligible, key, limit);
  }
}
