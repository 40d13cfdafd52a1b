/** Choosing the context blocks that fit the token budget, in priority order. */
module ContextBudget {
  import opened Common
  import opened Text

  datatype Kind = SystemDirective | ConversationSummary | RecentTurn | RetrievedDocument | UserMemory | ToolResult

  datatype Block = Block(kind: Kind, content: string, source: string, tokens: int)

  type Shares = map<Kind, int>

  datatype Key = Key(share: int, source: string, content: string)

  function KeyOf(shares: Shares, b: Block): Key {
    Key(if b.kind in shares then shares[b.kind] else 0, b.source, b.content)
  }

  predicate Before(k: Key, l: Key) {
    k.share > l.share ||
    (k.share == l.share && (Below(l.source, k.source) || (k.source == l.source && Below(l.content, k.content))))
  }

  lemma BeforeIsTotal(k: Key, l: Key)
    ensures k == l || Before(k, l) || Before(l, k)
    ensures !(Before(k, l) && Before(l, k)) && !Before(k, k)
  {
    BelowIsTotal(k.source, l.source);
    BelowIsTotal(k.content, l.content);
    BelowIsTotal(k.source, k.source);
    BelowIsTotal(k.content, k.content);
  }

  lemma BeforeIsTransitive(k: Key, l: Key, m: Key)
    requires Before(k, l) && Before(l, m)
    ensures Before(k, m)
  {
    if Below(l.source, k.source) && Below(m.source, l.source) {
      BelowIsTransitive(m.source, l.source, k.source);
    }
    if Below(l.content, k.content) && Below(m.content, l.content) {
      BelowIsTransitive(m.content, l.content, k.content);
    }
  }

  // ---------------------------------------------------------------------------
  // Priority order
  // ---------------------------------------------------------------------------

  /** Insertion after every block of the same or a higher key, so that equal keys keep their order. */
  function Insert(shares: Shares, sorted: seq<Block>, b: Block): seq<Block> {
    if sorted == [] then [b]
    else if Before(KeyOf(shares, b), KeyOf(shares, sorted[0])) then [b] + sorted
    else [sorted[0]] + Insert(shares, sorted[1..], b)
  }

  /** The descending stable sort. */
  function Ordered(shares: Shares, blocks: seq<Block>): seq<Block> {
    if blocks == [] then [] else Insert(shares, Ordered(shares, blocks[..|blocks| - 1]), blocks[|blocks| - 1])
  }

  ghost predicate Descending(shares: Shares, s: seq<Block>) {
    forall i, j | 0 <= i < j < |s| :: !Before(KeyOf(shares, s[j]), KeyOf(shares, s[i]))
  }

  lemma {:induction false} InsertKeepsBlocks(shares: Shares, sorted: seq<Block>, b: Block)
    ensures multiset(Insert(shares, sorted, b)) == multiset(sorted) + multiset{b}
  {
    if sorted != [] {
      assert sorted == [sorted[0]] + sorted[1..];
      InsertKeepsBlocks(shares, sorted[1..], b);
    }
  }

  lemma DescendingCons(shares: Shares, b: Block, s: seq<Block>)
    requires Descending(shares, s) && forall x | x in s :: !Before(KeyOf(shares, x), KeyOf(shares, b))
    ensures Descending(shares, [b] + s)
  {
    var all := [b] + s;
    forall i, j | 0 <= i < j < |all| ensures !Before(KeyOf(shares, all[j]), KeyOf(shares, all[i])) {
      assert all[j] == s[j - 1] && (i > 0 ==> all[i] == s[i - 1]);
    }
  }

  lemma {:induction false} InsertKeepsOrder(shares: Shares, sorted: seq<Block>, b: Block)
    requires Descending(shares, sorted)
    ensures Descending(shares, Insert(shares, sorted, b))
  {
    if sorted != [] {
      var head, rest := sorted[0], sorted[1..];
      if Before(KeyOf(shares, b), KeyOf(shares, head)) {
        BeforeIsTotal(KeyOf(shares, b), KeyOf(shares, head));
        forall j | 0 <= j < |sorted| ensures !Before(KeyOf(shares, sorted[j]), KeyOf(shares, b)) {
          if Before(KeyOf(shares, sorted[j]), KeyOf(shares, b)) {
            BeforeIsTransitive(KeyOf(shares, sorted[j]), KeyOf(shares, b), KeyOf(shares, head));
          }
        }
        DescendingCons(shares, b, sorted);
      } else {
        InsertKeepsOrder(shares, rest, b);
        InsertKeepsBlocks(shares, rest, b);
        var tail := Insert(shares, rest, b);
        forall x | x in tail ensures !Before(KeyOf(shares, x), KeyOf(shares, head)) {
          assert x in multiset(tail);
        }
        DescendingCons(shares, head, tail);
      }
    }
  }

  lemma {:induction false} OrderedSorts(shares: Shares, blocks: seq<Block>)
    ensures Descending(shares, Ordered(shares, blocks))
    ensures multiset(Ordered(shares, blocks)) == multiset(blocks)
  {
    if blocks != [] {
      var front, last := blocks[..|blocks| - 1], blocks[|blocks| - 1];
      OrderedSorts(shares, front);
      InsertKeepsOrder(shares, Ordered(shares, front), last);
      InsertKeepsBlocks(shares, Ordered(shares, front), last);
      assert blocks == front + [last];
    }
  }

  /** A kind's share, nothing for a kind without one. */
  function Share(shares: Shares, kind: Kind): int {
    if kind in shares then shares[kind] else 0
  }

  /**
    What the order means: a larger share of its kind puts a block first, then the source that comes
    later by code points, then the content that does.
   */
  lemma SharesComeFirst(shares: Shares, blocks: seq<Block>, i: nat, j: nat)
    requires i < j < |Ordered(shares, blocks)|
    ensures var x, y := Ordered(shares, blocks)[i], Ordered(shares, blocks)[j];
            || Share(shares, x.kind) > Share(shares, y.kind)
            || (Share(shares, x.kind) == Share(shares, y.kind) &&
                (Below(y.source, x.source) || (x.source == y.source && (Below(y.content, x.content) || x.content == y.content))))
  {
    OrderedSorts(shares, blocks);
    var x, y := Ordered(shares, blocks)[i], Ordered(shares, blocks)[j];
    BelowIsTotal(x.source, y.source);
    BelowIsTotal(x.content, y.content);
  }

  ghost predicate KeysIdentify(shares: Shares, s: seq<Block>) {
    forall x, y | x in s && y in s && KeyOf(shares, x) == KeyOf(shares, y) :: x == y
  }

  lemma SameFirst(shares: Shares, a: seq<Block>, b: seq<Block>)
    requires Descending(shares, a) && Descending(shares, b) && multiset(a) == multiset(b)
    requires KeysIdentify(shares, a) && a != []
    ensures b != [] && a[0] == b[0]
  {
    assert a[0] in multiset(b);
    assert b[0] in multiset(a);
    var i :| 0 <= i < |a| && a[i] == b[0];
    var j :| 0 <= j < |b| && b[j] == a[0];
    BeforeIsTotal(KeyOf(shares, a[0]), KeyOf(shares, b[0]));
  }

  lemma RestSame(a: seq<Block>, b: seq<Block>)
    requires a != [] && b != [] && a[0] == b[0] && multiset(a) == multiset(b)
    ensures multiset(a[1..]) == multiset(b[1..])
  {
    assert a == [a[0]] + a[1..] && b == [b[0]] + b[1..];
    assert multiset(a[1..]) == multiset(a) - multiset{a[0]};
    assert multiset(b[1..]) == multiset(b) - multiset{b[0]};
  }

  /** A sequence whose keys identify its blocks has only one descending arrangement. */
  lemma {:induction false} DescendingIsUnique(shares: Shares, a: seq<Block>, b: seq<Block>)
    requires Descending(shares, a) && Descending(shares, b) && multiset(a) == multiset(b)
    requires KeysIdentify(shares, a)
    ensures a == b
  {
    assert |b| == |multiset(b)| == |multiset(a)| == |a|;
    if a != [] {
      SameFirst(shares, a, b);
      RestSame(a, b);
      DescendingIsUnique(shares, a[1..], b[1..]);
      assert a == [a[0]] + a[1..] && b == [b[0]] + b[1..];
    }
  }

  // ---------------------------------------------------------------------------
  // The greedy choice
  // ---------------------------------------------------------------------------

  /** What a block costs: its token count, or its words when it has none, but never nothing. */
  function Cost(b: Block): (n: nat)
    ensures n >= 1 && n >= b.tokens
  {
    if b.tokens > 0 then b.tokens else if |Split(b.content)| > 1 then |Split(b.content)| else 1
  }

  function Total(blocks: seq<Block>, choice: seq<bool>): nat
    requires |choice| == |blocks|
  {
    if blocks == [] then 0
    else
      var n := |blocks| - 1;
      Total(blocks[..n], choice[..n]) + if choice[n] then Cost(blocks[n]) else 0
  }

  function Greedy(blocks: seq<Block>, budget: int): (choice: seq<bool>)
    ensures |choice| == |blocks|
  {
    if blocks == [] then []
    else
      var n := |blocks| - 1;
      var front := Greedy(blocks[..n], budget);
      front + [Total(blocks[..n], front) + Cost(blocks[n]) <= budget]
  }

  function Chosen(blocks: seq<Block>, choice: seq<bool>): seq<Block>
    requires |choice| == |blocks|
  {
    if blocks == [] then []
    else
      var n := |blocks| - 1;
      Chosen(blocks[..n], choice[..n]) + if choice[n] then [blocks[n]] else []
  }

  /** What the allocator selects: the greedy choice in priority order. */
  function Selected(shares: Shares, blocks: seq<Block>, budget: int): seq<Block> {
    var ordered := Ordered(shares, blocks);
    Chosen(ordered, Greedy(ordered, budget))
  }

  lemma {:induction false} TotalOfPrefix(blocks: seq<Block>, choice: seq<bool>, i: nat)
    requires |choice| == |blocks| && i <= |blocks|
    ensures Total(blocks[..i], choice[..i]) <= Total(blocks, choice)
    decreases |blocks|
  {
    if i == |blocks| {
      assert blocks[..i] == blocks && choice[..i] == choice;
    } else {
      var n := |blocks| - 1;
      assert blocks[..n][..i] == blocks[..i] && choice[..n][..i] == choice[..i];
      TotalOfPrefix(blocks[..n], choice[..n], i);
    }
  }

  lemma {:induction false} GreedyOfPrefix(blocks: seq<Block>, budget: int, i: nat)
    requires i <= |blocks|
    ensures Greedy(blocks, budget)[..i] == Greedy(blocks[..i], budget)
    decreases |blocks|
  {
    if i == |blocks| {
      assert blocks[..i] == blocks;
    } else {
      var n := |blocks| - 1;
      assert blocks[..n][..i] == blocks[..i];
      GreedyOfPrefix(blocks[..n], budget, i);
      assert Greedy(blocks, budget)[..n] == Greedy(blocks[..n], budget);
      assert Greedy(blocks, budget)[..i] == Greedy(blocks, budget)[..n][..i];
    }
  }

  /** The decision at one position, in terms of the blocks before it. */
  lemma GreedyAt(blocks: seq<Block>, budget: int, i: nat)
    requires i < |blocks|
    ensures var g := Greedy(blocks, budget);
            g[i] <==> Total(blocks[..i], g[..i]) + Cost(blocks[i]) <= budget
  {
    var g := Greedy(blocks, budget);
    GreedyOfPrefix(blocks, budget, i);
    GreedyOfPrefix(blocks, budget, i + 1);
    assert blocks[..i + 1][..i] == blocks[..i];
    assert g[i] == g[..i + 1][i];
  }

  /** No choice within the budget is lexicographically greater: where one first differs, it drops what the allocator kept. */
  lemma GreedyIsLexicographicallyGreatest(blocks: seq<Block>, budget: int, choice: seq<bool>, i: nat)
    requires |choice| == |blocks| && Total(blocks, choice) <= budget
    requires i < |blocks| && choice[..i] == Greedy(blocks, budget)[..i] && choice[i] != Greedy(blocks, budget)[i]
    ensures Greedy(blocks, budget)[i] && !choice[i]
  {
    GreedyAt(blocks, budget, i);
    TotalOfPrefix(blocks, choice, i + 1);
    assert blocks[..i + 1][..i] == blocks[..i] && choice[..i + 1][..i] == choice[..i];
  }

  lemma {:induction false} GreedyFits(blocks: seq<Block>, budget: int)
    requires budget >= 0
    ensures Total(blocks, Greedy(blocks, budget)) <= budget
  {
    if blocks != [] {
      var n := |blocks| - 1;
      GreedyFits(blocks[..n], budget);
      assert Greedy(blocks, budget)[..n] == Greedy(blocks[..n], budget);
    }
  }

  /** A dropped block does not fit beside the final selection either. */
  lemma DroppedDoesNotFit(blocks: seq<Block>, budget: int, i: nat)
    requires i < |blocks| && !Greedy(blocks, budget)[i]
    ensures Total(blocks, Greedy(blocks, budget)) + Cost(blocks[i]) > budget
  {
    GreedyAt(blocks, budget, i);
    TotalOfPrefix(blocks, Greedy(blocks, budget), i);
  }

  function Tokens(blocks: seq<Block>): int {
    if blocks == [] then 0 else Tokens(blocks[..|blocks| - 1]) + blocks[|blocks| - 1].tokens
  }

  lemma {:induction false} TokensWithinCost(blocks: seq<Block>, choice: seq<bool>)
    requires |choice| == |blocks|
    ensures Tokens(Chosen(blocks, choice)) <= Total(blocks, choice)
  {
    if blocks != [] {
      var n := |blocks| - 1;
      TokensWithinCost(blocks[..n], choice[..n]);
      var front := Chosen(blocks[..n], choice[..n]);
      assert front + [] == front;
      assert (front + [blocks[n]])[..|front|] == front;
    }
  }

  // ---------------------------------------------------------------------------
  // The allocator and the assembler
  // ---------------------------------------------------------------------------

  /** The block's own count, or its words when that is nothing. */
  method TokenCount(block: Block) returns (tokenCount: nat)
    ensures tokenCount == Cost(block)
  {
    tokenCount := Max(block.tokens, 0);
    if tokenCount == 0 {
      tokenCount := Max(|Split(block.content)|, 1);
    }
  }

  /** The allocator's loop over the blocks in priority order. */
  method Allocate(shares: Shares, blocks: seq<Block>, budget: int) returns (selected: seq<Block>, dropped: nat)
    ensures selected == Selected(shares, blocks, budget)
    ensures |selected| + dropped == |blocks|
  {
    var ordered := Ordered(shares, blocks);
    OrderedSorts(shares, blocks);
    assert |ordered| == |multiset(ordered)| == |blocks|;
    selected, dropped := [], 0;
    var usedTokens := 0;
    for i := 0 to |ordered|
      invariant selected == Chosen(ordered[..i], Greedy(ordered[..i], budget))
      invariant usedTokens == Total(ordered[..i], Greedy(ordered[..i], budget))
      invariant |selected| + dropped == i
    {
      var block := ordered[i];
      ghost var g := Greedy(ordered[..i + 1], budget);
      assert ordered[..i + 1][..i] == ordered[..i];
      assert g[..i] == Greedy(ordered[..i], budget);
      var tokenCount := TokenCount(block);
      if usedTokens + tokenCount <= budget {
        selected := selected + [block];
        usedTokens := usedTokens + tokenCount;
      } else {
        dropped := dropped + 1;
      }
    }
    assert ordered[..|ordered|] == ordered;
  }

  /** The order in which the blocks arrive does not matter when no two different blocks share a sort key. */
  lemma AllocationIgnoresInputOrder(shares: Shares, a: seq<Block>, b: seq<Block>)
    requires multiset(a) == multiset(b) && KeysIdentify(shares, a)
    ensures Ordered(shares, a) == Ordered(shares, b)
  {
    OrderedSorts(shares, a);
    OrderedSorts(shares, b);
    forall x | x in Ordered(shares, a) ensures x in a {
      assert x in multiset(a);
    }
    DescendingIsUnique(shares, Ordered(shares, a), Ordered(shares, b));
  }

  // ---------------------------------------------------------------------------
  // When the arrival order matters
  // ---------------------------------------------------------------------------

  function WithKey(shares: Shares, s: seq<Block>, k: Key): seq<Block> {
    if s == [] then []
    else (if KeyOf(shares, s[0]) == k then [s[0]] else []) + WithKey(shares, s[1..], k)
  }

  lemma {:induction false} WithKeyConcat(shares: Shares, a: seq<Block>, b: seq<Block>, k: Key)
    ensures WithKey(shares, a + b, k) == WithKey(shares, a, k) + WithKey(shares, b, k)
  {
    if a == [] {
      assert a + b == b;
    } else {
      assert (a + b)[1..] == a[1..] + b;
      WithKeyConcat(shares, a[1..], b, k);
    }
  }

  lemma {:induction false} NoneWithKey(shares: Shares, s: seq<Block>, k: Key)
    requires forall x | x in s :: KeyOf(shares, x) != k
    ensures WithKey(shares, s, k) == []
  {
    if s != [] {
      NoneWithKey(shares, s[1..], k);
    }
  }

  /** A block whose key comes before that of the first has a key none of the others has. */
  lemma KeyIsNew(shares: Shares, sorted: seq<Block>, b: Block)
    requires Descending(shares, sorted) && sorted != [] && Before(KeyOf(shares, b), KeyOf(shares, sorted[0]))
    ensures WithKey(shares, sorted, KeyOf(shares, b)) == []
  {
    var kb, first := KeyOf(shares, b), KeyOf(shares, sorted[0]);
    forall x | x in sorted ensures KeyOf(shares, x) != kb {
      BeforeIsTotal(first, KeyOf(shares, x));
      BeforeIsTotal(kb, first);
      var i :| 0 <= i < |sorted| && sorted[i] == x;
      assert i > 0 ==> !Before(KeyOf(shares, sorted[i]), KeyOf(shares, sorted[0]));
    }
    NoneWithKey(shares, sorted, kb);
  }

  lemma {:induction false} InsertIsStable(shares: Shares, sorted: seq<Block>, b: Block, k: Key)
    requires Descending(shares, sorted)
    ensures WithKey(shares, Insert(shares, sorted, b), k) ==
              WithKey(shares, sorted, k) + if KeyOf(shares, b) == k then [b] else []
  {
    if sorted == [] {
      WithKeyCons(shares, b, [], k);
    } else if Before(KeyOf(shares, b), KeyOf(shares, sorted[0])) {
      WithKeyCons(shares, b, sorted, k);
      if KeyOf(shares, b) == k {
        KeyIsNew(shares, sorted, b);
      }
    } else {
      InsertIsStable(shares, sorted[1..], b, k);
      WithKeyCons(shares, sorted[0], Insert(shares, sorted[1..], b), k);
    }
  }

  lemma WithKeyCons(shares: Shares, b: Block, s: seq<Block>, k: Key)
    ensures WithKey(shares, [b] + s, k) == (if KeyOf(shares, b) == k then [b] else []) + WithKey(shares, s, k)
  {
    assert ([b] + s)[1..] == s;
  }

  /** Sorting keeps blocks of one key in their order of arrival. */
  lemma {:induction false} OrderedIsStable(shares: Shares, s: seq<Block>, k: Key)
    ensures WithKey(shares, Ordered(shares, s), k) == WithKey(shares, s, k)
  {
    if s != [] {
      var front, last := s[..|s| - 1], s[|s| - 1];
      assert s == front + [last];
      OrderedIsStable(shares, front, k);
      OrderedSorts(shares, front);
      InsertIsStable(shares, Ordered(shares, front), last, k);
      WithKeyConcat(shares, front, [last], k);
    }
  }

  function CostOf(blocks: seq<Block>): nat {
    if blocks == [] then 0 else CostOf(blocks[..|blocks| - 1]) + Cost(blocks[|blocks| - 1])
  }

  /** With budget enough for everything, everything is selected, in priority order. */
  lemma {:induction false} AmpleBudgetTakesAll(blocks: seq<Block>, budget: int)
    requires CostOf(blocks) <= budget
    ensures Chosen(blocks, Greedy(blocks, budget)) == blocks && Total(blocks, Greedy(blocks, budget)) == CostOf(blocks)
  {
    if blocks != [] {
      var n := |blocks| - 1;
      AmpleBudgetTakesAll(blocks[..n], budget);
      assert Greedy(blocks, budget)[..n] == Greedy(blocks[..n], budget);
      assert blocks == blocks[..n] + [blocks[n]];
    }
  }

  /** Two arrivals of the same blocks that differ in which of two equally ranked ones comes first. */
  lemma Swapped(shares: Shares, a: seq<Block>, i: nat, j: nat) returns (b: seq<Block>, c: seq<Block>)
    requires i < j < |a| && a[i] != a[j] && KeyOf(shares, a[i]) == KeyOf(shares, a[j])
    ensures multiset(b) == multiset(a) && multiset(c) == multiset(a)
    ensures Ordered(shares, b) != Ordered(shares, c)
  {
    var x, y, k := a[i], a[j], KeyOf(shares, a[i]);
    var rest := a[..i] + a[i + 1..j] + a[j + 1..];
    assert a == a[..i] + [x] + a[i + 1..j] + [y] + a[j + 1..];
    b, c := [x] + ([y] + rest), [y] + ([x] + rest);
    OrderedIsStable(shares, b, k);
    OrderedIsStable(shares, c, k);
    assert WithKey(shares, b, k)[0] == x && WithKey(shares, c, k)[0] == y;
  }

  /** Some arrival of the same blocks is selected from differently. */
  lemma SharedKeyMatters(shares: Shares, a: seq<Block>, i: nat, j: nat)
    requires i < j < |a| && a[i] != a[j] && KeyOf(shares, a[i]) == KeyOf(shares, a[j])
    ensures exists b, budget :: multiset(b) == multiset(a) && Selected(shares, b, budget) != Selected(shares, a, budget)
  {
    var b, c := Swapped(shares, a, i, j);
    var budget := CostOf(Ordered(shares, a)) + CostOf(Ordered(shares, b)) + CostOf(Ordered(shares, c));
    AmpleBudgetTakesAll(Ordered(shares, a), budget);
    AmpleBudgetTakesAll(Ordered(shares, b), budget);
    AmpleBudgetTakesAll(Ordered(shares, c), budget);
    assert Selected(shares, b, budget) != Selected(shares, a, budget) || Selected(shares, c, budget) != Selected(shares, a, budget);
  }

  ghost predicate OrderIrrelevant(shares: Shares, a: seq<Block>) {
    forall b, budget :: multiset(b) == multiset(a) ==> Selected(shares, b, budget) == Selected(shares, a, budget)
  }

  /**
    The order in which the blocks arrive never matters, whatever the budget, exactly when no two
    different blocks share a sort key.
   */
  lemma OrderMattersOnlyForSharedKeys(shares: Shares, a: seq<Block>)
    ensures OrderIrrelevant(shares, a) <==> KeysIdentify(shares, a)
  {
    if KeysIdentify(shares, a) {
      forall b, budget: int | multiset(b) == multiset(a) ensures Selected(shares, b, budget) == Selected(shares, a, budget) {
        AllocationIgnoresInputOrder(shares, a, b);
      }
    } else {
      var x, y :| x in a && y in a && KeyOf(shares, x) == KeyOf(shares, y) && x != y;
      var i :| 0 <= i < |a| && a[i] == x;
      var j :| 0 <= j < |a| && a[j] == y;
      SharedKeyMatters(shares, a, if i < j then i else j, if i < j then j else i);
    }
  }

  datatype Provided = Blocks(blocks: seq<Block>) | ProviderFailed | Cancelled

  datatype Assembled = Assembled(blocks: seq<Block>, totalTokens: int, dropped: nat)

  function Gathered(results: seq<Provided>): seq<Block> {
    if results == [] then []
    else Gathered(results[..|results| - 1]) +
         if results[|results| - 1].Blocks? then results[|results| - 1].blocks else []
  }

  function Normalised(blocks: seq<Block>, count: string -> int): seq<Block> {
    seq(|blocks|, i requires 0 <= i < |blocks| =>
      blocks[i].(tokens := if blocks[i].tokens != 0 then blocks[i].tokens else count(blocks[i].content)))
  }

  /** Failed providers are skipped, a cancellation is passed on; the tokens reported never exceed the budget. */
  method Assemble(shares: Shares, results: seq<Provided>, count: string -> int, budget: int)
    returns (assembled: Option<Assembled>)
    ensures assembled.None? <==> Cancelled in results
    ensures assembled.Some? ==>
              var blocks := Normalised(Gathered(results), count);
              && assembled.value.blocks == Selected(shares, blocks, budget)
              && |assembled.value.blocks| + assembled.value.dropped == |blocks|
              && (budget >= 0 ==> assembled.value.totalTokens <= budget)
              && assembled.value.totalTokens == Tokens(assembled.value.blocks)
  {
    var aggregated := [];
    for i := 0 to |results|
      invariant aggregated == Gathered(results[..i]) && Cancelled !in results[..i]
    {
      assert results[..i + 1][..i] == results[..i];
      assert results[..i + 1] == results[..i] + [results[i]];
      if results[i].Cancelled? {
        return None;
      }
      if results[i].Blocks? {
        aggregated := aggregated + results[i].blocks;
      }
    }
    assert results[..|results|] == results;
    var normalised := seq(|aggregated|, i requires 0 <= i < |aggregated| =>
      var block := aggregated[i];
      Block(block.kind, block.content, block.source, if block.tokens == 0 then count(block.content) else block.tokens));
    assert normalised == Normalised(aggregated, count);
    var selected, dropped := Allocate(shares, normalised, budget);
    ghost var ordered := Ordered(shares, normalised);
    TokensWithinCost(ordered, Greedy(ordered, budget));
    if budget >= 0 {
      GreedyFits(ordered, budget);
    }
    var totalTokens := 0;
    for i := 0 to |selected|
      invariant totalTokens == Tokens(selected[..i])
    {
      assert selected[..i + 1][..i] == selected[..i];
      totalTokens := totalTokens + selected[i].tokens;
    }
    assert selected[..|selected|] == selected;
    return Some(Assembled(selected, totalTokens, dropped));
  }
}
