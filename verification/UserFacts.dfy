/**
  Promoting a user fact: look for the active record of the same content, otherwise insert one.

  Callers interleave freely with each other and with deletions, and may die at any point.  The
  database contributes three things only: a locking read waits for the lock and then drops a row
  that stopped matching, an uncommitted insert makes later inserts of the same key wait, and the
  partial unique index refuses an insert whose key is already active.
 */
module UserFacts {
  import opened Common
  import opened Batches
  import opened Text

  type RowId = nat
  type Owner = nat
  type TurnId = nat
  type ClientId = nat

  // ---------------------------------------------------------------------------
  // The key of a fact
  // ---------------------------------------------------------------------------

  datatype Memory = Memory(kind: string, owner: Option<Owner>, content: string, turns: seq<TurnId>)

  /** Lower-casing and hashing are foreign. */
  datatype Codec = Codec(lower: string -> string, hash: string -> string)

  datatype Key = Key(owner: Owner, digest: string)

  datatype Request = Request(key: Key, turns: seq<TurnId>)

  function NormalForm(codec: Codec, content: string): string {
    Join(Split(codec.lower(content)))
  }

  /** Only owned conversation summaries can be promoted. */
  function Promote(codec: Codec, m: Memory): Option<Request> {
    if m.kind != "conversation_summary" || m.owner.None? then None
    else Some(Request(Key(m.owner.value, codec.hash(NormalForm(codec, m.content))), m.turns))
  }

  /** Exactly owned conversation summaries are promoted, each with its own source turns, and owners never share a record. */
  lemma PromotedExactly(codec: Codec, m: Memory, n: Memory)
    ensures Promote(codec, m).Some? <==> m.kind == "conversation_summary" && m.owner.Some?
    ensures Promote(codec, m).Some? ==> Promote(codec, m).value.turns == m.turns
    ensures Promote(codec, m).Some? && Promote(codec, n).Some? && m.owner != n.owner ==>
              Promote(codec, m).value.key != Promote(codec, n).value.key
  {
  }

  ghost predicate Injective(f: string -> string) {
    forall a, b :: f(a) == f(b) ==> a == b
  }

  /** Two contents share a normal form exactly when their lowered words are the same. */
  lemma NormalFormIsWords(codec: Codec, a: string, b: string)
    ensures NormalForm(codec, a) == NormalForm(codec, b) <==> Split(codec.lower(a)) == Split(codec.lower(b))
    ensures codec.lower(NormalForm(codec, a)) == NormalForm(codec, a) ==>
              NormalForm(codec, NormalForm(codec, a)) == NormalForm(codec, a)
  {
    forall x ensures Split(NormalForm(codec, x)) == Split(codec.lower(x)) {
      SplitGivesWords(codec.lower(x));
      SplitUndoesJoin(Split(codec.lower(x)));
    }
  }

  /** With an injective hash, two promotions compete for one record exactly when owner and words agree. */
  lemma SameKeyMeansSameWords(codec: Codec, a: Memory, b: Memory)
    requires Injective(codec.hash) && Promote(codec, a).Some? && Promote(codec, b).Some?
    ensures Promote(codec, a).value.key == Promote(codec, b).value.key <==>
              a.owner == b.owner && Split(codec.lower(a.content)) == Split(codec.lower(b.content))
  {
    NormalFormIsWords(codec, a.content, b.content);
  }

  // ---------------------------------------------------------------------------
  // The interleaved machine
  // ---------------------------------------------------------------------------

  datatype Record = Record(key: Key, turns: seq<TurnId>, deleted: bool)

  datatype Fact = Fact(id: RowId, turns: seq<TurnId>)

  /** How a caller came by its record; only Created is reported as created. */
  datatype How = Created | Merged | Raced

  datatype Event =
    | Told(req: Request, id: RowId, how: How)
    | Deleted(key: Key, id: RowId)
    | Raised(req: Request, since: nat)

  /** `since` is the log's length when the unique index refused the caller's insert. */
  datatype Phase =
    | Idle
    | Asked(req: Request, since: Option<nat>)
    | Looking(req: Request, since: Option<nat>, seen: Option<RowId>)
    | Holding(req: Request, fact: Fact)
    | Ready(req: Request)
    | Inserted(req: Request, id: RowId)

  datatype System = System(
    records: map<RowId, Record>, clients: map<ClientId, Phase>, used: set<RowId>, log: seq<Event>)

  const EMPTY := System(map[], map[], {}, [])

  datatype Action =
    | Ask(c: ClientId, req: Request)
    | Look(c: ClientId, seen: Option<RowId>)
    | Resolve(c: ClientId)
    | Merge(c: ClientId)
    | Insert(c: ClientId, id: RowId)
    | Commit(c: ClientId)
    | Delete(id: RowId)
    | Abort(c: ClientId)

  function At(s: System, c: ClientId): Phase {
    if c in s.clients then s.clients[c] else Idle
  }

  predicate ActiveIn(records: map<RowId, Record>, key: Key, id: RowId) {
    id in records && !records[id].deleted && records[id].key == key
  }

  ghost predicate HasActive(records: map<RowId, Record>, key: Key) {
    exists id :: ActiveIn(records, key, id)
  }

  ghost predicate Free(s: System, id: RowId) {
    forall c | c in s.clients && s.clients[c].Holding? :: s.clients[c].fact.id != id
  }

  ghost predicate Enabled(s: System, a: Action) {
    match a
    case Ask(c, _) => At(s, c).Idle?
    case Look(c, seen) =>
      // The statement's snapshot of the committed rows.
      At(s, c).Asked? &&
      if seen.Some? then ActiveIn(s.records, At(s, c).req.key, seen.value) else !HasActive(s.records, At(s, c).req.key)
    case Resolve(c) => At(s, c).Looking? && (At(s, c).seen.Some? ==> Free(s, At(s, c).seen.value))
    case Merge(c) => At(s, c).Holding?
    case Insert(c, id) =>
      At(s, c).Ready? && id !in s.used &&
      forall d | d in s.clients && s.clients[d].Inserted? :: s.clients[d].req.key != At(s, c).req.key
    case Commit(c) => At(s, c).Inserted?
    case Delete(id) => id in s.records && !s.records[id].deleted && Free(s, id)
    case Abort(c) => true
  }

  function To(s: System, c: ClientId, phase: Phase): System {
    s.(clients := s.clients[c := phase])
  }

  function Log(s: System, e: Event): System {
    s.(log := s.log + [e])
  }

  ghost function Apply(s: System, a: Action): System
    requires Enabled(s, a)
  {
    match a
    case Ask(c, req) => To(s, c, Asked(req, None))
    case Look(c, seen) => To(s, c, Looking(At(s, c).req, At(s, c).since, seen))
    case Resolve(c) =>
      var Looking(req, since, seen) := At(s, c);
      if seen.Some? && ActiveIn(s.records, req.key, seen.value) then
        if since.None? then To(s, c, Holding(req, Fact(seen.value, s.records[seen.value].turns)))
        else Log(To(s, c, Idle), Told(req, seen.value, Raced))
      else if since.None? then To(s, c, Ready(req))
      else Log(To(s, c, Idle), Raised(req, since.value))
    case Merge(c) =>
      var Holding(req, fact) := At(s, c);
      Log(To(s, c, Idle), Told(req, fact.id, Merged))
        .(records := s.records[fact.id := Record(req.key, Distinctly(fact.turns + req.turns), false)])
    case Insert(c, id) =>
      var req := At(s, c).req;
      if HasActive(s.records, req.key) then To(s, c, Asked(req, Some(|s.log|))).(used := s.used + {id})
      else To(s, c, Inserted(req, id)).(used := s.used + {id})
    case Commit(c) =>
      var Inserted(req, id) := At(s, c);
      Log(To(s, c, Idle), Told(req, id, Created)).(records := s.records[id := Record(req.key, req.turns, false)])
    case Delete(id) =>
      Log(s, Deleted(s.records[id].key, id)).(records := s.records[id := s.records[id].(deleted := true)])
    case Abort(c) => To(s, c, Idle)
  }

  ghost predicate CanRun(s: System, actions: seq<Action>)
    decreases |actions|
  {
    actions == [] || (Enabled(s, actions[0]) && CanRun(Apply(s, actions[0]), actions[1..]))
  }

  ghost function Run(s: System, actions: seq<Action>): System
    requires CanRun(s, actions)
    decreases |actions|
  {
    if actions == [] then s else Run(Apply(s, actions[0]), actions[1..])
  }

  // ---------------------------------------------------------------------------
  // The atomic specification
  // ---------------------------------------------------------------------------

  type Facts = map<Key, Fact>

  /** One event, as an atomic get-or-create, deletion or error would do it. */
  function Effect(facts: Facts, e: Event): Facts {
    match e
    case Told(req, id, Created) => facts[req.key := Fact(id, req.turns)]
    case Told(req, id, Merged) =>
      if req.key in facts then facts[req.key := Fact(id, Distinctly(facts[req.key].turns + req.turns))] else facts
    case Told(_, _, Raced) => facts
    case Deleted(key, _) => facts - {key}
    case Raised(_, _) => facts
  }

  function Replay(log: seq<Event>): Facts {
    if log == [] then map[] else Effect(Replay(log[..|log| - 1]), log[|log| - 1])
  }

  predicate Creates(e: Event, id: RowId) {
    e.Told? && e.how.Created? && e.id == id
  }

  ghost predicate DeletedSince(log: seq<Event>, since: nat, key: Key) {
    exists j :: since <= j < |log| && log[j].Deleted? && log[j].key == key
  }

  /**
    What was reported is what the atomic operation returns here: a new record only when there is
    none, the existing one otherwise, and an error only if a record of that key was deleted
    after the insert had been refused.
   */
  ghost predicate Legal(log: seq<Event>, e: Event) {
    match e
    case Told(req, id, how) =>
      if how.Created? then req.key !in Replay(log) && forall j | 0 <= j < |log| :: !Creates(log[j], id)
      else req.key in Replay(log) && Replay(log)[req.key].id == id
    case Deleted(key, id) => key in Replay(log) && Replay(log)[key].id == id
    case Raised(req, since) => DeletedSince(log, since, req.key)
  }

  ghost predicate Explained(log: seq<Event>) {
    forall i | 0 <= i < |log| :: Legal(log[..i], log[i])
  }

  /** The active records are the specification's facts. */
  ghost predicate Matches(records: map<RowId, Record>, facts: Facts) {
    && (forall id | id in records && !records[id].deleted ::
          records[id].key in facts && facts[records[id].key] == Fact(id, records[id].turns))
    && (forall key | key in facts :: ActiveIn(records, key, facts[key].id))
  }

  /** A refused insert means the key is still active or was deleted since. */
  ghost predicate RefusalExplained(s: System, key: Key, since: nat) {
    since <= |s.log| && (key in Replay(s.log) || DeletedSince(s.log, since, key))
  }

  ghost predicate PhaseOk(s: System, phase: Phase) {
    var facts := Replay(s.log);
    match phase
    case Asked(req, Some(since)) => RefusalExplained(s, req.key, since)
    case Looking(req, Some(since), seen) =>
      since <= |s.log| &&
      ((seen.Some? && ActiveIn(s.records, req.key, seen.value)) || DeletedSince(s.log, since, req.key))
    case Holding(req, fact) => req.key in facts && facts[req.key] == fact
    case Inserted(req, id) => id in s.used && id !in s.records && req.key !in facts
    case _ => true
  }

  ghost predicate Apart(a: Phase, b: Phase) {
    && (a.Inserted? && b.Inserted? ==> a.req.key != b.req.key && a.id != b.id)
    && (a.Holding? && b.Holding? ==> a.fact.id != b.fact.id)
  }

  ghost predicate Inv(s: System) {
    && Explained(s.log)
    && Matches(s.records, Replay(s.log))
    && s.records.Keys <= s.used
    && (forall j | 0 <= j < |s.log| && s.log[j].Told? :: s.log[j].id in s.records)
    && (forall c | c in s.clients :: PhaseOk(s, s.clients[c]))
    && (forall c, d | c in s.clients && d in s.clients && c != d :: Apart(s.clients[c], s.clients[d]))
  }

  lemma ExplainedSnoc(log: seq<Event>, e: Event)
    requires Explained(log) && Legal(log, e)
    ensures Explained(log + [e]) && Replay(log + [e]) == Effect(Replay(log), e)
  {
    assert (log + [e])[..|log|] == log;
    forall i | 0 <= i < |log| ensures Legal((log + [e])[..i], (log + [e])[i]) {
      assert (log + [e])[..i] == log[..i];
    }
  }

  lemma DeletedSinceGrows(log: seq<Event>, e: Event, since: nat, key: Key)
    requires DeletedSince(log, since, key)
    ensures DeletedSince(log + [e], since, key)
  {
    var j :| since <= j < |log| && log[j].Deleted? && log[j].key == key;
    assert (log + [e])[j] == log[j];
  }

  /** A step that only moves one client. */
  lemma MoveKeepsInv(s: System, c: ClientId, phase: Phase, used: set<RowId>)
    requires Inv(s) && s.used <= used && PhaseOk(s.(used := used), phase)
    requires forall d | d in s.clients && d != c :: Apart(phase, s.clients[d]) && Apart(s.clients[d], phase)
    ensures Inv(To(s, c, phase).(used := used))
  {
    var t := To(s, c, phase).(used := used);
    forall d | d in t.clients ensures PhaseOk(t, t.clients[d]) {
      assert d != c ==> PhaseOk(s, s.clients[d]);
    }
  }

  lemma {:induction false} StepKeepsInvQuietly(s: System, a: Action)
    requires Inv(s) && Enabled(s, a) && Apply(s, a).log == s.log
    ensures Inv(Apply(s, a))
  {
    if a.Delete? {
      assert false;
    } else {
      assert PhaseOk(s, At(s, a.c));
      MoveKeepsInv(s, a.c, At(Apply(s, a), a.c), Apply(s, a).used);
    }
  }

  /** Event `e` leaves alone what another client holds or has inserted. */
  predicate Disjoint(e: Event, phase: Phase) {
    && (phase.Inserted? && e.Told? && e.how.Created? ==> e.req.key != phase.req.key && e.id != phase.id)
    && (phase.Holding? && e.Told? && e.how.Merged? ==> e.id != phase.fact.id)
    && (phase.Holding? && e.Deleted? ==> e.id != phase.fact.id)
  }

  /** The records and the log move together. */
  ghost predicate Advanced(s: System, t: System, e: Event) {
    && Inv(s) && Legal(s.log, e) && t.log == s.log + [e] && t.used == s.used
    && Replay(t.log) == Effect(Replay(s.log), e) && Matches(t.records, Replay(t.log))
    && s.records.Keys <= t.records.Keys <= s.used
    && (forall id | id in t.records && id !in s.records :: Creates(e, id))
    && (forall id | id in t.records && id in s.records ::
          && s.records[id].key == t.records[id].key
          && (t.records[id].deleted && !s.records[id].deleted ==> e.Deleted? && e.id == id))
  }

  /** What is known about a client that looks again after a refusal survives. */
  lemma RefusedKept(s: System, t: System, e: Event, phase: Phase)
    requires Advanced(s, t, e) && PhaseOk(s, phase)
    requires (phase.Asked? || phase.Looking?) && phase.since.Some?
    ensures PhaseOk(t, phase)
  {
    var since, key := phase.since.value, phase.req.key;
    if DeletedSince(s.log, since, key) {
      DeletedSinceGrows(s.log, e, since, key);
    } else {
      assert e.Deleted? && e.key == key ==> DeletedSince(t.log, since, key) by {
        assert t.log[|s.log|] == e;
      }
    }
  }

  lemma OthersKept(s: System, t: System, e: Event, phase: Phase)
    requires Advanced(s, t, e) && PhaseOk(s, phase) && Disjoint(e, phase)
    ensures PhaseOk(t, phase)
  {
    if phase.Holding? {
      HoldingKept(s, t, e, phase);
    } else if phase.Inserted? {
      InsertedKept(s, t, e, phase);
    } else if (phase.Asked? || phase.Looking?) && phase.since.Some? {
      RefusedKept(s, t, e, phase);
    }
  }

  lemma HoldingKept(s: System, t: System, e: Event, phase: Phase)
    requires Advanced(s, t, e) && PhaseOk(s, phase) && Disjoint(e, phase) && phase.Holding?
    ensures PhaseOk(t, phase)
  {
    var key, facts := phase.req.key, Replay(s.log);
    assert Effect(facts, e) == Replay(t.log);
    assert key in Effect(facts, e) && Effect(facts, e)[key] == facts[key];
  }

  lemma InsertedKept(s: System, t: System, e: Event, phase: Phase)
    requires Advanced(s, t, e) && PhaseOk(s, phase) && Disjoint(e, phase) && phase.Inserted?
    ensures PhaseOk(t, phase)
  {
    assert phase.req.key !in Effect(Replay(s.log), e);
    assert phase.id !in t.records;
  }

  /** A step that reports something and takes one client, if any, back to Idle. */
  lemma ReportKeepsInv(s: System, t: System, e: Event)
    requires Advanced(s, t, e)
    requires forall d | d in t.clients ::
               t.clients[d].Idle? || (d in s.clients && t.clients[d] == s.clients[d] && Disjoint(e, s.clients[d]))
    requires e.Told? ==> e.id in t.records
    ensures Inv(t)
  {
    ExplainedSnoc(s.log, e);
    forall d | d in t.clients && !t.clients[d].Idle? ensures PhaseOk(t, t.clients[d]) {
      OthersKept(s, t, e, s.clients[d]);
    }
  }

  lemma MatchesCreation(records: map<RowId, Record>, facts: Facts, req: Request, id: RowId)
    requires Matches(records, facts) && req.key !in facts && id !in records
    ensures Matches(records[id := Record(req.key, req.turns, false)], facts[req.key := Fact(id, req.turns)])
  {
    var after := records[id := Record(req.key, req.turns, false)];
    forall r | r in after && !after[r].deleted && r != id ensures after[r].key != req.key {
      assert r in records;
    }
    forall key | key in facts ensures ActiveIn(after, key, facts[key].id) {
      assert ActiveIn(records, key, facts[key].id);
    }
  }

  lemma MatchesDeletion(records: map<RowId, Record>, facts: Facts, id: RowId)
    requires Matches(records, facts) && id in records && !records[id].deleted
    ensures Matches(records[id := records[id].(deleted := true)], facts - {records[id].key})
  {
    var after := records[id := records[id].(deleted := true)];
    forall key | key in facts && key != records[id].key ensures ActiveIn(after, key, facts[key].id) {
      assert ActiveIn(records, key, facts[key].id);
    }
  }

  lemma MergeKeepsInv(s: System, c: ClientId)
    requires Inv(s) && At(s, c).Holding?
    ensures Inv(Apply(s, Merge(c)))
  {
    var Holding(req, fact) := At(s, c);
    MergeAdvances(s, c);
    assert forall d | d in s.clients && d != c :: Apart(s.clients[c], s.clients[d]);
    ReportKeepsInv(s, Apply(s, Merge(c)), Told(req, fact.id, Merged));
  }

  lemma MergeAdvances(s: System, c: ClientId)
    requires Inv(s) && At(s, c).Holding?
    ensures Advanced(s, Apply(s, Merge(c)), Told(At(s, c).req, At(s, c).fact.id, Merged))
  {
    var Holding(req, fact) := At(s, c);
    assert PhaseOk(s, At(s, c));
    ExplainedSnoc(s.log, Told(req, fact.id, Merged));
  }

  lemma CommitKeepsInv(s: System, c: ClientId)
    requires Inv(s) && At(s, c).Inserted?
    ensures Inv(Apply(s, Commit(c)))
  {
    var Inserted(req, id) := At(s, c);
    CommitAdvances(s, c);
    assert forall d | d in s.clients && d != c :: Apart(s.clients[c], s.clients[d]);
    ReportKeepsInv(s, Apply(s, Commit(c)), Told(req, id, Created));
  }

  lemma CommitAdvances(s: System, c: ClientId)
    requires Inv(s) && At(s, c).Inserted?
    ensures Advanced(s, Apply(s, Commit(c)), Told(At(s, c).req, At(s, c).id, Created))
  {
    var Inserted(req, id) := At(s, c);
    assert PhaseOk(s, At(s, c));
    CreationIsLegal(s, req, id);
    ExplainedSnoc(s.log, Told(req, id, Created));
    MatchesCreation(s.records, Replay(s.log), req, id);
  }

  lemma CreationIsLegal(s: System, req: Request, id: RowId)
    requires Inv(s) && PhaseOk(s, Inserted(req, id))
    ensures Legal(s.log, Told(req, id, Created))
  {
    forall j | 0 <= j < |s.log| ensures !Creates(s.log[j], id) {
      assert s.log[j].Told? ==> s.log[j].id in s.records;
    }
  }

  lemma DeleteKeepsInv(s: System, id: RowId)
    requires Inv(s) && Enabled(s, Delete(id))
    ensures Inv(Apply(s, Delete(id)))
  {
    var e := Deleted(s.records[id].key, id);
    ExplainedSnoc(s.log, e);
    MatchesDeletion(s.records, Replay(s.log), id);
    ReportKeepsInv(s, Apply(s, Delete(id)), e);
  }

  lemma ResolveKeepsInv(s: System, c: ClientId)
    requires Inv(s) && Enabled(s, Resolve(c)) && Apply(s, Resolve(c)).log != s.log
    ensures Inv(Apply(s, Resolve(c)))
  {
    var Looking(req, since, seen) := At(s, c);
    assert PhaseOk(s, At(s, c));
    var e := if seen.Some? && ActiveIn(s.records, req.key, seen.value) then Told(req, seen.value, Raced) else Raised(req, since.value);
    ExplainedSnoc(s.log, e);
    ReportKeepsInv(s, Apply(s, Resolve(c)), e);
  }

  lemma StepKeepsInv(s: System, a: Action)
    requires Inv(s) && Enabled(s, a)
    ensures Inv(Apply(s, a))
  {
    if a.Merge? {
      MergeKeepsInv(s, a.c);
    } else if a.Commit? {
      CommitKeepsInv(s, a.c);
    } else if a.Delete? {
      DeleteKeepsInv(s, a.id);
    } else if a.Resolve? && Apply(s, a).log != s.log {
      ResolveKeepsInv(s, a.c);
    } else {
      StepKeepsInvQuietly(s, a);
    }
  }

  lemma {:induction false} RunKeepsInv(s: System, actions: seq<Action>)
    requires Inv(s) && CanRun(s, actions)
    ensures Inv(Run(s, actions))
    decreases |actions|
  {
    if actions != [] {
      StepKeepsInv(s, actions[0]);
      RunKeepsInv(Apply(s, actions[0]), actions[1..]);
    }
  }

  /**
    Over every interleaving: the log of what callers were told replays as atomic operations, the
    active records are exactly the facts it leaves, and no two of them share a key.
   */
  lemma PromotionsAreLinearizable(actions: seq<Action>)
    requires CanRun(EMPTY, actions)
    ensures var s := Run(EMPTY, actions);
            && Explained(s.log)
            && Matches(s.records, Replay(s.log))
            && forall a, b | a in s.records && b in s.records && !s.records[a].deleted && !s.records[b].deleted ::
                 s.records[a].key == s.records[b].key ==> a == b
  {
    RunKeepsInv(EMPTY, actions);
  }

  // ---------------------------------------------------------------------------
  // What callers can rely on
  // ---------------------------------------------------------------------------

  lemma ExplainedFront(log: seq<Event>)
    requires Explained(log) && log != []
    ensures Explained(log[..|log| - 1]) && Legal(log[..|log| - 1], log[|log| - 1])
  {
    var front := log[..|log| - 1];
    forall i | 0 <= i < |front| ensures Legal(front[..i], front[i]) {
      assert front[..i] == log[..i];
    }
  }

  lemma {:induction false} FactsWereCreated(log: seq<Event>, key: Key)
    requires Explained(log) && key in Replay(log)
    ensures exists i :: 0 <= i < |log| && Creates(log[i], Replay(log)[key].id) && log[i].req.key == key
    decreases |log|
  {
    var front, e := log[..|log| - 1], log[|log| - 1];
    ExplainedFront(log);
    if e.Told? && e.how.Created? && e.req.key == key {
      assert Creates(log[|log| - 1], Replay(log)[key].id);
    } else {
      FactsWereCreated(front, key);
      var i :| 0 <= i < |front| && Creates(front[i], Replay(front)[key].id) && front[i].req.key == key;
      assert log[i] == front[i];
    }
  }

  /** Of all the callers told about one record, exactly one is told that it created it, before all the others. */
  lemma ExactlyOneCreates(log: seq<Event>, i: nat)
    requires Explained(log) && i < |log| && log[i].Told?
    ensures exists j :: 0 <= j <= i && Creates(log[j], log[i].id) && log[j].req.key == log[i].req.key &&
              forall k | 0 <= k < |log| && k != j :: !Creates(log[k], log[i].id)
  {
    var id, j := log[i].id, i as int;
    assert Legal(log[..i], log[i]);
    if !log[i].how.Created? {
      ExplainedPrefix(log, i);
      FactsWereCreated(log[..i], log[i].req.key);
      j :| 0 <= j < i && Creates(log[..i][j], id) && log[..i][j].req.key == log[i].req.key;
    }
    forall k | 0 <= k < |log| && k != j ensures !Creates(log[k], id) {
      assert Legal(log[..k], log[k]) && Legal(log[..j], log[j]);
      if k < j {
        assert log[..j][k] == log[k];
      } else {
        assert log[..k][j] == log[j];
      }
    }
  }

  lemma ExplainedPrefix(log: seq<Event>, n: nat)
    requires Explained(log) && n <= |log|
    ensures Explained(log[..n])
  {
    forall i | 0 <= i < n ensures Legal(log[..n][..i], log[..n][i]) {
      assert log[..n][..i] == log[..i];
    }
  }

  /** A fact that some caller was told about stays the fact of its key until it is deleted. */
  lemma {:induction false} FactStays(log: seq<Event>, i: nat)
    requires Explained(log) && i < |log| && log[i].Told?
    ensures var key := log[i].req.key;
            (key in Replay(log) && Replay(log)[key].id == log[i].id) || DeletedSince(log, i + 1, key)
    decreases |log|
  {
    var n, key := |log| - 1, log[i].req.key;
    var front, e := log[..n], log[n];
    ExplainedFront(log);
    assert log == front + [e];
    if i < n {
      FactStays(front, i);
      if DeletedSince(front, i + 1, key) {
        DeletedSinceGrows(front, e, i + 1, key);
      } else {
        EffectKeepsFact(front, e, key);
      }
    }
  }

  /** One event leaves a fact its identity, unless it deletes it. */
  lemma EffectKeepsFact(log: seq<Event>, e: Event, key: Key)
    requires Legal(log, e) && key in Replay(log)
    ensures if e.Deleted? && e.key == key then DeletedSince(log + [e], |log|, key)
            else key in Effect(Replay(log), e) && Effect(Replay(log), e)[key].id == Replay(log)[key].id
  {
    assert (log + [e])[|log|] == e;
  }

  /** Two callers asking for the same key get the same record unless it was deleted in between. */
  lemma DifferentRecordsMeanDeletion(log: seq<Event>, i: nat, j: nat)
    requires Explained(log) && i < j < |log| && log[i].Told? && log[j].Told?
    requires log[i].req.key == log[j].req.key && log[i].id != log[j].id
    ensures DeletedSince(log[..j], i + 1, log[i].req.key)
  {
    ExplainedPrefix(log, j);
    assert log[..j][i] == log[i];
    FactStays(log[..j], i);
    assert Legal(log[..j], log[j]);
  }

  /**
    Over every interleaving, two callers promoting contents of the same words for the same owner end
    up with the same record unless it was deleted in between, and with other words never do.
   */
  lemma SameWordsSameRecord(codec: Codec, actions: seq<Action>, a: Memory, b: Memory, i: nat, j: nat)
    requires Injective(codec.hash) && Promote(codec, a).Some? && Promote(codec, b).Some?
    requires CanRun(EMPTY, actions)
    requires var log := Run(EMPTY, actions).log;
             && i < j < |log| && log[i].Told? && log[j].Told?
             && log[i].req == Promote(codec, a).value && log[j].req == Promote(codec, b).value
    ensures var log := Run(EMPTY, actions).log;
            if a.owner == b.owner && Split(codec.lower(a.content)) == Split(codec.lower(b.content))
            then log[i].id == log[j].id || DeletedSince(log[..j], i + 1, log[i].req.key)
            else log[i].id != log[j].id
  {
    PromotionsAreLinearizable(actions);
    SameKeyMeansSameWords(codec, a, b);
    var log := Run(EMPTY, actions).log;
    if log[i].req.key == log[j].req.key && log[i].id != log[j].id {
      DifferentRecordsMeanDeletion(log, i, j);
    } else if log[i].id == log[j].id {
      ExactlyOneCreates(log, i);
      ExactlyOneCreates(log, j);
    }
  }

  /** Event `e` put turn `t` on record `id`. */
  predicate Contributes(e: Event, id: RowId, t: TurnId) {
    e.Told? && e.id == id && !e.how.Raced? && t in e.req.turns
  }

  /** A fact's source turns are those of its creator and of the callers that merged, and of nobody else. */
  lemma {:induction false} TurnsAreExact(log: seq<Event>, key: Key, t: TurnId)
    requires Explained(log) && key in Replay(log)
    ensures t in Replay(log)[key].turns <==>
              exists i :: 0 <= i < |log| && Contributes(log[i], Replay(log)[key].id, t)
    decreases |log|
  {
    var n := |log| - 1;
    var front, e, id := log[..n], log[n], Replay(log)[key].id;
    ExplainedFront(log);
    assert log == front + [e];
    if e.Told? && e.how.Created? && e.req.key == key {
      forall i | 0 <= i < n ensures !Contributes(log[i], id, t) {
        if Contributes(log[i], id, t) {
          assert front[i] == log[i];
          ExactlyOneCreates(front, i);
        }
      }
    } else {
      TurnsAreExact(front, key, t);
      assert forall i | 0 <= i < n :: front[i] == log[i];
      if e.Told? && e.how.Merged? && e.req.key == key {
        DistinctlyKeepsMembers(Replay(front)[key].turns + e.req.turns);
      }
      assert Contributes(e, id, t) ==> e.req.key == key by {
        if Contributes(e, id, t) && e.req.key != key {
          SameRecordSameKey(log, key, n);
        }
      }
    }
  }

  lemma SameRecordSameKey(log: seq<Event>, key: Key, i: nat)
    requires Explained(log) && key in Replay(log) && i < |log| && log[i].Told? && log[i].id == Replay(log)[key].id
    ensures log[i].req.key == key
  {
    FactsWereCreated(log, key);
    ExactlyOneCreates(log, i);
  }

  lemma RunAppend(s: System, actions: seq<Action>, a: Action)
    requires CanRun(s, actions) && Enabled(Run(s, actions), a)
    ensures CanRun(s, actions + [a]) && Run(s, actions + [a]) == Apply(Run(s, actions), a)
    decreases |actions|
  {
    if actions == [] {
      assert CanRun(Apply(s, a), []);
      assert [a][1..] == [] && ([] + [a]) == [a];
    } else {
      assert (actions + [a])[1..] == actions[1..] + [a];
      RunAppend(Apply(s, actions[0]), actions[1..], a);
    }
  }

  ghost predicate Reachable(s: System) {
    exists actions :: CanRun(EMPTY, actions) && Run(EMPTY, actions) == s
  }

  lemma Step(s: System, a: Action)
    requires Reachable(s) && Enabled(s, a)
    ensures Reachable(Apply(s, a))
  {
    var actions :| CanRun(EMPTY, actions) && Run(EMPTY, actions) == s;
    RunAppend(EMPTY, actions, a);
  }

  /** A caller asks, looks and finds nothing. */
  lemma Asking(s: System, c: ClientId, req: Request) returns (t: System)
    requires Reachable(s) && At(s, c).Idle? && !HasActive(s.records, req.key)
    ensures t == To(s, c, Ready(req)) && Reachable(t)
  {
    Step(s, Ask(c, req));
    var s1 := Apply(s, Ask(c, req));
    Step(s1, Look(c, None));
    var s2 := Apply(s1, Look(c, None));
    Step(s2, Resolve(c));
    t := Apply(s2, Resolve(c));
    assert t.clients == s.clients[c := Ready(req)];
  }

  /** A caller inserts and commits. */
  lemma Inserting(s: System, c: ClientId, id: RowId) returns (t: System)
    requires Reachable(s) && Enabled(s, Insert(c, id)) && !HasActive(s.records, At(s, c).req.key)
    ensures t == System(s.records[id := Record(At(s, c).req.key, At(s, c).req.turns, false)],
                        s.clients[c := Idle], s.used + {id}, s.log + [Told(At(s, c).req, id, Created)])
    ensures Reachable(t)
  {
    Step(s, Insert(c, id));
    var s1 := Apply(s, Insert(c, id));
    Step(s1, Commit(c));
    t := Apply(s1, Commit(c));
    assert t.clients == s.clients[c := Idle];
  }

  /** A caller whose insert is refused looks again and takes the winner's record. */
  lemma Losing(s: System, c: ClientId, id: RowId, winner: RowId) returns (t: System)
    requires Reachable(s) && Enabled(s, Insert(c, id)) && Free(s, winner)
    requires ActiveIn(s.records, At(s, c).req.key, winner)
    ensures Reachable(t) && t.log == s.log + [Told(At(s, c).req, winner, Raced)] && t.records == s.records
  {
    Step(s, Insert(c, id));
    var s1 := Apply(s, Insert(c, id));
    Step(s1, Look(c, Some(winner)));
    var s2 := Apply(s1, Look(c, Some(winner)));
    Step(s2, Resolve(c));
    t := Apply(s2, Resolve(c));
  }

  /** Two callers that looked before either inserted: the loser gets the record, but its turns are nowhere. */
  lemma RacedCallerLosesItsTurns(first: Request, second: Request)
    requires first.key == second.key
    ensures exists s :: Reachable(s) &&
              s.log == [Told(first, 0, Created), Told(second, 0, Raced)] &&
              Replay(s.log) == map[first.key := Fact(0, first.turns)]
  {
    assert CanRun(EMPTY, []);
    var s := Asking(EMPTY, 1, first);
    s := Asking(s, 2, second);
    s := Inserting(s, 1, 0);
    assert ActiveIn(s.records, second.key, 0);
    s := Losing(s, 2, 1, 0);
    assert s.log == [Told(first, 0, Created), Told(second, 0, Raced)];
    LoserLeavesNothing(first, second);
  }

  lemma LoserLeavesNothing(first: Request, second: Request)
    ensures Replay([Told(first, 0, Created), Told(second, 0, Raced)]) == map[first.key := Fact(0, first.turns)]
  {
    var log := [Told(first, 0, Created), Told(second, 0, Raced)];
    assert log[..1] == [Told(first, 0, Created)] && log[..1][..0] == [];
    assert Replay(log[..1]) == Effect(Replay([]), Told(first, 0, Created));
  }

  /** A caller whose insert is refused looks again: the record it was refused for is in its snapshot. */
  lemma Refused(s: System, c: ClientId, id: RowId, winner: RowId) returns (t: System)
    requires Reachable(s) && Enabled(s, Insert(c, id)) && ActiveIn(s.records, At(s, c).req.key, winner)
    ensures t == System(s.records, s.clients[c := Looking(At(s, c).req, Some(|s.log|), Some(winner))], s.used + {id}, s.log)
    ensures Reachable(t)
  {
    Step(s, Insert(c, id));
    var s1 := Apply(s, Insert(c, id));
    Step(s1, Look(c, Some(winner)));
    t := Apply(s1, Look(c, Some(winner)));
    assert t.clients == s.clients[c := Looking(At(s, c).req, Some(|s.log|), Some(winner))];
  }

  /** The record in a refused caller's snapshot is gone when it comes to lock it. */
  lemma TurnedAway(s: System, c: ClientId, winner: RowId) returns (t: System)
    requires Reachable(s) && At(s, c).Looking? && At(s, c).since.Some? && At(s, c).seen == Some(winner)
    requires Free(s, winner) && !ActiveIn(s.records, At(s, c).req.key, winner)
    ensures Reachable(t) && t.records == s.records
    ensures t.log == s.log + [Raised(At(s, c).req, At(s, c).since.value)]
  {
    Step(s, Resolve(c));
    t := Apply(s, Resolve(c));
  }

  /** The record in a caller's snapshot is deleted, another caller inserts a new one, and the first one resumes. */
  lemma Overtaken(s: System, c: ClientId, d: ClientId, winner: RowId, id: RowId) returns (t: System)
    requires Reachable(s) && c != d && At(s, c).Looking? && At(s, c).since.Some? && At(s, c).seen == Some(winner)
    requires Enabled(s, Delete(winner)) && s.records[winner].key == At(s, c).req.key && id != winner
    requires Enabled(s, Insert(d, id)) && At(s, d).req.key == At(s, c).req.key
    requires !HasActive(s.records[winner := s.records[winner].(deleted := true)], At(s, c).req.key)
    ensures Reachable(t) && ActiveIn(t.records, At(s, c).req.key, id)
    ensures t.log == s.log + [Deleted(At(s, c).req.key, winner), Told(At(s, d).req, id, Created),
                              Raised(At(s, c).req, At(s, c).since.value)]
  {
    Step(s, Delete(winner));
    var s1 := Apply(s, Delete(winner));
    var s2 := Inserting(s1, d, id);
    t := TurnedAway(s2, c, winner);
  }

  /**
    A caller can be turned away with an error although an active record of its key exists: the one it
    was refused for is deleted after its second snapshot, and the new one is not in that snapshot.
   */
  lemma CallerCanRaiseBesideARecord(first: Request, second: Request, third: Request)
    requires first.key == second.key == third.key
    ensures exists s :: Reachable(s) && ActiveIn(s.records, second.key, 2) &&
              s.log == [Told(first, 0, Created), Deleted(first.key, 0), Told(third, 2, Created), Raised(second, 1)]
  {
    var s := Winning(first, second, third);
    assert ActiveIn(s.records, second.key, 0);
    s := Refused(s, 2, 1, 0);
    s := Overtaken(s, 2, 3, 0, 2);
  }

  /** Three callers look and find nothing; the first of them inserts. */
  lemma Winning(first: Request, second: Request, third: Request) returns (s: System)
    requires first.key == second.key == third.key
    ensures Reachable(s) && s.records == map[0 := Record(first.key, first.turns, false)] && s.used == {0}
    ensures s.clients == map[1 := Idle, 2 := Ready(second), 3 := Ready(third)]
    ensures s.log == [Told(first, 0, Created)]
  {
    s := AllReady(first, second, third);
    s := Inserting(s, 1, 0);
  }

  lemma AllReady(first: Request, second: Request, third: Request) returns (s: System)
    ensures Reachable(s) && s == System(map[], map[1 := Ready(first), 2 := Ready(second), 3 := Ready(third)], {}, [])
  {
    assert CanRun(EMPTY, []);
    s := Asking(EMPTY, 1, first);
    s := Asking(s, 2, second);
    s := Asking(s, 3, third);
  }
}
