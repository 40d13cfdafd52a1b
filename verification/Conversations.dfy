/**
  The two conversation stores, in memory and in the database, against one plain log.

  Times are integers.  Row identifiers are fresh but otherwise arbitrary; the database breaks ties
  between equal times by them.
 */
module Conversations {
  import opened Common
  import opened Batches

  type ConversationId = nat
  type UserId = nat

  datatype Turn = Turn(role: string, content: string, createdAt: int)

  datatype Op =
    | Claim(conversation: ConversationId, owner: UserId, observedAt: int)
    | Append(conversation: ConversationId, owner: UserId, turn: Turn)
    | Exchange(conversation: ConversationId, owner: UserId, user: Turn, assistant: Turn)

  datatype Refusal = NotTheOwner | WrongRoles

  /** One operation with the identifiers the database would give its rows. */
  datatype Call = Call(op: Op, ids: (nat, nat))

  // ---------------------------------------------------------------------------
  // The specification: everything that was ever accepted
  // ---------------------------------------------------------------------------

  datatype Log = Log(owner: UserId, claimedAt: int, touched: seq<int>, turns: seq<Turn>)

  type Spec = map<ConversationId, Log>

  function Refuses(s: Spec, op: Op): Option<Refusal> {
    if op.Exchange? && (op.user.role != "user" || op.assistant.role != "assistant") then Some(WrongRoles)
    else if op.conversation in s && s[op.conversation].owner != op.owner then Some(NotTheOwner)
    else None
  }

  function FirstSeen(op: Op): int {
    match op
    case Claim(_, _, at) => at
    case Append(_, _, turn) => turn.createdAt
    case Exchange(_, _, user, _) => user.createdAt
  }

  function NewTurns(op: Op): seq<Turn> {
    match op
    case Claim(_, _, _) => []
    case Append(_, _, turn) => [turn]
    case Exchange(_, _, user, assistant) => [user, assistant]
  }

  function Touches(op: Op): seq<int> {
    match op
    case Claim(_, _, _) => []
    case Append(_, _, turn) => [turn.createdAt]
    case Exchange(_, _, _, assistant) => [assistant.createdAt]
  }

  function Opened(s: Spec, op: Op): Log {
    if op.conversation in s then s[op.conversation] else Log(op.owner, FirstSeen(op), [], [])
  }

  function SpecStep(s: Spec, op: Op): Spec {
    if Refuses(s, op).Some? then s
    else
      var log := Opened(s, op);
      s[op.conversation := log.(touched := log.touched + Touches(op), turns := log.turns + NewTurns(op))]
  }

  function SpecRun(calls: seq<Call>): Spec {
    if calls == [] then map[] else SpecStep(SpecRun(calls[..|calls| - 1]), calls[|calls| - 1].op)
  }

  function Latest(first: int, times: seq<int>): int {
    if times == [] then first
    else
      var before := Latest(first, times[..|times| - 1]);
      if before < times[|times| - 1] then times[|times| - 1] else before
  }

  function AsNat(n: int): nat { if n < 0 then 0 else n }

  // ---------------------------------------------------------------------------
  // The in-memory store
  // ---------------------------------------------------------------------------

  datatype Memory = Memory(owners: map<ConversationId, UserId>, state: map<ConversationId, seq<Turn>>)

  /** The store shows the last turns of every log, and each log's owner. */
  ghost predicate MemoryShows(m: Memory, s: Spec, n: nat) {
    && m.owners.Keys == s.Keys && m.state.Keys == s.Keys
    && forall c | c in s :: m.owners[c] == s[c].owner && m.state[c] == Last(s[c].turns, n)
  }

  lemma ShowsUpdate(m: Memory, s: Spec, c: ConversationId, log: Log, shown: seq<Turn>, n: nat)
    requires MemoryShows(m, s, n) && shown == Last(log.turns, n)
    ensures MemoryShows(Memory(m.owners[c := log.owner], m.state[c := shown]), s[c := log], n)
  {
  }

  /** What the store shows of the log an operation addresses, before and after it. */
  lemma ShownTurns(log: Log, op: Op, n: nat, turns: seq<Turn>)
    requires turns == Last(log.turns, n)
    ensures Last(turns + NewTurns(op), n) == Last(log.turns + NewTurns(op), n)
    ensures op.Claim? ==> Last(turns + NewTurns(op), n) == turns
  {
    LastOfLonger(log.turns, NewTurns(op), n);
  }

  lemma MemoryStep(m: Memory, s: Spec, op: Op, n: nat, turns: seq<Turn>)
    requires MemoryShows(m, s, n) && Refuses(s, op).None?
    requires turns == if op.conversation in m.state then m.state[op.conversation] else []
    ensures var shown := Last(turns + NewTurns(op), n);
            && MemoryShows(Memory(m.owners[op.conversation := op.owner], m.state[op.conversation := shown]), SpecStep(s, op), n)
            && (op.Claim? ==> shown == turns)
  {
    var log := Opened(s, op);
    ShownTurns(log, op, n, turns);
    var log' := log.(touched := log.touched + Touches(op), turns := log.turns + NewTurns(op));
    ShowsUpdate(m, s, op.conversation, log', Last(turns + NewTurns(op), n), n);
  }

  class InMemoryConversationStore {
    const maxTurns: int
    var owners: map<ConversationId, UserId>
    var state: map<ConversationId, seq<Turn>>

    constructor (maxTurns: int)
      ensures this.maxTurns == maxTurns && Shows(map[])
    {
      this.maxTurns := maxTurns;
      owners, state := map[], map[];
    }

    ghost predicate Shows(s: Spec)
      reads this
    {
      MemoryShows(Memory(owners, state), s, AsNat(maxTurns))
    }

    method ClaimOrValidate(c: ConversationId, owner: UserId) returns (refusal: Option<Refusal>)
      requires owners.Keys == state.Keys
      modifies this`owners, this`state
      ensures refusal == if c in old(owners) && old(owners)[c] != owner then Some(NotTheOwner) else None
      ensures refusal.Some? ==> owners == old(owners) && state == old(state)
      ensures refusal.None? ==>
                && owners == old(owners)[c := owner]
                && state == old(state)[c := if c in old(state) then old(state)[c] else []]
    {
      if c !in owners {
        owners := owners[c := owner];
        state := state[c := []];
        return None;
      }
      if owners[c] != owner {
        return Some(NotTheOwner);
      }
      assert owners == owners[c := owner] && state == state[c := state[c]];
      return None;
    }

    method Trim(c: ConversationId)
      requires c in state
      modifies this`state
      ensures state == old(state)[c := Last(old(state)[c], AsNat(maxTurns))]
    {
      var turns := state[c];
      assert Last(turns, AsNat(maxTurns)) ==
        if |turns| <= maxTurns then turns else if maxTurns <= 0 then [] else turns[|turns| - maxTurns..];
      if |turns| <= maxTurns {
        assert state == state[c := turns];
        return;
      }
      var overflow := |turns| - maxTurns;
      state := state[c := if overflow >= |turns| then [] else turns[overflow..]];
    }

    method Extend(c: ConversationId, turns: seq<Turn>)
      requires c in state
      modifies this`state
      ensures state == old(state)[c := Last(old(state)[c] + turns, AsNat(maxTurns))]
    {
      state := state[c := state[c] + turns];
      Trim(c);
    }

    /** The turns an operation brings; a claim brings none and trims nothing. */
    method AddTurns(op: Op)
      requires op.conversation in state
      modifies this`state
      ensures state == if op.Claim? then old(state)
                       else old(state)[op.conversation := Last(old(state)[op.conversation] + NewTurns(op), AsNat(maxTurns))]
    {
      match op
      case Claim(_, _, _) =>
      case Append(c, _, turn) => Extend(c, [turn]);
      case Exchange(c, _, user, assistant) => Extend(c, [user, assistant]);
    }

    /** Any operation: the store goes on showing the log, and a refused one changes nothing. */
    method Perform(op: Op, ghost s: Spec) returns (refusal: Option<Refusal>)
      requires Shows(s)
      modifies this`owners, this`state
      ensures refusal == Refuses(s, op)
      ensures Shows(SpecStep(s, op))
      ensures refusal.Some? ==> owners == old(owners) && state == old(state)
    {
      if op.Exchange? && (op.user.role != "user" || op.assistant.role != "assistant") {
        return Some(WrongRoles);
      }
      var c := op.conversation;
      ghost var before := Memory(owners, state);
      refusal := ClaimOrValidate(c, op.owner);
      if refusal.Some? {
        return;
      }
      ghost var turns := state[c];
      AddTurns(op);
      assert Shows(SpecStep(s, op)) by {
        MemoryStep(before, s, op, AsNat(maxTurns), turns);
      }
    }

    method ReadRecent(c: ConversationId, owner: UserId, limit: int) returns (result: Result<seq<Turn>, Refusal>)
      requires owners.Keys <= state.Keys
      ensures result == if c in owners && owners[c] == owner then Ok(Last(state[c], AsNat(limit))) else Err(NotTheOwner)
    {
      if c !in owners || owners[c] != owner {
        return Err(NotTheOwner);
      }
      if limit <= 0 {
        assert Last(state[c], 0) == [];
        return Ok([]);
      }
      return Ok(Last(state[c], limit));
    }
  }

  /** Trimming before or after more turns arrive comes to the same. */
  lemma LastOfLonger<T>(s: seq<T>, t: seq<T>, n: nat)
    ensures Last(Last(s, n) + t, n) == Last(s + t, n)
    ensures t == [] ==> Last(Last(s, n) + t, n) == Last(s, n)
  {
  }

  // ---------------------------------------------------------------------------
  // The database store
  // ---------------------------------------------------------------------------

  datatype ConversationRow = ConversationRow(owner: UserId, startedAt: int, lastTurnAt: int, turnCount: nat, closed: bool)

  datatype TurnRow = TurnRow(id: nat, conversation: ConversationId, owner: UserId, turn: Turn)

  datatype Tables = Tables(conversations: map<ConversationId, ConversationRow>, turns: seq<TurnRow>)

  /** The insert-or-keep statement: none when the row belongs to somebody else. */
  function Claimed(t: Tables, c: ConversationId, owner: UserId, at: int): Option<Tables> {
    if c !in t.conversations then
      Some(t.(conversations := t.conversations[c := ConversationRow(owner, at, at, 0, false)]))
    else if t.conversations[c].owner == owner then Some(t)
    else None
  }

  function Advanced(t: Tables, c: ConversationId, touchedAt: int, increment: nat): Tables
    requires c in t.conversations
  {
    var row := t.conversations[c];
    t.(conversations := t.conversations[c := row.(
      lastTurnAt := if row.lastTurnAt < touchedAt then touchedAt else row.lastTurnAt,
      turnCount := row.turnCount + increment,
      closed := false)])
  }

  function NewRows(op: Op, ids: (nat, nat)): seq<TurnRow> {
    match op
    case Claim(_, _, _) => []
    case Append(c, owner, turn) => [TurnRow(ids.0, c, owner, turn)]
    case Exchange(c, owner, user, assistant) =>
      [TurnRow(ids.0, c, owner, user), TurnRow(ids.1, c, owner, assistant)]
  }

  function RowsOf(rows: seq<TurnRow>, c: ConversationId, owner: UserId): seq<TurnRow> {
    if rows == [] then []
    else
      var last := rows[|rows| - 1];
      RowsOf(rows[..|rows| - 1], c, owner) + if last.conversation == c && last.owner == owner then [last] else []
  }

  function TurnsOf(rows: seq<TurnRow>): seq<Turn> {
    seq(|rows|, i requires 0 <= i < |rows| => rows[i].turn)
  }

  predicate Newer(a: TurnRow, b: TurnRow) {
    a.turn.createdAt > b.turn.createdAt || (a.turn.createdAt == b.turn.createdAt && a.id > b.id)
  }

  /** `ORDER BY created_at DESC, id DESC`. */
  function NewestFirst(rows: seq<TurnRow>): seq<TurnRow> {
    if rows == [] then [] else Place(NewestFirst(rows[..|rows| - 1]), rows[|rows| - 1])
  }

  function Place(sorted: seq<TurnRow>, row: TurnRow): seq<TurnRow> {
    if sorted == [] then [row]
    else if Newer(row, sorted[0]) then [row] + sorted
    else [sorted[0]] + Place(sorted[1..], row)
  }

  function Reversed<T>(s: seq<T>): seq<T> {
    if s == [] then [] else Reversed(s[1..]) + [s[0]]
  }

  function Take<T>(s: seq<T>, n: nat): seq<T> {
    if n >= |s| then s else s[..n]
  }

  /** What a read of the last n returns, oldest first. */
  function ReadBack(rows: seq<TurnRow>, n: nat): seq<TurnRow> {
    Reversed(Take(NewestFirst(rows), n))
  }

  /** Every conversation row and the turn rows of its owner record the log. */
  ghost predicate Records(t: Tables, s: Spec) {
    && t.conversations.Keys == s.Keys
    && (forall c | c in s :: ConversationRecords(t, s[c], c))
    && RowsOwned(t.turns, s)
  }

  ghost predicate ConversationRecords(t: Tables, log: Log, c: ConversationId) {
    && c in t.conversations
    && RowRecords(t.conversations[c], log)
    && TurnsOf(RowsOf(t.turns, c, log.owner)) == log.turns
  }

  /** A turn row refers to a conversation row and carries its owner. */
  ghost predicate RowsOwned(rows: seq<TurnRow>, s: Spec) {
    forall i | 0 <= i < |rows| :: rows[i].conversation in s && rows[i].owner == s[rows[i].conversation].owner
  }

  predicate RowRecords(row: ConversationRow, log: Log) {
    && row.owner == log.owner
    && row.startedAt == log.claimedAt
    && row.lastTurnAt == Latest(log.claimedAt, log.touched)
    && row.turnCount == |log.turns|
  }

  lemma {:induction false} RowsOfConcat(a: seq<TurnRow>, b: seq<TurnRow>, c: ConversationId, owner: UserId)
    ensures RowsOf(a + b, c, owner) == RowsOf(a, c, owner) + RowsOf(b, c, owner)
    decreases |b|
  {
    if b == [] {
      assert a + b == a;
    } else {
      assert (a + b)[..|a + b| - 1] == a + b[..|b| - 1];
      RowsOfConcat(a, b[..|b| - 1], c, owner);
    }
  }

  lemma NewRowsRecord(op: Op, ids: (nat, nat), c: ConversationId, owner: UserId)
    ensures TurnsOf(RowsOf(NewRows(op, ids), c, owner)) ==
            if c == op.conversation && owner == op.owner then NewTurns(op) else []
  {
    var rows := NewRows(op, ids);
    if |rows| == 1 {
      assert rows[..0] == [];
      assert RowsOf(rows, c, owner) == if c == op.conversation && owner == op.owner then rows else [];
    } else if |rows| == 2 {
      assert rows[..1][..0] == [] && rows[..1] == [rows[0]];
      assert RowsOf(rows[..1], c, owner) == if c == op.conversation && owner == op.owner then [rows[0]] else [];
      assert RowsOf(rows, c, owner) == if c == op.conversation && owner == op.owner then rows else [];
    }
  }

  lemma TurnsOfConcat(a: seq<TurnRow>, b: seq<TurnRow>)
    ensures TurnsOf(a + b) == TurnsOf(a) + TurnsOf(b)
  {
  }

  lemma {:induction false} NoRowsOfStranger(rows: seq<TurnRow>, c: ConversationId, owner: UserId)
    requires forall i | 0 <= i < |rows| :: rows[i].conversation != c
    ensures RowsOf(rows, c, owner) == []
    decreases |rows|
  {
    if rows != [] {
      NoRowsOfStranger(rows[..|rows| - 1], c, owner);
    }
  }

  lemma LatestSnoc(first: int, times: seq<int>, t: int)
    ensures Latest(first, times + [t]) == if Latest(first, times) < t then t else Latest(first, times)
    ensures Latest(first, times + []) == Latest(first, times)
  {
    assert (times + [t])[..|times|] == times;
    assert times + [] == times;
  }

  /** What an accepted transaction leaves. */
  function Committed(t: Tables, call: Call): Tables
    requires Claimed(t, call.op.conversation, call.op.owner, FirstSeen(call.op)).Some?
  {
    var op := call.op;
    var claimed := Claimed(t, op.conversation, op.owner, FirstSeen(op)).value;
    var added := claimed.(turns := claimed.turns + NewRows(op, call.ids));
    if op.Claim? then added else Advanced(added, op.conversation, Touches(op)[0], |NewTurns(op)|)
  }

  lemma TurnsRecorded(t: Tables, call: Call, s: Spec, c: ConversationId)
    requires Records(t, s) && Refuses(s, call.op).None? && c in SpecStep(s, call.op)
    ensures TurnsOf(RowsOf(t.turns + NewRows(call.op, call.ids), c, SpecStep(s, call.op)[c].owner))
            == SpecStep(s, call.op)[c].turns
  {
    var owner, added := SpecStep(s, call.op)[c].owner, NewRows(call.op, call.ids);
    RowsOfConcat(t.turns, added, c, owner);
    TurnsOfConcat(RowsOf(t.turns, c, owner), RowsOf(added, c, owner));
    NewRowsRecord(call.op, call.ids, c, owner);
    if c !in s {
      NoRowsOfStranger(t.turns, c, owner);
    }
  }

  /** A claim is granted when nothing refuses the operation, and the claimed row records the log so far. */
  lemma ClaimRecords(t: Tables, op: Op, s: Spec)
    requires Records(t, s) && Refuses(s, op).None?
    ensures var claimed := Claimed(t, op.conversation, op.owner, FirstSeen(op));
            claimed.Some? && claimed.value.turns == t.turns && op.conversation in claimed.value.conversations
            && RowRecords(claimed.value.conversations[op.conversation], Opened(s, op))
  {
    if op.conversation in s {
      assert ConversationRecords(t, s[op.conversation], op.conversation);
    }
  }

  /** Advancing a row that records a log makes it record the longer one. */
  lemma AdvanceRecords(row: ConversationRow, log: Log, touchedAt: int, added: seq<Turn>)
    requires RowRecords(row, log)
    ensures RowRecords(row.(lastTurnAt := if row.lastTurnAt < touchedAt then touchedAt else row.lastTurnAt,
                            turnCount := row.turnCount + |added|, closed := false),
                       log.(touched := log.touched + [touchedAt], turns := log.turns + added))
  {
    LatestSnoc(log.claimedAt, log.touched, touchedAt);
  }

  lemma RowRecorded(t: Tables, call: Call, s: Spec)
    requires Records(t, s) && Refuses(s, call.op).None?
    ensures Claimed(t, call.op.conversation, call.op.owner, FirstSeen(call.op)).Some?
    ensures var after, c := Committed(t, call), call.op.conversation;
            && c in after.conversations && RowRecords(after.conversations[c], SpecStep(s, call.op)[c])
            && after.turns == t.turns + NewRows(call.op, call.ids)
  {
    var op, c, log := call.op, call.op.conversation, Opened(s, call.op);
    ClaimRecords(t, op, s);
    assert SpecStep(s, op)[c] == log.(touched := log.touched + Touches(op), turns := log.turns + NewTurns(op));
    if op.Claim? {
      assert log.touched + [] == log.touched && log.turns + [] == log.turns;
    } else {
      AdvanceRecords(Claimed(t, c, op.owner, FirstSeen(op)).value.conversations[c], log, Touches(op)[0], NewTurns(op));
      assert Touches(op) == [Touches(op)[0]];
    }
  }

  lemma OthersUntouched(t: Tables, call: Call, c: ConversationId)
    requires Claimed(t, call.op.conversation, call.op.owner, FirstSeen(call.op)).Some? && c != call.op.conversation
    ensures c in Committed(t, call).conversations <==> c in t.conversations
    ensures c in t.conversations ==> Committed(t, call).conversations[c] == t.conversations[c]
  {
  }

  lemma ConversationStep(t: Tables, call: Call, s: Spec, c: ConversationId)
    requires Records(t, s) && Refuses(s, call.op).None? && c in SpecStep(s, call.op)
    ensures Claimed(t, call.op.conversation, call.op.owner, FirstSeen(call.op)).Some?
    ensures ConversationRecords(Committed(t, call), SpecStep(s, call.op)[c], c)
  {
    RowRecorded(t, call, s);
    TurnsRecorded(t, call, s, c);
    if c != call.op.conversation {
      assert ConversationRecords(t, s[c], c);
      OthersUntouched(t, call, c);
    }
  }

  lemma RowsOwnedStep(rows: seq<TurnRow>, call: Call, s: Spec)
    requires RowsOwned(rows, s) && Refuses(s, call.op).None?
    ensures RowsOwned(rows + NewRows(call.op, call.ids), SpecStep(s, call.op))
  {
  }

  lemma KeysStep(t: Tables, call: Call, s: Spec)
    requires t.conversations.Keys == s.Keys && Refuses(s, call.op).None?
    requires Claimed(t, call.op.conversation, call.op.owner, FirstSeen(call.op)).Some?
    ensures Committed(t, call).conversations.Keys == SpecStep(s, call.op).Keys
  {
    assert Committed(t, call).conversations.Keys == t.conversations.Keys + {call.op.conversation};
  }

  lemma RecordsStep(t: Tables, call: Call, s: Spec)
    requires Records(t, s) && Refuses(s, call.op).None?
    ensures Claimed(t, call.op.conversation, call.op.owner, FirstSeen(call.op)).Some?
    ensures Records(Committed(t, call), SpecStep(s, call.op))
  {
    RowRecorded(t, call, s);
    var after, s' := Committed(t, call), SpecStep(s, call.op);
    KeysStep(t, call, s);
    RowsOwnedStep(t.turns, call, s);
    forall c | c in s' ensures ConversationRecords(after, s'[c], c) {
      ConversationStep(t, call, s, c);
    }
  }

  /**
    A new conversation is open, turns open a closed one again, a mere claim does not; all the others
    stay as they were.
   */
  ghost predicate OpensOnly(before: map<ConversationId, ConversationRow>, after: map<ConversationId, ConversationRow>, op: Op) {
    var c := op.conversation;
    && c in after && after[c].closed == (op.Claim? && c in before && before[c].closed)
    && after.Keys == before.Keys + {c}
    && forall d | d in before && d != c :: d in after && after[d] == before[d]
  }

  lemma CommittedOpensOnly(t: Tables, call: Call)
    requires Claimed(t, call.op.conversation, call.op.owner, FirstSeen(call.op)).Some?
    ensures OpensOnly(t.conversations, Committed(t, call).conversations, call.op)
  {
  }

  class PostgresConversationStore {
    var conversations: map<ConversationId, ConversationRow>
    var turns: seq<TurnRow>

    constructor ()
      ensures Shows(map[])
    {
      conversations, turns := map[], [];
    }

    ghost predicate Shows(s: Spec)
      reads this
    {
      Records(Tables(conversations, turns), s)
    }

    /** One transaction; a refused one is rolled back. */
    method Perform(call: Call, ghost s: Spec) returns (refusal: Option<Refusal>)
      requires Shows(s)
      modifies this
      ensures refusal == Refuses(s, call.op)
      ensures Shows(SpecStep(s, call.op))
      ensures turns == if refusal.Some? then old(turns) else old(turns) + NewRows(call.op, call.ids)
      ensures refusal.Some? ==> conversations == old(conversations)
      ensures refusal.None? ==> OpensOnly(old(conversations), conversations, call.op)
    {
      var op := call.op;
      if op.Exchange? && (op.user.role != "user" || op.assistant.role != "assistant") {
        return Some(WrongRoles);
      }
      var observedAt :=
        match op
        case Claim(_, _, at) => at
        case Append(_, _, turn) => turn.createdAt
        case Exchange(_, _, user, _) => user.createdAt;
      var claimed := Claimed(Tables(conversations, turns), op.conversation, op.owner, observedAt);
      if claimed.None? {
        return Some(NotTheOwner);
      }
      var after := claimed.value;
      match op {
        case Claim(_, _, _) =>
          assert after.turns + [] == after.turns;
        case Append(c, owner, turn) =>
          after := after.(turns := after.turns + [TurnRow(call.ids.0, c, owner, turn)]);
          after := Advanced(after, c, turn.createdAt, 1);
        case Exchange(c, owner, user, assistant) =>
          after := after.(turns := after.turns + [TurnRow(call.ids.0, c, owner, user), TurnRow(call.ids.1, c, owner, assistant)]);
          after := Advanced(after, c, assistant.createdAt, 2);
      }
      ghost var before := Tables(conversations, turns);
      assert after == Committed(before, call);
      assert Records(after, SpecStep(s, op)) by {
        RecordsStep(before, call, s);
      }
      assert OpensOnly(before.conversations, after.conversations, op) by {
        CommittedOpensOnly(before, call);
      }
      conversations, turns := after.conversations, after.turns;
      return None;
    }

    method ReadRecent(c: ConversationId, owner: UserId, limit: int) returns (result: Result<seq<Turn>, Refusal>)
      ensures result == if c in conversations && conversations[c].owner == owner
                        then Ok(TurnsOf(ReadBack(RowsOf(turns, c, owner), AsNat(limit))))
                        else Err(NotTheOwner)
    {
      if c !in conversations || conversations[c].owner != owner {
        return Err(NotTheOwner);
      }
      if limit <= 0 {
        NothingTaken(RowsOf(turns, c, owner));
        return Ok([]);
      }
      return Ok(TurnsOf(ReadBack(RowsOf(turns, c, owner), limit)));
    }
  }

  // ---------------------------------------------------------------------------
  // Both stores read the same
  // ---------------------------------------------------------------------------

  lemma NothingTaken(rows: seq<TurnRow>)
    ensures TurnsOf(ReadBack(rows, 0)) == []
  {
    assert Take(NewestFirst(rows), 0) == [];
    assert Reversed<TurnRow>([]) == [];
  }

  lemma {:induction false} ReversedAt<T>(s: seq<T>, k: nat)
    requires k < |s|
    ensures |Reversed(s)| == |s| && Reversed(s)[k] == s[|s| - 1 - k]
  {
    if |s| > 1 {
      ReversedAt(s[1..], if k < |s| - 1 then k else 0);
    }
  }

  lemma ReversedAll<T>(s: seq<T>)
    ensures |Reversed(s)| == |s|
    ensures forall k | 0 <= k < |s| :: Reversed(s)[k] == s[|s| - 1 - k]
  {
    forall k | 0 <= k < |s| ensures |Reversed(s)| == |s| && Reversed(s)[k] == s[|s| - 1 - k] {
      ReversedAt(s, k);
    }
  }

  /** Rows that arrive newest last come back newest first. */
  lemma {:induction false} NewestFirstReverses(rows: seq<TurnRow>)
    requires forall i, j | 0 <= i < j < |rows| :: Newer(rows[j], rows[i])
    ensures NewestFirst(rows) == Reversed(rows)
    decreases |rows|
  {
    if rows != [] {
      var front, last := rows[..|rows| - 1], rows[|rows| - 1];
      NewestFirstReverses(front);
      ReversedAll(front);
      ReversedAll(rows);
      assert Place(Reversed(front), last) == [last] + Reversed(front);
      assert Reversed(rows) == [last] + Reversed(front);
    }
  }

  lemma TakeThenReverse<T>(s: seq<T>, n: nat)
    ensures Reversed(Take(Reversed(s), n)) == Last(s, n)
  {
    ReversedAll(s);
    ReversedAll(Take(Reversed(s), n));
  }

  ghost predicate Increasing(turns: seq<Turn>) {
    forall i, j | 0 <= i < j < |turns| :: turns[i].createdAt < turns[j].createdAt
  }

  lemma LaterTurnsAreNewer(rows: seq<TurnRow>)
    requires Increasing(TurnsOf(rows))
    ensures forall i, j | 0 <= i < j < |rows| :: Newer(rows[j], rows[i])
  {
    forall i, j | 0 <= i < j < |rows| ensures Newer(rows[j], rows[i]) {
      assert TurnsOf(rows)[i].createdAt < TurnsOf(rows)[j].createdAt;
    }
  }

  lemma TurnsOfLast(rows: seq<TurnRow>, n: nat)
    ensures TurnsOf(Last(rows, n)) == Last(TurnsOf(rows), n)
  {
  }

  lemma LastOfLast<T>(s: seq<T>, m: nat, n: nat)
    requires n <= m
    ensures Last(Last(s, m), n) == Last(s, n)
  {
  }

  /**
    With strictly increasing turn times and a limit the in-memory store can serve, both stores
    answer a read of the same log with its last turns.
   */
  lemma ReadsAgree(t: Tables, s: Spec, c: ConversationId, maxTurns: int, limit: int)
    requires Records(t, s) && c in s && Increasing(s[c].turns) && limit <= maxTurns
    ensures var rows := RowsOf(t.turns, c, s[c].owner);
            TurnsOf(ReadBack(rows, AsNat(limit))) == Last(s[c].turns, AsNat(limit))
    ensures Last(Last(s[c].turns, AsNat(maxTurns)), AsNat(limit)) == Last(s[c].turns, AsNat(limit))
  {
    var rows := RowsOf(t.turns, c, s[c].owner);
    assert TurnsOf(rows) == s[c].turns;
    LaterTurnsAreNewer(rows);
    NewestFirstReverses(rows);
    TakeThenReverse(rows, AsNat(limit));
    TurnsOfLast(rows, AsNat(limit));
    LastOfLast(s[c].turns, AsNat(maxTurns), AsNat(limit));
  }

  // ---------------------------------------------------------------------------
  // The order in which the database reads back
  // ---------------------------------------------------------------------------

  ghost predicate SortedNewest(s: seq<TurnRow>) {
    forall i, j | 0 <= i < j < |s| :: !Newer(s[j], s[i])
  }

  lemma {:induction false} PlaceKeepsRows(sorted: seq<TurnRow>, row: TurnRow)
    ensures multiset(Place(sorted, row)) == multiset(sorted) + multiset{row}
  {
    if sorted != [] {
      assert sorted == [sorted[0]] + sorted[1..];
      PlaceKeepsRows(sorted[1..], row);
    }
  }

  lemma SortedCons(row: TurnRow, s: seq<TurnRow>)
    requires SortedNewest(s) && forall x | x in s :: !Newer(x, row)
    ensures SortedNewest([row] + s)
  {
    var all := [row] + s;
    forall i, j | 0 <= i < j < |all| ensures !Newer(all[j], all[i]) {
      assert all[j] == s[j - 1] && (i > 0 ==> all[i] == s[i - 1]);
    }
  }

  lemma {:induction false} PlaceKeepsOrder(sorted: seq<TurnRow>, row: TurnRow)
    requires SortedNewest(sorted)
    ensures SortedNewest(Place(sorted, row))
  {
    if sorted == [] {
    } else if Newer(row, sorted[0]) {
      forall x | x in sorted ensures !Newer(x, row) {
        var i :| 0 <= i < |sorted| && sorted[i] == x;
        assert i > 0 ==> !Newer(sorted[i], sorted[0]);
      }
      SortedCons(row, sorted);
    } else {
      PlaceKeepsOrder(sorted[1..], row);
      PlaceKeepsRows(sorted[1..], row);
      var rest := Place(sorted[1..], row);
      forall x | x in rest ensures !Newer(x, sorted[0]) {
        assert x in multiset(rest);
      }
      SortedCons(sorted[0], rest);
    }
  }

  /** The query's order by time and then identifier, newest first. */
  lemma {:induction false} NewestFirstSorts(rows: seq<TurnRow>)
    ensures SortedNewest(NewestFirst(rows)) && multiset(NewestFirst(rows)) == multiset(rows)
  {
    if rows != [] {
      var front, last := rows[..|rows| - 1], rows[|rows| - 1];
      NewestFirstSorts(front);
      PlaceKeepsOrder(NewestFirst(front), last);
      PlaceKeepsRows(NewestFirst(front), last);
      assert rows == front + [last];
    }
  }

  /** Two rows read back stand in the order of their times and, on a tie, of their identifiers. */
  lemma ReadBackOrder(rows: seq<TurnRow>, n: nat, k: nat, l: nat)
    requires k < |ReadBack(rows, n)| && l < |ReadBack(rows, n)|
    requires ReadBack(rows, n)[k].id != ReadBack(rows, n)[l].id
    ensures k < l <==> Newer(ReadBack(rows, n)[l], ReadBack(rows, n)[k])
  {
    var taken := Take(NewestFirst(rows), n);
    NewestFirstSorts(rows);
    ReversedAll(taken);
    assert SortedNewest(taken);
  }

  lemma ReadBackKeepsRows(rows: seq<TurnRow>, n: nat)
    requires n >= |rows|
    ensures forall x :: x in ReadBack(rows, n) <==> x in rows
  {
    var sorted := NewestFirst(rows);
    NewestFirstSorts(rows);
    assert |sorted| == |multiset(sorted)| == |rows|;
    ReversedAll(sorted);
    forall x ensures x in Reversed(sorted) <==> x in rows {
      assert x in rows <==> x in multiset(sorted);
      if x in sorted {
        var i :| 0 <= i < |sorted| && sorted[i] == x;
        assert Reversed(sorted)[|sorted| - 1 - i] == x;
      }
    }
  }

  /**
    Equal times are where the stores part.  Inside any table, the database reads the two turns of an
    exchange back in order exactly when its times increase or, on a tie, the user row happens to
    have the smaller identifier.
   */
  lemma TiedExchangeMaySwap(before: seq<TurnRow>, after: seq<TurnRow>, op: Op, ids: (nat, nat), n: nat)
    requires op.Exchange? && ids.0 != ids.1
    ensures var added := NewRows(op, ids);
            var rows := RowsOf(before + added + after, op.conversation, op.owner);
            var back := ReadBack(rows, n);
            && (n >= |rows| ==> added[0] in back && added[1] in back)
            && forall k, l | 0 <= k < |back| && 0 <= l < |back| && back[k] == added[0] && back[l] == added[1] ::
                 k < l <==> op.user.createdAt < op.assistant.createdAt
                            || (op.user.createdAt == op.assistant.createdAt && ids.0 < ids.1)
  {
    var added := NewRows(op, ids);
    var rows := RowsOf(before + added + after, op.conversation, op.owner);
    var back := ReadBack(rows, n);
    if n >= |rows| {
      ReadBackKeepsRows(rows, n);
      ExchangeIsThere(before, after, op, ids);
    }
    forall k, l | 0 <= k < |back| && 0 <= l < |back| && back[k] == added[0] && back[l] == added[1]
      ensures k < l <==> Newer(added[1], added[0])
    {
      ReadBackOrder(rows, n, k, l);
    }
  }

  lemma ExchangeIsThere(before: seq<TurnRow>, after: seq<TurnRow>, op: Op, ids: (nat, nat))
    requires op.Exchange?
    ensures var added := NewRows(op, ids);
            var rows := RowsOf(before + added + after, op.conversation, op.owner);
            added[0] in rows && added[1] in rows
  {
    var added := NewRows(op, ids);
    RowsOfConcat(before + added, after, op.conversation, op.owner);
    RowsOfConcat(before, added, op.conversation, op.owner);
    assert added[..1][..0] == [] && added[..1] == [added[0]];
    assert RowsOf(added[..1], op.conversation, op.owner) == [added[0]];
    assert RowsOf(added, op.conversation, op.owner) == added;
  }

  /** Every read of a conversation returns its last rows as they were written exactly when their times and identifiers increase. */
  lemma ReadsFollowTheLog(rows: seq<TurnRow>)
    requires forall i, j | 0 <= i < j < |rows| :: rows[i].id != rows[j].id
    ensures (forall n: nat :: ReadBack(rows, n) == Last(rows, n)) <==>
              forall i, j | 0 <= i < j < |rows| :: Newer(rows[j], rows[i])
  {
    if forall i, j | 0 <= i < j < |rows| :: Newer(rows[j], rows[i]) {
      NewestFirstReverses(rows);
      forall n: nat ensures ReadBack(rows, n) == Last(rows, n) {
        TakeThenReverse(rows, n);
      }
    }
    if forall n: nat :: ReadBack(rows, n) == Last(rows, n) {
      assert ReadBack(rows, |rows|) == rows;
      forall i, j | 0 <= i < j < |rows| ensures Newer(rows[j], rows[i]) {
        ReadBackOrder(rows, |rows|, i, j);
      }
    }
  }

  // ---------------------------------------------------------------------------
  // When callers see the same turns
  // ---------------------------------------------------------------------------

  /** How many of the rows are newer than x. */
  function NewerCount(rows: seq<TurnRow>, x: TurnRow): nat {
    if rows == [] then 0 else (if Newer(rows[0], x) then 1 else 0) + NewerCount(rows[1..], x)
  }

  lemma {:induction false} NewerCountConcat(a: seq<TurnRow>, b: seq<TurnRow>, x: TurnRow)
    ensures NewerCount(a + b, x) == NewerCount(a, x) + NewerCount(b, x)
  {
    if a == [] {
      assert a + b == b;
    } else {
      assert (a + b)[1..] == a[1..] + b;
      NewerCountConcat(a[1..], b, x);
    }
  }

  lemma {:induction false} PlaceCounts(sorted: seq<TurnRow>, row: TurnRow, x: TurnRow)
    ensures NewerCount(Place(sorted, row), x) == NewerCount(sorted, x) + if Newer(row, x) then 1 else 0
  {
    if sorted == [] {
    } else if Newer(row, sorted[0]) {
      assert ([row] + sorted)[1..] == sorted;
    } else {
      PlaceCounts(sorted[1..], row, x);
      assert ([sorted[0]] + Place(sorted[1..], row))[1..] == Place(sorted[1..], row);
    }
  }

  /** Sorting does not change how many rows are newer than x. */
  lemma {:induction false} SortingCounts(rows: seq<TurnRow>, x: TurnRow)
    ensures NewerCount(NewestFirst(rows), x) == NewerCount(rows, x)
  {
    if rows != [] {
      var front, last := rows[..|rows| - 1], rows[|rows| - 1];
      SortingCounts(front, x);
      PlaceCounts(NewestFirst(front), last, x);
      NewerCountConcat(front, [last], x);
      assert rows == front + [last];
    }
  }

  lemma {:induction false} CountIsPosition(s: seq<TurnRow>, x: TurnRow, j: nat)
    requires j <= |s| && (forall i | 0 <= i < |s| :: Newer(s[i], x) <==> i < j)
    ensures NewerCount(s, x) == j
  {
    if s != [] {
      CountIsPosition(s[1..], x, if j > 0 then j - 1 else 0);
    }
  }

  /** In the sorted rows each stands at the position that counts the newer ones. */
  lemma PositionCounts(rows: seq<TurnRow>, j: nat)
    requires Unrepeated(rows) && j < |NewestFirst(rows)|
    ensures NewerCount(rows, NewestFirst(rows)[j]) == j
  {
    var sorted := NewestFirst(rows);
    NewestFirstSorts(rows);
    UnrepeatedPermutes(rows, sorted);
    forall i | 0 <= i < |sorted| ensures Newer(sorted[i], sorted[j]) <==> i < j {
      assert i != j ==> sorted[i].id != sorted[j].id;
    }
    CountIsPosition(sorted, sorted[j], j);
    SortingCounts(rows, sorted[j]);
  }

  /** Row identifiers are unique. */
  ghost predicate Unrepeated(rows: seq<TurnRow>) {
    forall i, j | 0 <= i < j < |rows| :: rows[i].id != rows[j].id
  }

  /** With unique identifiers each row occurs once, and once only in every rearrangement. */
  lemma {:induction false} IdOccursOnce(rows: seq<TurnRow>, x: TurnRow)
    requires Unrepeated(rows)
    ensures multiset(rows)[x] <= 1
    ensures forall y :: x in rows && y in rows && x.id == y.id ==> x == y
  {
    if rows != [] {
      IdOccursOnce(rows[1..], x);
      assert rows == [rows[0]] + rows[1..];
    }
  }

  lemma UnrepeatedPermutes(rows: seq<TurnRow>, sorted: seq<TurnRow>)
    requires Unrepeated(rows) && multiset(sorted) == multiset(rows)
    ensures Unrepeated(sorted)
  {
    forall i, j | 0 <= i < j < |sorted| ensures sorted[i].id != sorted[j].id {
      var x, y := sorted[i], sorted[j];
      assert x in multiset(sorted) && y in multiset(sorted);
      IdOccursOnce(rows, x);
      if x == y {
        TwiceIsTwo(sorted, i, j);
      }
    }
  }

  lemma TwiceIsTwo(s: seq<TurnRow>, i: nat, j: nat)
    requires i < j < |s| && s[i] == s[j]
    ensures multiset(s)[s[i]] >= 2
  {
    assert s == s[..i] + [s[i]] + s[i + 1..j] + [s[j]] + s[j + 1..];
  }

  /** Turn i of the log is carried by the row that has as many newer rows as the log has later turns. */
  ghost predicate Ranked(rows: seq<TurnRow>, i: nat)
    requires i < |rows|
  {
    exists x :: x in rows && NewerCount(rows, x) == |rows| - 1 - i && x.turn == rows[i].turn
  }

  /** The last m turns of the log are carried by the m newest rows, each by the one of its rank. */
  ghost predicate RanksFollow(rows: seq<TurnRow>, m: nat) {
    forall i | 0 <= i < |rows| && |rows| - m <= i :: Ranked(rows, i)
  }

  /** The same in terms of the sorted rows. */
  ghost predicate Aligned(rows: seq<TurnRow>, i: nat)
    requires i < |rows|
  {
    |NewestFirst(rows)| == |rows| && NewestFirst(rows)[|rows| - 1 - i].turn == rows[i].turn
  }

  lemma SortedCount(rows: seq<TurnRow>)
    ensures |NewestFirst(rows)| == |rows|
    ensures forall x :: x in NewestFirst(rows) <==> x in rows
  {
    NewestFirstSorts(rows);
    assert |NewestFirst(rows)| == |multiset(NewestFirst(rows))| == |rows|;
    forall x ensures x in NewestFirst(rows) <==> x in rows {
      assert x in NewestFirst(rows) <==> x in multiset(NewestFirst(rows));
    }
  }

  lemma AlignedIffRanked(rows: seq<TurnRow>, i: nat)
    requires Unrepeated(rows) && i < |rows|
    ensures Aligned(rows, i) <==> Ranked(rows, i)
  {
    var sorted, j := NewestFirst(rows), |rows| - 1 - i;
    SortedCount(rows);
    if Ranked(rows, i) {
      var x :| x in rows && NewerCount(rows, x) == j && x.turn == rows[i].turn;
      var k :| 0 <= k < |sorted| && sorted[k] == x;
      PositionCounts(rows, k);
    }
    if Aligned(rows, i) {
      PositionCounts(rows, j);
      assert sorted[j] in sorted;
    }
  }

  /** Position by position, a read of the last n. */
  lemma ReadBackAll(rows: seq<TurnRow>, n: nat)
    requires n <= |rows|
    ensures |NewestFirst(rows)| == |rows| && |ReadBack(rows, n)| == n
    ensures forall k | 0 <= k < n :: ReadBack(rows, n)[k] == NewestFirst(rows)[n - 1 - k]
  {
    SortedCount(rows);
    ReversedAll(Take(NewestFirst(rows), n));
  }

  lemma LastTurnAt(rows: seq<TurnRow>, n: nat, k: nat)
    requires k < n <= |rows|
    ensures |Last(TurnsOf(rows), n)| == n && Last(TurnsOf(rows), n)[k] == rows[|rows| - n + k].turn
  {
  }

  lemma PositionsIffAligned(rows: seq<TurnRow>, n: nat)
    requires n <= |rows|
    ensures |TurnsOf(ReadBack(rows, n))| == n == |Last(TurnsOf(rows), n)|
    ensures forall k | 0 <= k < n ::
              TurnsOf(ReadBack(rows, n))[k] == Last(TurnsOf(rows), n)[k] <==> Aligned(rows, |rows| - n + k)
  {
    ReadBackAll(rows, n);
    PositionsCompare(ReadBack(rows, n), NewestFirst(rows), rows, n);
  }

  /** A list that is the first n sorted rows backwards, against the log's last n turns. */
  lemma PositionsCompare(back: seq<TurnRow>, sorted: seq<TurnRow>, rows: seq<TurnRow>, n: nat)
    requires |back| == n <= |rows| == |sorted| && forall k | 0 <= k < n :: back[k] == sorted[n - 1 - k]
    ensures |TurnsOf(back)| == n == |Last(TurnsOf(rows), n)|
    ensures forall k | 0 <= k < n ::
              TurnsOf(back)[k] == Last(TurnsOf(rows), n)[k] <==> sorted[n - 1 - k].turn == rows[|rows| - n + k].turn
  {
    forall k | 0 <= k < n
      ensures TurnsOf(back)[k] == sorted[n - 1 - k].turn && Last(TurnsOf(rows), n)[k] == rows[|rows| - n + k].turn
    {
      LastTurnAt(rows, n, k);
    }
  }

  lemma ReadIffAligned(rows: seq<TurnRow>, n: nat)
    requires n <= |rows|
    ensures TurnsOf(ReadBack(rows, n)) == Last(TurnsOf(rows), n) <==>
              forall i | 0 <= i < |rows| && |rows| - n <= i :: Aligned(rows, i)
  {
    var back, last, from := TurnsOf(ReadBack(rows, n)), Last(TurnsOf(rows), n), |rows| - n;
    PositionsIffAligned(rows, n);
    if back == last {
      forall i | 0 <= i < |rows| && from <= i ensures Aligned(rows, i) {
        assert back[i - from] == last[i - from];
      }
    } else {
      var k :| 0 <= k < n && back[k] != last[k];
      assert !Aligned(rows, from + k);
    }
  }

  lemma ReadBackIsCapped(rows: seq<TurnRow>, n: nat)
    requires n > |rows|
    ensures ReadBack(rows, n) == ReadBack(rows, |rows|) && Last(TurnsOf(rows), n) == Last(TurnsOf(rows), |rows|)
  {
    SortedCount(rows);
  }

  ghost predicate ReadsAlike(rows: seq<TurnRow>, n: nat) {
    TurnsOf(ReadBack(rows, n)) == Last(TurnsOf(rows), n)
  }

  lemma ReadsAlikeIffRanksFollow(rows: seq<TurnRow>, m: nat)
    requires Unrepeated(rows)
    ensures (forall n: nat | n <= m :: ReadsAlike(rows, n)) <==> RanksFollow(rows, m)
  {
    forall i | 0 <= i < |rows| ensures Aligned(rows, i) <==> Ranked(rows, i) {
      AlignedIffRanked(rows, i);
    }
    if RanksFollow(rows, m) {
      forall n: nat | n <= m ensures ReadsAlike(rows, n) {
        ReadFollows(rows, m, n);
      }
    }
    if forall n: nat | n <= m :: ReadsAlike(rows, n) {
      var n := if m <= |rows| then m else |rows|;
      assert ReadsAlike(rows, n);
      ReadIffAligned(rows, n);
    }
  }

  lemma ReadFollows(rows: seq<TurnRow>, m: nat, n: nat)
    requires n <= m && forall i | 0 <= i < |rows| && |rows| - m <= i :: Aligned(rows, i)
    ensures ReadsAlike(rows, n)
  {
    if n <= |rows| {
      ReadIffAligned(rows, n);
    } else {
      ReadBackIsCapped(rows, n);
      ReadIffAligned(rows, |rows|);
    }
  }

  /** The two stores' answers to a read of the same conversation. */
  ghost predicate SameAnswer(rows: seq<TurnRow>, turns: seq<Turn>, maxTurns: int, limit: int) {
    TurnsOf(ReadBack(rows, AsNat(limit))) == Last(Last(turns, AsNat(maxTurns)), AsNat(limit))
  }

  /**
    Both stores answer every read up to the in-memory store's limit with the same turns exactly when
    each of the log's last turns is carried by the row of its rank by time and identifier.
   */
  lemma StoresAgreeIffRanksFollow(t: Tables, s: Spec, c: ConversationId, maxTurns: int)
    requires Records(t, s) && c in s && Unrepeated(RowsOf(t.turns, c, s[c].owner))
    ensures var rows := RowsOf(t.turns, c, s[c].owner);
            (forall limit: int | limit <= maxTurns :: SameAnswer(rows, s[c].turns, maxTurns, limit)) <==>
            RanksFollow(rows, AsNat(maxTurns))
  {
    var rows, m := RowsOf(t.turns, c, s[c].owner), AsNat(maxTurns);
    assert ConversationRecords(t, s[c], c) && TurnsOf(rows) == s[c].turns;
    ReadsAlikeIffRanksFollow(rows, m);
    forall limit: int | limit <= maxTurns
      ensures SameAnswer(rows, s[c].turns, maxTurns, limit) <==> ReadsAlike(rows, AsNat(limit))
    {
      LastOfLast(s[c].turns, m, AsNat(limit));
    }
    if forall limit: int | limit <= maxTurns :: SameAnswer(rows, s[c].turns, maxTurns, limit) {
      forall n: nat | n <= m ensures ReadsAlike(rows, n) {
        var limit: int := if maxTurns < 0 then maxTurns else n;
        assert SameAnswer(rows, s[c].turns, maxTurns, limit) && AsNat(limit) == n;
      }
    }
  }

  // ---------------------------------------------------------------------------
  // Whole histories
  // ---------------------------------------------------------------------------

  /** The first claimer owns a conversation forever, and logs only grow. */
  lemma {:induction false} OwnersAreForever(calls: seq<Call>, i: nat, c: ConversationId)
    requires i <= |calls| && c in SpecRun(calls[..i])
    ensures c in SpecRun(calls) && SpecRun(calls)[c].owner == SpecRun(calls[..i])[c].owner
    ensures SpecRun(calls[..i])[c].turns <= SpecRun(calls)[c].turns
    decreases |calls|
  {
    if i == |calls| {
      assert calls[..i] == calls;
    } else {
      assert calls[..|calls| - 1][..i] == calls[..i];
      OwnersAreForever(calls[..|calls| - 1], i, c);
    }
  }

  /** What each call of a history is answered: the same for both stores. */
  function Answers(calls: seq<Call>): seq<Option<Refusal>> {
    if calls == [] then []
    else Answers(calls[..|calls| - 1]) + [Refuses(SpecRun(calls[..|calls| - 1]), calls[|calls| - 1].op)]
  }

  method DriveMemory(calls: seq<Call>, maxTurns: int)
    returns (memory: InMemoryConversationStore, answers: seq<Option<Refusal>>)
    ensures fresh(memory) && memory.maxTurns == maxTurns
    ensures memory.Shows(SpecRun(calls)) && answers == Answers(calls)
  {
    memory := new InMemoryConversationStore(maxTurns);
    answers := [];
    for i := 0 to |calls|
      invariant fresh(memory) && memory.maxTurns == maxTurns
      invariant memory.Shows(SpecRun(calls[..i])) && answers == Answers(calls[..i])
    {
      assert calls[..i + 1][..i] == calls[..i];
      var answer := memory.Perform(calls[i].op, SpecRun(calls[..i]));
      answers := answers + [answer];
    }
    assert calls[..|calls|] == calls;
  }

  method DriveDatabase(calls: seq<Call>)
    returns (database: PostgresConversationStore, answers: seq<Option<Refusal>>)
    ensures fresh(database)
    ensures database.Shows(SpecRun(calls)) && answers == Answers(calls)
  {
    database := new PostgresConversationStore();
    answers := [];
    for i := 0 to |calls|
      invariant fresh(database)
      invariant database.Shows(SpecRun(calls[..i])) && answers == Answers(calls[..i])
    {
      assert calls[..i + 1][..i] == calls[..i];
      var answer := database.Perform(calls[i], SpecRun(calls[..i]));
      answers := answers + [answer];
    }
    assert calls[..|calls|] == calls;
  }

  /**
    After any history, refused calls included, both stores answer a read alike, provided the turns of
    that conversation came at increasing times and the limit is one the in-memory store can serve.
   */
  method ReadBoth(calls: seq<Call>, maxTurns: int, c: ConversationId, owner: UserId, limit: int)
    returns (inMemory: Result<seq<Turn>, Refusal>, stored: Result<seq<Turn>, Refusal>)
    requires limit <= maxTurns
    requires c in SpecRun(calls) ==> Increasing(SpecRun(calls)[c].turns)
    ensures inMemory == stored
    ensures inMemory == if c in SpecRun(calls) && SpecRun(calls)[c].owner == owner
                        then Ok(Last(SpecRun(calls)[c].turns, AsNat(limit))) else Err(NotTheOwner)
  {
    var memory, answers := DriveMemory(calls, maxTurns);
    var database, accepted := DriveDatabase(calls);
    assert answers == accepted;
    inMemory := memory.ReadRecent(c, owner, limit);
    stored := database.ReadRecent(c, owner, limit);
    if c in SpecRun(calls) {
      ReadsAgree(Tables(database.conversations, database.turns), SpecRun(calls), c, maxTurns, limit);
      assert ConversationRecords(Tables(database.conversations, database.turns), SpecRun(calls)[c], c);
    }
  }
}
