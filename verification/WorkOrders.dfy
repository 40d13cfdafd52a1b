/**
  Changing a work order's status: any number of clients read a snapshot, decide, and write with a
  compare-and-swap.  Orders are looked up by a unique code, as the use case consumes the lookup.
 */
module WorkOrders {
  import opened Common

  datatype Status = Pending | Open | InProgress | Completed | Cancelled

  type Code = string
  type ClientId = nat
  type Store = map<Code, Status>

  datatype Command = Command(code: Code, target: Status, reason: string)

  datatype Outcome =
    | NotFound
    | Unchanged(status: Status)
    | TerminalStatus(status: Status)
    | InvalidTransition(status: Status, target: Status)
    | ReasonRequired(target: Status)
    | Conflict(expected: Status)
    | Changed(from: Status, to: Status)

  function Allowed(current: Status): set<Status> {
    match current
    case Pending => {Open, Cancelled}
    case Open => {InProgress, Cancelled}
    case InProgress => {Open, Completed, Cancelled}
    case Completed => {}
    case Cancelled => {}
  }

  predicate IsTerminal(s: Status) {
    Allowed(s) == {}
  }

  predicate RequiresReason(target: Status) {
    target in {Completed, Cancelled}
  }

  function Snapshot(store: Store, code: Code): Option<Status> {
    if code in store then Some(store[code]) else None
  }

  /** The outcome settled by the snapshot alone; none when a write is due. */
  function Decide(cmd: Command, seen: Option<Status>): Option<Outcome> {
    if seen.None? then Some(NotFound)
    else
      var current := seen.value;
      if current == cmd.target then Some(Unchanged(current))
      else if IsTerminal(current) then Some(TerminalStatus(current))
      else if cmd.target !in Allowed(current) then Some(InvalidTransition(current, cmd.target))
      else if RequiresReason(cmd.target) && cmd.reason == "" then Some(ReasonRequired(cmd.target))
      else None
  }

  /** The operation as one step: read, decide and write with nobody in between. */
  function Atomic(store: Store, cmd: Command): (Store, Outcome) {
    var decided := Decide(cmd, Snapshot(store, cmd.code));
    if decided.Some? then (store, decided.value)
    else (store[cmd.code := cmd.target], Changed(store[cmd.code], cmd.target))
  }

  /**
    What the operation answers, status by status: the seven steps of an order's life are changes, if
    a reason comes with the two that end it, and everything else is refused for its own cause.
   */
  lemma AnswersByStatus(store: Store, cmd: Command)
    ensures Atomic(store, cmd).1.Changed? <==>
              && cmd.code in store
              && (store[cmd.code], cmd.target) in {
                   (Pending, Open), (Pending, Cancelled), (Open, InProgress), (Open, Cancelled),
                   (InProgress, Open), (InProgress, Completed), (InProgress, Cancelled)}
              && (cmd.target in {Completed, Cancelled} ==> cmd.reason != "")
    ensures Atomic(store, cmd).1.Changed? ==>
              Atomic(store, cmd) == (store[cmd.code := cmd.target], Changed(store[cmd.code], cmd.target))
    ensures !Atomic(store, cmd).1.Changed? ==> Atomic(store, cmd).0 == store
    ensures Atomic(store, cmd).1 == NotFound <==> cmd.code !in store
    ensures Atomic(store, cmd).1.Unchanged? <==> cmd.code in store && store[cmd.code] == cmd.target
    ensures Atomic(store, cmd).1.TerminalStatus? <==>
              cmd.code in store && store[cmd.code] != cmd.target && store[cmd.code] in {Completed, Cancelled}
    ensures Atomic(store, cmd).1.ReasonRequired? <==>
              && cmd.code in store && cmd.reason == ""
              && (store[cmd.code], cmd.target) in {
                   (Pending, Cancelled), (Open, Cancelled), (InProgress, Completed), (InProgress, Cancelled)}
    ensures Atomic(store, cmd).1.InvalidTransition? <==>
              && cmd.code in store
              && (store[cmd.code], cmd.target) in {
                   (Pending, InProgress), (Pending, Completed), (Open, Pending), (Open, Completed), (InProgress, Pending)}
  {
  }

  // ---------------------------------------------------------------------------
  // Interleaved clients
  // ---------------------------------------------------------------------------

  /** `begun` is the number of operations that had taken effect when the client read, `at` its own. */
  datatype Client =
    | Idle
    | Waiting(cmd: Command, seen: Status, begun: nat)
    | Returned(cmd: Command, outcome: Outcome, begun: nat, at: nat)

  datatype Entry = Entry(client: ClientId, cmd: Command, outcome: Outcome)

  /** `effects` lists the operations in the order in which they took effect. */
  datatype System = System(store: Store, clients: map<ClientId, Client>, effects: seq<Entry>)

  datatype Action = Read(client: ClientId, cmd: Command) | Write(client: ClientId) | Forget(client: ClientId)

  function At(s: System, c: ClientId): Client {
    if c in s.clients then s.clients[c] else Idle
  }

  predicate Enabled(s: System, a: Action) {
    match a
    case Read(c, _) => At(s, c).Idle?
    case Write(c) => At(s, c).Waiting?
    case Forget(_) => true
  }

  function TakesEffect(s: System, c: ClientId, cmd: Command, outcome: Outcome, begun: nat): System {
    s.(clients := s.clients[c := Returned(cmd, outcome, begun, |s.effects|)],
       effects := s.effects + [Entry(c, cmd, outcome)])
  }

  function Apply(s: System, a: Action): System
    requires Enabled(s, a)
  {
    match a
    case Read(c, cmd) =>
      var seen := Snapshot(s.store, cmd.code);
      var decided := Decide(cmd, seen);
      if decided.Some? then TakesEffect(s, c, cmd, decided.value, |s.effects|)
      else s.(clients := s.clients[c := Waiting(cmd, seen.value, |s.effects|)])
    case Write(c) =>
      var Waiting(cmd, seen, begun) := At(s, c);
      if Snapshot(s.store, cmd.code) == Some(seen) then
        TakesEffect(s, c, cmd, Changed(seen, cmd.target), begun).(store := s.store[cmd.code := cmd.target])
      else s.(clients := s.clients[c := Returned(cmd, Conflict(seen), begun, |s.effects|)])
    case Forget(c) => s.(clients := s.clients[c := Idle])
  }

  predicate CanRun(s: System, actions: seq<Action>)
    decreases |actions|
  {
    actions == [] || (Enabled(s, actions[0]) && CanRun(Apply(s, actions[0]), actions[1..]))
  }

  function Run(s: System, actions: seq<Action>): System
    requires CanRun(s, actions)
    decreases |actions|
  {
    if actions == [] then s else Run(Apply(s, actions[0]), actions[1..])
  }

  // ---------------------------------------------------------------------------
  // Linearizability
  // ---------------------------------------------------------------------------

  /** The store after the operations run one at a time, in order. */
  function Replay(store: Store, effects: seq<Entry>): Store {
    if effects == [] then store
    else Atomic(Replay(store, effects[..|effects| - 1]), effects[|effects| - 1].cmd).0
  }

  /** Run one at a time from the initial store, every operation returns what its client was told. */
  ghost predicate Explains(initial: Store, effects: seq<Entry>) {
    forall i | 0 <= i < |effects| ::
      Atomic(Replay(initial, effects[..i]), effects[i].cmd).1 == effects[i].outcome
  }

  predicate ChangesOrder(e: Entry, code: Code) {
    e.outcome.Changed? && e.cmd.code == code
  }

  /**
    What a client was told is true: its operation took effect between its read and its return, and
    a conflict was reported only because another operation changed the same order in between.
   */
  ghost predicate ToldTheTruth(s: System, c: ClientId, cmd: Command, outcome: Outcome, begun: nat, at: nat) {
    if outcome.Conflict? then
      begun <= at <= |s.effects| && exists i :: begun <= i < at && ChangesOrder(s.effects[i], cmd.code)
    else
      begun <= at < |s.effects| && s.effects[at] == Entry(c, cmd, outcome)
  }

  ghost predicate ClientOk(initial: Store, s: System, c: ClientId) {
    match At(s, c)
    case Idle => true
    case Waiting(cmd, seen, begun) =>
      && begun <= |s.effects|
      && Decide(cmd, Some(seen)).None?
      && Snapshot(Replay(initial, s.effects[..begun]), cmd.code) == Some(seen)
    case Returned(cmd, outcome, begun, at) => ToldTheTruth(s, c, cmd, outcome, begun, at)
  }

  ghost predicate Inv(initial: Store, s: System) {
    && s.store == Replay(initial, s.effects)
    && Explains(initial, s.effects)
    && forall c | c in s.clients :: ClientOk(initial, s, c)
  }

  lemma ReplaySnoc(initial: Store, effects: seq<Entry>, e: Entry)
    requires Explains(initial, effects) && Atomic(Replay(initial, effects), e.cmd).1 == e.outcome
    ensures Explains(initial, effects + [e])
    ensures Replay(initial, effects + [e]) == Atomic(Replay(initial, effects), e.cmd).0
  {
    var all := effects + [e];
    assert all[..|effects|] == effects;
    forall i | 0 <= i < |all| ensures Atomic(Replay(initial, all[..i]), all[i].cmd).1 == all[i].outcome {
      if i < |effects| {
        assert all[..i] == effects[..i] && all[i] == effects[i];
      }
    }
  }

  lemma ExplainsPrefix(initial: Store, effects: seq<Entry>)
    requires Explains(initial, effects) && effects != []
    ensures var front := effects[..|effects| - 1];
            && Explains(initial, front)
            && Atomic(Replay(initial, front), effects[|effects| - 1].cmd).1 == effects[|effects| - 1].outcome
  {
    var front := effects[..|effects| - 1];
    forall i | 0 <= i < |front| ensures front[..i] == effects[..i] {}
  }

  /** What one operation does to one order. */
  lemma EntryEffect(store: Store, e: Entry, code: Code)
    requires Atomic(store, e.cmd).1 == e.outcome
    ensures var after := Snapshot(Atomic(store, e.cmd).0, code);
            if ChangesOrder(e, code)
            then after == Some(e.cmd.target) && code in store && e.cmd.target in Allowed(store[code])
            else after == Snapshot(store, code)
    ensures e.outcome.Changed? && RequiresReason(e.cmd.target) ==> e.cmd.reason != ""
  {
  }

  /** Appending an operation leaves what is known about the other clients alone. */
  lemma ClientsKept(initial: Store, s: System, t: System, c: ClientId)
    requires ClientOk(initial, s, c) && At(t, c) == At(s, c)
    requires s.effects <= t.effects
    ensures ClientOk(initial, t, c)
  {
    match At(s, c)
    case Waiting(_, _, begun) => assert t.effects[..begun] == s.effects[..begun];
    case Returned(cmd, outcome, begun, at) =>
      if outcome.Conflict? {
        var i :| begun <= i < at && ChangesOrder(s.effects[i], cmd.code);
        assert t.effects[i] == s.effects[i];
      }
    case Idle =>
  }

  lemma LastLeavesAlone(initial: Store, effects: seq<Entry>, code: Code)
    requires Explains(initial, effects) && effects != [] && !ChangesOrder(effects[|effects| - 1], code)
    ensures var front := effects[..|effects| - 1];
            Explains(initial, front) && Snapshot(Replay(initial, effects), code) == Snapshot(Replay(initial, front), code)
  {
    ExplainsPrefix(initial, effects);
    EntryEffect(Replay(initial, effects[..|effects| - 1]), effects[|effects| - 1], code);
  }

  lemma {:induction false} UnchangedWithoutChange(initial: Store, effects: seq<Entry>, begun: nat, code: Code)
    requires Explains(initial, effects) && begun <= |effects|
    requires forall i | begun <= i < |effects| :: !ChangesOrder(effects[i], code)
    ensures Snapshot(Replay(initial, effects), code) == Snapshot(Replay(initial, effects[..begun]), code)
    decreases |effects|
  {
    if begun == |effects| {
      assert effects[..begun] == effects;
    } else {
      var front := effects[..|effects| - 1];
      LastLeavesAlone(initial, effects, code);
      UnchangedWithoutChange(initial, front, begun, code);
      assert front[..begun] == effects[..begun];
    }
  }

  /** If an order's status differs between two points, some operation in between changed that order. */
  lemma DifferenceMeansChange(initial: Store, effects: seq<Entry>, begun: nat, code: Code)
    requires Explains(initial, effects) && begun <= |effects|
    requires Snapshot(Replay(initial, effects), code) != Snapshot(Replay(initial, effects[..begun]), code)
    ensures exists i :: begun <= i < |effects| && ChangesOrder(effects[i], code)
  {
    if forall i | begun <= i < |effects| :: !ChangesOrder(effects[i], code) {
      UnchangedWithoutChange(initial, effects, begun, code);
    }
  }

  lemma TakesEffectKeepsInv(initial: Store, s: System, c: ClientId, cmd: Command, outcome: Outcome, begun: nat)
    requires Inv(initial, s) && begun <= |s.effects| && Atomic(s.store, cmd).1 == outcome && !outcome.Conflict?
    ensures Inv(initial, TakesEffect(s, c, cmd, outcome, begun).(store := Atomic(s.store, cmd).0))
  {
    var t := TakesEffect(s, c, cmd, outcome, begun).(store := Atomic(s.store, cmd).0);
    ReplaySnoc(initial, s.effects, Entry(c, cmd, outcome));
    forall d | d in t.clients && d != c ensures ClientOk(initial, t, d) {
      ClientsKept(initial, s, t, d);
    }
  }

  lemma ClientMoves(initial: Store, s: System, c: ClientId, client: Client)
    requires Inv(initial, s) && ClientOk(initial, s.(clients := s.clients[c := client]), c)
    ensures Inv(initial, s.(clients := s.clients[c := client]))
  {
    var t := s.(clients := s.clients[c := client]);
    forall d | d in t.clients && d != c ensures ClientOk(initial, t, d) {
      ClientsKept(initial, s, t, d);
    }
  }

  lemma StepKeepsInv(initial: Store, s: System, a: Action)
    requires Inv(initial, s) && Enabled(s, a)
    ensures Inv(initial, Apply(s, a))
  {
    assert At(s, a.client).Waiting? ==> ClientOk(initial, s, a.client);
    assert s.effects[..|s.effects|] == s.effects;
    match a
    case Read(c, cmd) =>
      var decided := Decide(cmd, Snapshot(s.store, cmd.code));
      if decided.Some? {
        TakesEffectKeepsInv(initial, s, c, cmd, decided.value, |s.effects|);
      } else {
        ClientMoves(initial, s, c, Waiting(cmd, Snapshot(s.store, cmd.code).value, |s.effects|));
      }
    case Write(c) =>
      var Waiting(cmd, seen, begun) := At(s, c);
      if Snapshot(s.store, cmd.code) == Some(seen) {
        TakesEffectKeepsInv(initial, s, c, cmd, Changed(seen, cmd.target), begun);
      } else {
        DifferenceMeansChange(initial, s.effects, begun, cmd.code);
        ClientMoves(initial, s, c, Returned(cmd, Conflict(seen), begun, |s.effects|));
      }
    case Forget(c) => ClientMoves(initial, s, c, Idle);
  }

  lemma {:induction false} RunKeepsInv(initial: Store, s: System, actions: seq<Action>)
    requires Inv(initial, s) && CanRun(s, actions)
    ensures Inv(initial, Run(s, actions))
    decreases |actions|
  {
    if actions != [] {
      StepKeepsInv(initial, s, actions[0]);
      RunKeepsInv(initial, Apply(s, actions[0]), actions[1..]);
    }
  }

  /**
    Linearizability, for any number of clients and any interleaving: the store is that of the
    effects run one at a time, each returning what its client was told, inside its own interval.
   */
  lemma StatusChangesAreLinearizable(initial: Store, actions: seq<Action>)
    requires CanRun(System(initial, map[], []), actions)
    ensures var s := Run(System(initial, map[], []), actions);
            && s.store == Replay(initial, s.effects)
            && Explains(initial, s.effects)
            && forall c | c in s.clients && s.clients[c].Returned? ::
                 ToldTheTruth(s, c, s.clients[c].cmd, s.clients[c].outcome, s.clients[c].begun, s.clients[c].at)
  {
    RunKeepsInv(initial, System(initial, map[], []), actions);
    var s := Run(System(initial, map[], []), actions);
    assert forall c | c in s.clients :: ClientOk(initial, s, c);
  }

  lemma {:induction false} OthersLeaveAlone(s: System, actions: seq<Action>, c: ClientId)
    requires CanRun(s, actions) && forall a | a in actions :: a.client != c
    ensures At(Run(s, actions), c) == At(s, c)
    decreases |actions|
  {
    if actions != [] {
      assert actions[0] in actions;
      OthersLeaveAlone(Apply(s, actions[0]), actions[1..], c);
    }
  }

  /**
    Every call is answered, whatever the others do meanwhile: at once with what the atomic operation
    would say, unless that is a change; then, when it writes, with that change exactly if the order
    still has the status it had at the read, and with a conflict otherwise.
   */
  lemma EveryCallIsAnswered(s: System, c: ClientId, cmd: Command, others: seq<Action>)
    requires At(s, c).Idle? && CanRun(Apply(s, Read(c, cmd)), others) && forall a | a in others :: a.client != c
    ensures var now, t := Atomic(s.store, cmd).1, Run(Apply(s, Read(c, cmd)), others);
            if !now.Changed? then At(t, c).Returned? && At(t, c).cmd == cmd && At(t, c).outcome == now
            else
              && cmd.code in s.store && At(t, c).Waiting? && Enabled(t, Write(c))
              && var u := Apply(t, Write(c));
              && At(u, c).Returned? && At(u, c).cmd == cmd
              && if Snapshot(t.store, cmd.code) == Some(s.store[cmd.code])
                 then At(u, c).outcome == now && u.store == t.store[cmd.code := cmd.target]
                 else At(u, c).outcome == Conflict(s.store[cmd.code]) && u.store == t.store
  {
    OthersLeaveAlone(Apply(s, Read(c, cmd)), others, c);
  }

  // ---------------------------------------------------------------------------
  // The committed history of one order
  // ---------------------------------------------------------------------------

  /** The statuses an order has gone through, oldest first. */
  function Statuses(initial: Store, effects: seq<Entry>, code: Code): seq<Status>
    requires code in initial
  {
    if effects == [] then [initial[code]]
    else
      var last, before := effects[|effects| - 1], Statuses(initial, effects[..|effects| - 1], code);
      if ChangesOrder(last, code) then before + [last.cmd.target] else before
  }

  ghost predicate IsPath(statuses: seq<Status>) {
    forall i | 0 <= i < |statuses| - 1 :: statuses[i + 1] in Allowed(statuses[i])
  }

  lemma {:induction false} HistoryIsAPath(initial: Store, effects: seq<Entry>, code: Code)
    requires Explains(initial, effects) && code in initial
    ensures var statuses := Statuses(initial, effects, code);
            && statuses != [] && IsPath(statuses)
            && Snapshot(Replay(initial, effects), code) == Some(statuses[|statuses| - 1])
    decreases |effects|
  {
    if effects != [] {
      var n := |effects| - 1;
      ExplainsPrefix(initial, effects);
      HistoryIsAPath(initial, effects[..n], code);
      EntryEffect(Replay(initial, effects[..n]), effects[n], code);
    }
  }

  lemma {:induction false} NoSilentEnd(initial: Store, effects: seq<Entry>, i: nat)
    requires Explains(initial, effects) && i < |effects|
    ensures effects[i].outcome.Changed? && RequiresReason(effects[i].cmd.target) ==> effects[i].cmd.reason != ""
  {
    EntryEffect(Replay(initial, effects[..i]), effects[i], effects[i].cmd.code);
  }

  /** What an order's next status can be, told from where each status is entered. */
  predicate FollowsFrom(before: Status, after: Status) {
    match after
    case Pending => false
    case Open => before == Pending || before == InProgress
    case InProgress => before == Open
    case Completed => before == InProgress
    case Cancelled => before == Pending || before == Open || before == InProgress
  }

  lemma PathByStatus(statuses: seq<Status>)
    requires IsPath(statuses)
    ensures forall i | 0 <= i < |statuses| - 1 :: FollowsFrom(statuses[i], statuses[i + 1])
    ensures forall i | 0 <= i < |statuses| && statuses[i] in {Completed, Cancelled} :: i == |statuses| - 1
  {
    forall i | 0 <= i < |statuses| - 1
      ensures FollowsFrom(statuses[i], statuses[i + 1]) && statuses[i] != Completed && statuses[i] != Cancelled
    {
      assert statuses[i + 1] in Allowed(statuses[i]);
    }
  }

  /**
    Over every run, status by status: whatever is completed or cancelled stays so, completion comes
    straight from being in progress, progress from open, open from pending or in progress, nothing
    becomes pending again, and no order ends without a reason.
   */
  lemma CommittedHistories(initial: Store, actions: seq<Action>, code: Code)
    requires CanRun(System(initial, map[], []), actions) && code in initial
    ensures var s := Run(System(initial, map[], []), actions);
            var statuses := Statuses(initial, s.effects, code);
            && statuses != [] && Snapshot(s.store, code) == Some(statuses[|statuses| - 1])
            && (forall i | 0 <= i < |statuses| - 1 :: FollowsFrom(statuses[i], statuses[i + 1]))
            && (forall i | 0 <= i < |statuses| && statuses[i] in {Completed, Cancelled} :: i == |statuses| - 1)
            && (forall i | 0 <= i < |s.effects| && s.effects[i].outcome.Changed? ::
                  s.effects[i].cmd.target in {Completed, Cancelled} ==> s.effects[i].cmd.reason != "")
  {
    RunKeepsInv(initial, System(initial, map[], []), actions);
    var s := Run(System(initial, map[], []), actions);
    HistoryIsAPath(initial, s.effects, code);
    var statuses := Statuses(initial, s.effects, code);
    PathByStatus(statuses);
    forall i | 0 <= i < |s.effects| && s.effects[i].outcome.Changed? && s.effects[i].cmd.target in {Completed, Cancelled}
      ensures s.effects[i].cmd.reason != ""
    {
      NoSilentEnd(initial, s.effects, i);
    }
  }

  // ---------------------------------------------------------------------------
  // The use case
  // ---------------------------------------------------------------------------

  function ReplayCommands(store: Store, commands: seq<Command>): Store
    decreases |commands|
  {
    if commands == [] then store else ReplayCommands(Atomic(store, commands[0]).0, commands[1..])
  }

  class WorkOrderStore {
    var orders: Store

    constructor (orders: Store)
      ensures this.orders == orders
    {
      this.orders := orders;
    }

    method FindStatusByCode(code: Code) returns (snapshot: Option<Status>)
      ensures snapshot == Snapshot(orders, code)
    {
      snapshot := if code in orders then Some(orders[code]) else None;
    }

    /** The conditional update: rolled back when the expected status is no longer there. */
    method ApplyStatus(code: Code, expected: Status, target: Status) returns (applied: bool)
      modifies this
      ensures applied <==> Snapshot(old(orders), code) == Some(expected)
      ensures orders == if applied then old(orders)[code := target] else old(orders)
    {
      if code !in orders || orders[code] != expected {
        return false;
      }
      orders := orders[code := target];
      return true;
    }

    /** Changes other clients commit. */
    method Interfere(others: seq<Command>)
      modifies this
      ensures orders == ReplayCommands(old(orders), others)
      decreases |others|
    {
      if others != [] {
        orders := Atomic(orders, others[0]).0;
        Interfere(others[1..]);
      }
    }

    /**
      One status change, with `others` committed by other clients between its read and its write.
      It acts as the atomic operation before them, or after them, or reports a conflict and
      changes nothing.
     */
    method Execute(cmd: Command, others: seq<Command>) returns (outcome: Outcome)
      modifies this
      ensures Decide(cmd, Snapshot(old(orders), cmd.code)).Some? ==>
                (orders, outcome) == Atomic(old(orders), cmd)
      ensures Decide(cmd, Snapshot(old(orders), cmd.code)).None? ==>
                var between := ReplayCommands(old(orders), others);
                if Snapshot(between, cmd.code) == Snapshot(old(orders), cmd.code)
                then (orders, outcome) == Atomic(between, cmd) && outcome.Changed?
                else orders == between && outcome == Conflict(old(orders)[cmd.code])
    {
      var snapshot := FindStatusByCode(cmd.code);
      if snapshot.None? {
        return NotFound;
      }
      var current := snapshot.value;
      if current == cmd.target {
        return Unchanged(current);
      }
      if IsTerminal(current) {
        return TerminalStatus(current);
      }
      if cmd.target !in Allowed(current) {
        return InvalidTransition(current, cmd.target);
      }
      if RequiresReason(cmd.target) && cmd.reason == "" {
        return ReasonRequired(cmd.target);
      }
      Interfere(others);
      var applied := ApplyStatus(cmd.code, current, cmd.target);
      if !applied {
        return Conflict(current);
      }
      return Changed(current, cmd.target);
    }
  }
}
