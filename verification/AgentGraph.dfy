/**
  The agent workflow: classify, then plan / call / observe / decide until a response.

  Whatever the brain and the tool invoker return in one node is one Reply; a run takes an arbitrary
  sequence of them, so results over all sequences are results over all brains and invokers that
  return normally.  `strip` and `compose` are the text functions of the respond node.
 */
module AgentGraph {
  import opened Common
  import opened Intent
  import opened ToolBudget
  import opened WorkingSets

  datatype Finish = Completed | ToolLimitReached | PolicyBlocked | Failed

  datatype PlannedAction = PlannedAction(isToolCall: bool, toolName: string, payload: Payload, answer: string)

  datatype ToolRecord = ToolRecord(toolName: string, payload: Payload, evidence: seq<string>)

  datatype Crash = NoCrash | BudgetExhausted | EvidenceRequired

  datatype Node = Classify | Plan | ToolCall | Observe | Decide | Respond | Finished

  datatype Reply = Reply(intent: string, plan: PlannedAction, record: ToolRecord, answer: string)

  datatype Config = Config(
    query: Query,
    tools: seq<Tool>,
    canon: (string, Value) -> Value,
    strip: string -> string,
    compose: seq<string> -> string)

  /** `invoked` and `crash` record history: the tools the invoker was called for, and a raised error. */
  datatype State = State(
    node: Node,
    intent: string,
    planned: PlannedAction,
    pending: Option<ToolRecord>,
    calls: seq<ToolRecord>,
    answer: string,
    finish: Option<Finish>,
    workingSet: WorkingSet,
    budget: Budget,
    invoked: seq<string>,
    crash: Crash)

  const NO_ACTION := PlannedAction(false, "", [], "")

  /** The per-turn input: everything but the checkpointed working set is reset. */
  function Initial(n: int, cap: int, previous: WorkingSet): State {
    State(Classify, "", NO_ACTION, None, [], "", None,
          Merge(previous, WorkingSet(None, [])), Budget(n, cap, 0, map[]), [], NoCrash)
  }

  function Available(tools: seq<Tool>, name: string): bool {
    exists i :: 0 <= i < |tools| && tools[i].name == name
  }

  /** The first descriptor with the name. */
  function Find(tools: seq<Tool>, name: string): Tool
    requires Available(tools, name)
  {
    if tools[0].name == name then tools[0] else Find(tools[1..], name)
  }

  predicate SomeCallable(c: Config, b: Budget) {
    exists i :: 0 <= i < |c.tools| && CanCall(b, c.tools[i].name)
  }

  function ClassifyIntent(s: State, o: Reply): State {
    var update := WorkingSet(Some(o.intent), s.workingSet.entities);
    s.(node := Plan, intent := o.intent, workingSet := Merge(s.workingSet, update))
  }

  function Route(s: State, action: PlannedAction): State {
    if action.isToolCall then s.(node := ToolCall, planned := action)
    else if action.answer != "" then
      s.(node := Respond, planned := action, answer := action.answer, finish := Some(Completed))
    else s.(node := Respond, planned := action)
  }

  function PlanAction(c: Config, s: State, o: Reply): State {
    var resolution := Resolve(c.query);
    if resolution.Some? then
      var tool := resolution.value.toolName;
      if tool.None? || !Available(c.tools, tool.value) || !CanCall(s.budget, tool.value) then Route(s, NO_ACTION)
      else Route(s, PlannedAction(true, tool.value, resolution.value.payload, ""))
    else if !SomeCallable(c, s.budget) then Route(s, NO_ACTION)
    else Route(s, o.plan)
  }

  function Blocked(s: State, text: string): State {
    s.(node := Respond, answer := text, finish := Some(PolicyBlocked))
  }

  datatype Gate = PolicyStop | SemanticStop | Pass

  /** The checks before the invoker: name and budget, then the semantics of the call. */
  function CheckCall(c: Config, s: State): Gate {
    var name := s.planned.toolName;
    if !Available(c.tools, name) || !CanCall(s.budget, name) then PolicyStop
    else if Validate(c.canon, c.query, Find(c.tools, name), s.planned.payload).Rejected? then SemanticStop
    else Pass
  }

  datatype Refusals = Refusals(policy: string, semantics: string, identity: string)

  const REFUSALS := Refusals(
    "Tool call blocked by policy.",
    "Tool call blocked because it did not match the user's request.",
    "Tool call result blocked because its identity was invalid.")

  function Dispatch(texts: Refusals, s: State, gate: Gate, o: Reply): State {
    match gate
    case PolicyStop => Blocked(s, texts.policy)
    case SemanticStop => Blocked(s, texts.semantics)
    case Pass =>
      var s' := s.(invoked := s.invoked + [s.planned.toolName]);
      if o.record.toolName != s.planned.toolName then
        Blocked(s', texts.identity)
      else s'.(node := Observe, pending := Some(o.record))
  }

  function InvokeTool(c: Config, s: State, o: Reply): State {
    Dispatch(REFUSALS, s, CheckCall(c, s), o)
  }

  function ObserveResult(s: State): State {
    if s.pending.None? then s.(node := Decide)
    else
      var call := s.pending.value;
      if !CanCall(s.budget, call.toolName) then s.(node := Finished, crash := BudgetExhausted)
      else
        var update := WorkingSet(s.workingSet.activeIntent, EntitiesOf(call.payload));
        s.(node := Decide, pending := None, calls := s.calls + [call],
           workingSet := Merge(s.workingSet, update), budget := Recorded(s.budget, call.toolName))
  }

  function DecideNextStep(s: State): State {
    s.(node := if s.budget.remaining > 0 then Plan else Respond)
  }

  function Evidence(calls: seq<ToolRecord>): seq<string> {
    if calls == [] then [] else Evidence(calls[..|calls| - 1]) + calls[|calls| - 1].evidence
  }

  function RespondNode(c: Config, s: State, o: Reply): State {
    if s.finish.Some? && s.answer != "" then s.(node := Finished)
    else if s.calls != [] && Evidence(s.calls) == [] then
      s.(node := Finished, crash := EvidenceRequired)  // the composer refuses empty evidence
    else
      var text := c.strip(if s.calls != [] then c.compose(Evidence(s.calls)) else o.answer);
      s.(node := Finished,
         answer := if text == "" then "No answer generated." else text,
         finish := if s.finish.None? then Some(Completed) else s.finish)
  }

  function Step(c: Config, s: State, o: Reply): State {
    match s.node
    case Classify => ClassifyIntent(s, o)
    case Plan => PlanAction(c, s, o)
    case ToolCall => InvokeTool(c, s, o)
    case Observe => ObserveResult(s)
    case Decide => DecideNextStep(s)
    case Respond => RespondNode(c, s, o)
    case Finished => s
  }

  function Run(c: Config, s: State, replies: seq<Reply>): State
    decreases |replies|
  {
    if replies == [] then s else Run(c, Step(c, s, replies[0]), replies[1..])
  }

  // ---------------------------------------------------------------------------
  // The invariant of every run
  // ---------------------------------------------------------------------------

  function Names(calls: seq<ToolRecord>): seq<string> {
    seq(|calls|, i requires 0 <= i < |calls| => calls[i].toolName)
  }

  /** Budget, call list and invocation history agree at every node. */
  ghost predicate Inv(s: State, n: int, cap: int) {
    && Balanced(s.budget, n, cap)
    && s.budget.total == |s.calls|
    && (forall t :: Calls(s.budget, t) == multiset(Names(s.calls))[t])
    && |s.calls| <= |s.invoked| <= |s.calls| + 1
    && (|s.invoked| > 0 ==> |s.invoked| <= n)
    && (s.finish.Some? ==> s.answer != "" && s.node in {Respond, Finished})
    && (s.pending.Some? <==> s.node == Observe)
    && (s.node !in {Observe, Respond, Finished} ==> |s.invoked| == |s.calls|)
    && (s.node == ToolCall ==> s.planned.isToolCall && s.budget.remaining > 0)
    && (s.node == Observe ==> CanCall(s.budget, s.pending.value.toolName) && |s.invoked| == |s.calls| + 1)
    && s.crash != BudgetExhausted
    && (s.crash != NoCrash ==> s.node == Finished)
    && (s.node == Finished && s.crash == NoCrash ==> s.finish.Some?)
    && (s.crash == EvidenceRequired ==> s.finish.None? && s.calls != [] && Evidence(s.calls) == [])
  }

  /** Node executions still to come, at most. */
  function Fuel(s: State): nat {
    var r := if s.budget.remaining > 0 then s.budget.remaining else 0;
    match s.node
    case Classify => if r == 0 then 3 else 4 * r + 2
    case Plan => if r == 0 then 2 else 4 * r + 1
    case ToolCall => 4 * r
    case Observe => if r == 0 then 0 else 4 * r - 1
    case Decide => if r == 0 then 2 else 4 * r + 2
    case Respond => 1
    case Finished => 0
  }

  /** A node keeps the invariant and uses up at least one execution. */
  ghost predicate Advances(s: State, t: State, n: int, cap: int) {
    Inv(t, n, cap) && Fuel(t) < Fuel(s)
  }

  lemma RouteAdvances(s: State, action: PlannedAction, n: int, cap: int)
    requires Inv(s, n, cap) && s.node == Plan && (action.isToolCall ==> s.budget.remaining > 0)
    ensures Advances(s, Route(s, action), n, cap)
  {
  }

  lemma PlanAdvances(c: Config, s: State, o: Reply, n: int, cap: int)
    requires Inv(s, n, cap) && s.node == Plan
    ensures Advances(s, PlanAction(c, s, o), n, cap)
  {
    RouteAdvances(s, NO_ACTION, n, cap);
    if s.budget.remaining > 0 {
      RouteAdvances(s, o.plan, n, cap);
      if Resolve(c.query).Some? {
        var r := Resolve(c.query).value;
        RouteAdvances(s, PlannedAction(true, if r.toolName.Some? then r.toolName.value else "", r.payload, ""), n, cap);
      }
    }
  }

  lemma BlockedAdvances(s: State, t: State, n: int, cap: int)
    requires Inv(s, n, cap) && s.node == ToolCall
    requires t == s || exists name :: t == s.(invoked := s.invoked + [name])
    ensures forall text: string | text != "" :: Advances(s, Blocked(t, text), n, cap)
  {
  }

  lemma DispatchAdvances(texts: Refusals, s: State, gate: Gate, o: Reply, n: int, cap: int)
    requires Inv(s, n, cap) && s.node == ToolCall && (gate.Pass? ==> CanCall(s.budget, s.planned.toolName))
    requires texts.policy != "" && texts.semantics != "" && texts.identity != ""
    ensures Advances(s, Dispatch(texts, s, gate, o), n, cap)
  {
    if gate.Pass? {
      BlockedAdvances(s, s.(invoked := s.invoked + [s.planned.toolName]), n, cap);
    } else {
      BlockedAdvances(s, s, n, cap);
    }
  }

  lemma InvokeAdvances(c: Config, s: State, o: Reply, n: int, cap: int)
    requires Inv(s, n, cap) && s.node == ToolCall
    ensures Advances(s, InvokeTool(c, s, o), n, cap)
  {
    DispatchAdvances(REFUSALS, s, CheckCall(c, s), o, n, cap);
  }

  lemma ObserveAdvances(s: State, n: int, cap: int)
    requires Inv(s, n, cap) && s.node == Observe
    ensures Advances(s, ObserveResult(s), n, cap)
  {
    var call := s.pending.value;
    RecordKeepsBalance(s.budget, n, cap, call.toolName);
    assert Names(s.calls + [call]) == Names(s.calls) + [call.toolName];
  }

  lemma StepAdvances(c: Config, s: State, o: Reply, n: int, cap: int)
    requires Inv(s, n, cap) && s.node != Finished
    ensures Advances(s, Step(c, s, o), n, cap)
  {
    match s.node
    case Classify =>
    case Plan => PlanAdvances(c, s, o, n, cap);
    case ToolCall => InvokeAdvances(c, s, o, n, cap);
    case Observe => ObserveAdvances(s, n, cap);
    case Decide =>
    case Respond =>
  }

  lemma InitialInv(n: int, cap: int, previous: WorkingSet)
    ensures Inv(Initial(n, cap, previous), n, cap)
  {
    assert Names([]) == [];
  }

  /**
    Every run, whatever the brain and the invoker answer: the books balance at every node, the
    budget error is never raised, and enough steps finish it.
   */
  lemma {:induction false} RunKeepsInv(c: Config, s: State, replies: seq<Reply>, n: int, cap: int)
    requires Inv(s, n, cap)
    ensures Inv(Run(c, s, replies), n, cap)
    ensures |replies| >= Fuel(s) ==> Run(c, s, replies).node == Finished
    decreases |replies|
  {
    if replies != [] {
      if s.node == Finished {
        assert Step(c, s, replies[0]) == s;
      } else {
        StepAdvances(c, s, replies[0], n, cap);
      }
      RunKeepsInv(c, Step(c, s, replies[0]), replies[1..], n, cap);
    }
  }
}
