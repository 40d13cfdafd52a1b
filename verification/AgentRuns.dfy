/** Whole runs of the agent workflow: how they end, how often they call tools, what they remember. */
module AgentRuns {
  import opened Common
  import opened Intent
  import opened Sums
  import opened ToolBudget
  import opened WorkingSets
  import opened AgentGraph

  function EffectiveBudget(maxToolCalls: int, policyMax: int, allowed: bool): int {
    if allowed then Min(Max(maxToolCalls, 0), policyMax) else 0
  }

  function AllowedTools(tools: seq<Tool>, names: set<string>): seq<Tool> {
    if tools == [] then []
    else (if tools[0].name in names then [tools[0]] else []) + AllowedTools(tools[1..], names)
  }

  datatype RunResult = RunResult(answer: string, finish: Finish, calls: seq<ToolRecord>)

  function ResultOf(s: State): RunResult {
    RunResult(if s.answer == "" then "No answer generated." else s.answer,
              if s.finish.None? then Failed else s.finish.value, s.calls)
  }

  /** Node executions a run with n calls can need. */
  function Bound(n: int): nat {
    if n <= 0 then 3 else 4 * n + 2
  }

  // ---------------------------------------------------------------------------
  // Where the answer comes from
  // ---------------------------------------------------------------------------

  predicate IsRefusal(texts: Refusals, answer: string) {
    answer == texts.policy || answer == texts.semantics || answer == texts.identity
  }

  /** The composed answer over the evidence of the recorded calls. */
  function Composed(c: Config, calls: seq<ToolRecord>): string {
    var text := c.strip(c.compose(Evidence(calls)));
    if text == "" then "No answer generated." else text
  }

  predicate PlannerAnswered(s: State) {
    !s.planned.isToolCall && s.answer == s.planned.answer != ""
  }

  ghost predicate Sourced(c: Config, s: State) {
    && (s.node !in {Respond, Finished} ==> s.finish.None?)
    && (s.finish == Some(PolicyBlocked) ==> IsRefusal(REFUSALS, s.answer))
    && (s.node == Respond && s.finish.Some? && s.finish != Some(PolicyBlocked) ==> PlannerAnswered(s))
    && (s.node == Finished && s.crash == NoCrash && s.finish != Some(PolicyBlocked) ==>
          PlannerAnswered(s) || s.calls == [] || (Evidence(s.calls) != [] && s.answer == Composed(c, s.calls)))
    && (s.finish.None? ==> s.answer == "")
    && (s.node != Finished ==> s.crash == NoCrash)
    && (s.crash == EvidenceRequired ==> s.calls != [] && Evidence(s.calls) == [] && s.finish.None?)
    && (Resolve(c.query).Some? ==> s.planned.answer == "")
  }

  lemma PlanSourced(c: Config, s: State, o: Reply)
    requires Sourced(c, s) && s.node == Plan
    ensures Sourced(c, PlanAction(c, s, o))
  {
  }

  lemma DispatchSourced(c: Config, s: State, gate: Gate, o: Reply)
    requires Sourced(c, s) && s.node == ToolCall
    ensures Sourced(c, Dispatch(REFUSALS, s, gate, o))
  {
  }

  lemma StepSourced(c: Config, s: State, o: Reply)
    requires Sourced(c, s)
    ensures Sourced(c, Step(c, s, o))
  {
    match s.node
    case Plan => PlanSourced(c, s, o);
    case ToolCall => DispatchSourced(c, s, CheckCall(c, s), o);
    case _ =>
  }

  /**
    A finished run says what the planner answered, or one of the three fixed refusals, or the
    composition of the evidence of all its recorded calls; only without calls does the brain's own
    text get through.
   */
  lemma {:induction false} RunIsSourced(c: Config, s: State, replies: seq<Reply>)
    requires Sourced(c, s)
    ensures Sourced(c, Run(c, s, replies))
    decreases |replies|
  {
    if replies != [] {
      StepSourced(c, s, replies[0]);
      RunIsSourced(c, Step(c, s, replies[0]), replies[1..]);
    }
  }

  // ---------------------------------------------------------------------------
  // Every run ends, with an answer
  // ---------------------------------------------------------------------------

  /**
    For every brain and invoker: within the bound the run is over; it never exceeds its budget or a
    tool's cap, not even on the identity-mismatch exit; and it ends with an answer and a reason,
    unless the composer raised.  It raises exactly when there are recorded calls, none of them has
    evidence, and the run was neither blocked nor answered by the planner itself.
   */
  lemma AgentRunEnds(c: Config, n: int, cap: int, previous: WorkingSet, replies: seq<Reply>)
    requires |replies| >= Bound(n)
    ensures var t := Run(c, Initial(n, cap, previous), replies);
            && t.node == Finished
            && |t.invoked| <= Max(n, 0)
            && t.budget.total + t.budget.remaining == n
            && t.budget.total == |t.calls| == Sum(t.budget.perTool)
            && (forall tool | tool in t.budget.perTool :: t.budget.perTool[tool] <= cap)
            && t.crash != BudgetExhausted
            && (t.crash == NoCrash ==> t.finish.Some? && t.answer != "")
            && (t.crash == EvidenceRequired <==>
                  t.calls != [] && Evidence(t.calls) == [] && t.finish != Some(PolicyBlocked) && !PlannerAnswered(t))
  {
    RunIsSourced(c, Initial(n, cap, previous), replies);
    InitialInv(n, cap, previous);
    RunKeepsInv(c, Initial(n, cap, previous), replies, n, cap);
  }

  /** Nothing collected so far lacks evidence. */
  ghost predicate Evidenced(s: State) {
    && s.crash == NoCrash
    && (s.calls != [] ==> Evidence(s.calls) != [])
    && (s.pending.Some? ==> s.pending.value.evidence != [])
  }

  /** What every node but observe leaves alone. */
  ghost predicate Frame(s: State, t: State, o: Reply) {
    && t.calls == s.calls && t.budget == s.budget
    && (s.node != Classify ==> t.workingSet == s.workingSet)
    && (t.pending == s.pending || t.pending == Some(o.record))
    && (s.node != Respond ==> t.crash == s.crash)
  }

  lemma PlanFrame(c: Config, s: State, o: Reply)
    requires s.node == Plan
    ensures Frame(s, PlanAction(c, s, o), o)
  {
  }

  lemma DispatchFrame(texts: Refusals, s: State, gate: Gate, o: Reply)
    requires s.node == ToolCall
    ensures Frame(s, Dispatch(texts, s, gate, o), o)
  {
  }

  lemma OtherNodesFrame(c: Config, s: State, o: Reply)
    requires s.node != Observe
    ensures Frame(s, Step(c, s, o), o)
  {
    match s.node
    case Plan => PlanFrame(c, s, o);
    case ToolCall => DispatchFrame(REFUSALS, s, CheckCall(c, s), o);
    case _ =>
  }

  lemma ObserveKeepsEvidence(s: State)
    requires Evidenced(s) && s.pending.Some? && CanCall(s.budget, s.pending.value.toolName)
    ensures Evidenced(ObserveResult(s))
  {
    var calls := s.calls + [s.pending.value];
    assert calls[..|calls| - 1] == s.calls;
    assert Evidence(calls) == Evidence(s.calls) + s.pending.value.evidence;
  }

  lemma StepKeepsEvidence(c: Config, s: State, o: Reply, n: int, cap: int)
    requires Inv(s, n, cap) && Evidenced(s) && o.record.evidence != []
    ensures Evidenced(Step(c, s, o))
  {
    if s.node == Observe {
      ObserveKeepsEvidence(s);
    } else {
      OtherNodesFrame(c, s, o);
    }
  }

  /** An invoker whose records carry evidence, as the tool gateway's do, never makes a run raise. */
  lemma {:induction false} EvidenceNeverRaises(c: Config, s: State, replies: seq<Reply>, n: int, cap: int)
    requires Inv(s, n, cap) && Evidenced(s)
    requires forall o | o in replies :: o.record.evidence != []
    ensures Run(c, s, replies).crash == NoCrash
    decreases |replies|
  {
    if replies != [] {
      var o := replies[0];
      assert o in replies;
      StepKeepsEvidence(c, s, o, n, cap);
      if s.node != Finished {
        StepAdvances(c, s, o, n, cap);
      }
      EvidenceNeverRaises(c, Step(c, s, o), replies[1..], n, cap);
    }
  }

  /** A single successful call whose record has no evidence makes the run raise in its respond node. */
  lemma EmptyEvidenceRaises(c: Config, o: Reply)
    requires Resolve(c.query).None? && c.query.site.None?
    requires c.tools == [Tool("t", None, false)]
    requires o.plan == PlannedAction(true, "t", [], "") && o.record == ToolRecord("t", [], [])
    ensures Run(c, Initial(1, 1, WorkingSet(None, [])), [o, o, o, o, o, o]).crash == EvidenceRequired
  {
    var s0 := Initial(1, 1, WorkingSet(None, []));
    var s1 := Step(c, s0, o);
    var s2 := Step(c, s1, o);
    var s3 := Step(c, s2, o);
    EmptyEvidenceHead(c, o);
    EmptyEvidenceTail(c, s3, o);
    Unroll(c, s2, o, [o, o, o]);
    Unroll(c, s1, o, [o, o, o, o]);
    Unroll(c, s0, o, [o, o, o, o, o]);
  }

  lemma EmptyEvidenceHead(c: Config, o: Reply)
    requires Resolve(c.query).None? && c.query.site.None?
    requires c.tools == [Tool("t", None, false)]
    requires o.plan == PlannedAction(true, "t", [], "") && o.record == ToolRecord("t", [], [])
    ensures var s := Step(c, Step(c, Step(c, Initial(1, 1, WorkingSet(None, [])), o), o), o);
            && s.node == Observe && s.pending == Some(o.record) && s.calls == [] && s.finish.None?
            && s.budget == Budget(1, 1, 0, map[])
  {
    var s1 := Step(c, Initial(1, 1, WorkingSet(None, [])), o);
    assert c.tools[0].name == "t" && CanCall(s1.budget, "t");
    var s2 := Step(c, s1, o);
    assert s2.node == ToolCall && s2.planned == o.plan && s2.budget == s1.budget;
    assert CheckCall(c, s2) == Pass;
  }

  lemma EmptyEvidenceTail(c: Config, s: State, o: Reply)
    requires s.node == Observe && s.pending == Some(ToolRecord("t", [], [])) && s.calls == [] && s.finish.None?
    requires s.budget.remaining == 1 && CanCall(s.budget, "t")
    ensures Run(c, s, [o, o, o]).crash == EvidenceRequired
  {
    var s4 := Step(c, s, o);
    assert s4.calls == [s.pending.value] && s4.node == Decide;
    var s5 := Step(c, s4, o);
    assert Evidence(s5.calls) == [];
    var s6 := Step(c, s5, o);
    Unroll(c, s5, o, []);
    Unroll(c, s4, o, [o]);
    Unroll(c, s, o, [o, o]);
  }

  lemma Unroll(c: Config, s: State, o: Reply, rest: seq<Reply>)
    ensures Run(c, s, [o] + rest) == Run(c, Step(c, s, o), rest)
  {
    assert ([o] + rest)[1..] == rest;
  }

  // ---------------------------------------------------------------------------
  // What a run answers
  // ---------------------------------------------------------------------------

  lemma {:induction false} FinishedStays(c: Config, s: State, replies: seq<Reply>)
    requires s.node == Finished
    ensures Run(c, s, replies) == s
    decreases |replies|
  {
    if replies != [] {
      FinishedStays(c, s, replies[1..]);
    }
  }

  /** Reply `m` is the one the respond node of the run gets. */
  ghost predicate RespondsWith(c: Config, s: State, replies: seq<Reply>, m: nat) {
    m < |replies| && Run(c, s, replies[..m]).node == Respond
  }

  lemma NextStep(c: Config, s: State, replies: seq<Reply>, m: nat)
    requires m < |replies|
    ensures Run(c, s, replies[..m + 1]) == Step(c, Run(c, s, replies[..m]), replies[m])
  {
    assert replies[..m + 1] == replies[..m] + [replies[m]];
    RunSnoc(c, s, replies[..m], replies[m]);
  }

  /** What the respond node does is how the run ends. */
  lemma RunEndsWithResponse(c: Config, s: State, replies: seq<Reply>, m: nat)
    requires RespondsWith(c, s, replies, m)
    ensures Run(c, s, replies) == RespondNode(c, Run(c, s, replies[..m]), replies[m])
  {
    var t := Run(c, s, replies[..m]);
    RunSplit(c, s, replies, m);
    assert replies[m..] == [replies[m]] + replies[m + 1..];
    Unroll(c, t, replies[m], replies[m + 1..]);
    FinishedStays(c, Step(c, t, replies[m]), replies[m + 1..]);
  }

  lemma {:induction false} RespondsLater(c: Config, s: State, o: Reply, rest: seq<Reply>, k: nat)
    requires RespondsWith(c, Step(c, s, o), rest, k)
    ensures RespondsWith(c, s, [o] + rest, k + 1)
  {
    assert ([o] + rest)[..k + 1] == [o] + rest[..k];
    Unroll(c, s, o, rest[..k]);
  }

  /** Only a respond step ends a run. */
  lemma NotOverYet(c: Config, s: State, o: Reply, n: int, cap: int)
    requires Inv(s, n, cap) && s.node != Finished && s.node != Respond
    ensures Inv(Step(c, s, o), n, cap) && Step(c, s, o).node != Finished
  {
    StepAdvances(c, s, o, n, cap);
  }

  /** A run that is over had a respond step. */
  lemma {:induction false} FinishedRunsResponded(c: Config, s: State, replies: seq<Reply>, n: int, cap: int) returns (m: nat)
    requires Inv(s, n, cap) && s.node != Finished && Run(c, s, replies).node == Finished
    ensures RespondsWith(c, s, replies, m)
    decreases |replies|
  {
    if s.node == Respond {
      m := 0;
      assert replies[..0] == [];
    } else {
      NotOverYet(c, s, replies[0], n, cap);
      var k := FinishedRunsResponded(c, Step(c, s, replies[0]), replies[1..], n, cap);
      RespondsLater(c, s, replies[0], replies[1..], k);
      assert replies == [replies[0]] + replies[1..];
      m := k + 1;
    }
  }

  /** The text as the respond node hands it out. */
  function Polished(c: Config, text: string): string {
    if c.strip(text) == "" then "No answer generated." else c.strip(text)
  }

  /** Neither a node nor the planner has answered yet. */
  ghost predicate Unanswered(s: State) {
    s.finish.None? && s.answer == "" && (s.planned.isToolCall || s.planned.answer == "")
  }

  /** Before its respond step a run has no answer, or a refusal, or the planner's. */
  ghost predicate Speaking(s: State) {
    && (s.node == Respond ==>
          || s.finish == Some(PolicyBlocked) || Unanswered(s)
          || (s.finish == Some(Completed) && !s.planned.isToolCall && s.answer == s.planned.answer != ""))
    && (s.node !in {Respond, Finished} ==> Unanswered(s))
  }

  lemma StepSpeaks(c: Config, s: State, o: Reply)
    requires Speaking(s) && s.node != Finished
    ensures Step(c, s, o).node != Finished ==> Speaking(Step(c, s, o))
  {
    match s.node
    case Plan => PlanSpeaks(c, s, o);
    case ToolCall => DispatchSpeaks(REFUSALS, s, CheckCall(c, s), o);
    case _ =>
  }

  lemma PlanSpeaks(c: Config, s: State, o: Reply)
    requires Speaking(s) && s.node == Plan
    ensures Speaking(PlanAction(c, s, o))
  {
  }

  lemma DispatchSpeaks(texts: Refusals, s: State, gate: Gate, o: Reply)
    requires Speaking(s) && s.node == ToolCall
    ensures Speaking(Dispatch(texts, s, gate, o))
  {
  }

  lemma {:induction false} RunSpeaks(c: Config, s: State, replies: seq<Reply>)
    requires Speaking(s) && s.node != Finished && Run(c, s, replies).node != Finished
    ensures Speaking(Run(c, s, replies))
    decreases |replies|
  {
    if replies != [] {
      if Step(c, s, replies[0]).node == Finished {
        FinishedStays(c, Step(c, s, replies[0]), replies[1..]);
      }
      StepSpeaks(c, s, replies[0]);
      RunSpeaks(c, Step(c, s, replies[0]), replies[1..]);
    }
  }

  /**
    What every run answers.  It has one respond step, reply `m`.  Unless it was blocked: if the
    planner's last action was an answer, that is the run's; otherwise, with recorded calls, it is
    the composition of all their evidence, and without any, the brain's reply in that very step.
   */
  lemma RunAnswers(c: Config, n: int, cap: int, previous: WorkingSet, replies: seq<Reply>) returns (m: nat)
    requires |replies| >= Bound(n)
    ensures RespondsWith(c, Initial(n, cap, previous), replies, m)
    ensures var t := Run(c, Initial(n, cap, previous), replies);
            if t.finish == Some(PolicyBlocked) then IsRefusal(REFUSALS, t.answer) && t.crash == NoCrash
            else if !t.planned.isToolCall && t.planned.answer != "" then
              t.answer == t.planned.answer && t.finish == Some(Completed) && t.crash == NoCrash
            else if t.calls == [] then
              t.answer == Polished(c, replies[m].answer) && t.finish == Some(Completed) && t.crash == NoCrash
            else if Evidence(t.calls) == [] then t.crash == EvidenceRequired && t.finish.None?
            else t.answer == Polished(c, c.compose(Evidence(t.calls))) && t.finish == Some(Completed) && t.crash == NoCrash
  {
    var s := Initial(n, cap, previous);
    AgentRunEnds(c, n, cap, previous, replies);
    InitialInv(n, cap, previous);
    m := FinishedRunsResponded(c, s, replies, n, cap);
    RunEndsWithResponse(c, s, replies, m);
    RunSpeaks(c, s, replies[..m]);
    RunIsSourced(c, s, replies);
    RunIsSourced(c, s, replies[..m]);
  }

  /**
    An answer the planner gives is the run's: when the text resolves to nothing and some tool could
    still be called, the plan step hands out what the brain planned, word for word.
   */
  lemma {:induction false} PlannedAnswerIsTheRuns(c: Config, n: int, cap: int, previous: WorkingSet, replies: seq<Reply>, m: nat, i: nat)
    requires m + 2 <= |replies| && i < |c.tools|
    requires Resolve(c.query).None? && !replies[m].plan.isToolCall && replies[m].plan.answer != ""
    requires var s := Run(c, Initial(n, cap, previous), replies[..m]);
             s.node == Plan && CanCall(s.budget, c.tools[i].name)
    ensures var t := Run(c, Initial(n, cap, previous), replies);
            && t.node == Finished && t.crash == NoCrash
            && t.answer == replies[m].plan.answer && t.finish == Some(Completed)
            && t.calls == Run(c, Initial(n, cap, previous), replies[..m]).calls
  {
    var s0 := Initial(n, cap, previous);
    InitialInv(n, cap, previous);
    RunKeepsInv(c, s0, replies[..m], n, cap);
    NextStep(c, s0, replies, m);
    RunEndsWithResponse(c, s0, replies, m + 1);
  }

  /** A blocked call names its cause: not on offer or over budget, not what the text asks for, or another tool's result. */
  lemma {:induction false} RefusalsNameTheCause(c: Config, s0: State, replies: seq<Reply>, m: nat)
    requires m + 2 <= |replies| && Run(c, s0, replies[..m]).node == ToolCall
    ensures var s, t := Run(c, s0, replies[..m]), Run(c, s0, replies);
            var tool := s.planned.toolName;
            if !Available(c.tools, tool) || !CanCall(s.budget, tool) then
              t.finish == Some(PolicyBlocked) && t.answer == "Tool call blocked by policy." && t.invoked == s.invoked
            else if Validate(c.canon, c.query, Find(c.tools, tool), s.planned.payload).Rejected? then
              && t.finish == Some(PolicyBlocked) && t.invoked == s.invoked
              && t.answer == "Tool call blocked because it did not match the user's request."
            else if replies[m].record.toolName != tool then
              && t.finish == Some(PolicyBlocked) && t.invoked == s.invoked + [tool]
              && t.answer == "Tool call result blocked because its identity was invalid."
            else
              var u := Run(c, s0, replies[..m + 1]);
              s.invoked + [tool] <= t.invoked && u.node == Observe && u.pending == Some(replies[m].record) && u.calls == s.calls
  {
    NextStep(c, s0, replies, m);
    var next := Step(c, Run(c, s0, replies[..m]), replies[m]);
    RunSplit(c, s0, replies, m + 1);
    InvokedGrows(c, next, replies[m + 1..]);
    if next.node == Respond {
      RunEndsWithResponse(c, s0, replies, m + 1);
    }
  }

  /** What the observe node is handed is recorded, and stays so. */
  lemma {:induction false} ObservedIsRecorded(c: Config, s0: State, replies: seq<Reply>, m: nat, record: ToolRecord, n: int, cap: int)
    requires Inv(s0, n, cap) && m < |replies|
    requires var s := Run(c, s0, replies[..m]); s.node == Observe && s.pending == Some(record)
    ensures Run(c, s0, replies[..m]).calls + [record] <= Run(c, s0, replies).calls
  {
    RunKeepsInv(c, s0, replies[..m], n, cap);
    NextStep(c, s0, replies, m);
    var next := Run(c, s0, replies[..m + 1]);
    assert next.calls == Run(c, s0, replies[..m]).calls + [record];
    CallsGrow(c, next, replies[m + 1..]);
    RunSplit(c, s0, replies, m + 1);
  }

  /**
    What becomes of a call the brain plans: it is blocked for a named cause, or the invoker is asked
    for that very tool and its record is kept.
   */
  lemma PlannedCallIsChecked(c: Config, n: int, cap: int, previous: WorkingSet, replies: seq<Reply>, m: nat, i: nat)
    requires m + 3 <= |replies| && i < |c.tools| && Resolve(c.query).None? && replies[m].plan.isToolCall
    requires var s := Run(c, Initial(n, cap, previous), replies[..m]);
             s.node == Plan && CanCall(s.budget, c.tools[i].name)
    ensures var s, t := Run(c, Initial(n, cap, previous), replies[..m]), Run(c, Initial(n, cap, previous), replies);
            var tool, payload := replies[m].plan.toolName, replies[m].plan.payload;
            if !Available(c.tools, tool) || !CanCall(s.budget, tool) then
              t.finish == Some(PolicyBlocked) && t.answer == "Tool call blocked by policy." && t.invoked == s.invoked
            else if Validate(c.canon, c.query, Find(c.tools, tool), payload).Rejected? then
              && t.finish == Some(PolicyBlocked) && t.invoked == s.invoked
              && t.answer == "Tool call blocked because it did not match the user's request."
            else if replies[m + 1].record.toolName != tool then
              && t.finish == Some(PolicyBlocked) && t.invoked == s.invoked + [tool]
              && t.answer == "Tool call result blocked because its identity was invalid."
            else s.invoked + [tool] <= t.invoked && s.calls + [replies[m + 1].record] <= t.calls
  {
    var s0 := Initial(n, cap, previous);
    var s := Run(c, s0, replies[..m]);
    NextStep(c, s0, replies, m);
    assert SomeCallable(c, s.budget);
    RefusalsNameTheCause(c, s0, replies, m + 1);
    var u := Run(c, s0, replies[..m + 2]);
    if u.node == Observe && u.pending == Some(replies[m + 1].record) && u.calls == s.calls {
      InitialInv(n, cap, previous);
      ObservedIsRecorded(c, s0, replies, m + 2, replies[m + 1].record, n, cap);
    }
  }

  /** In this state the plan step has nothing it could call: no tool is left, or the resolved one is none, not on offer or used up. */
  ghost predicate NothingToCall(c: Config, s: State) {
    if Resolve(c.query).None? then forall i | 0 <= i < |c.tools| :: !CanCall(s.budget, c.tools[i].name)
    else
      var tool := Resolve(c.query).value.toolName;
      tool.None? || !Available(c.tools, tool.value) || !CanCall(s.budget, tool.value)
  }

  /** With nothing to call the brain's plan does not count: the run answers from its evidence, or in the brain's own words. */
  lemma {:induction false} NothingToCallAnswers(c: Config, n: int, cap: int, previous: WorkingSet, replies: seq<Reply>, m: nat)
    requires m + 2 <= |replies|
    requires var s := Run(c, Initial(n, cap, previous), replies[..m]); s.node == Plan && NothingToCall(c, s)
    ensures var s, t := Run(c, Initial(n, cap, previous), replies[..m]), Run(c, Initial(n, cap, previous), replies);
            && t.node == Finished && t.invoked == s.invoked && t.calls == s.calls
            && if s.calls == [] then
                 t.answer == Polished(c, replies[m + 1].answer) && t.finish == Some(Completed) && t.crash == NoCrash
               else if Evidence(s.calls) == [] then t.crash == EvidenceRequired
               else t.answer == Polished(c, c.compose(Evidence(s.calls))) && t.finish == Some(Completed) && t.crash == NoCrash
  {
    var s0 := Initial(n, cap, previous);
    InitialInv(n, cap, previous);
    RunKeepsInv(c, s0, replies[..m], n, cap);
    RunIsSourced(c, s0, replies[..m]);
    NextStep(c, s0, replies, m);
    RunEndsWithResponse(c, s0, replies, m + 1);
  }

  lemma {:induction false} InvokedGrows(c: Config, s: State, replies: seq<Reply>)
    ensures s.invoked <= Run(c, s, replies).invoked
    decreases |replies|
  {
    if replies != [] {
      assert s.invoked <= Step(c, s, replies[0]).invoked;
      InvokedGrows(c, Step(c, s, replies[0]), replies[1..]);
    }
  }

  // ---------------------------------------------------------------------------
  // What a run may call
  // ---------------------------------------------------------------------------

  /** A tool may be called: it is on offer, and if it writes, the text asked for that write. */
  ghost predicate MayCall(c: Config, tool: string) {
    && Available(c.tools, tool)
    && (Find(c.tools, tool).isMutating ==>
          && tool == "write_work_order_status"
          && Resolve(c.query).None? && c.query.workOrderMutation && c.query.targetStatus.Some?
          && (c.query.workOrderCode.Some? || c.query.workOrderId.Some?))
  }

  ghost predicate InPolicy(c: Config, s: State) {
    && (forall i | 0 <= i < |s.invoked| :: MayCall(c, s.invoked[i]))
    && (s.finish.None? || s.finish == Some(Completed) || s.finish == Some(PolicyBlocked))
  }

  lemma PassedMayBeCalled(c: Config, s: State)
    requires CheckCall(c, s).Pass?
    ensures MayCall(c, s.planned.toolName)
  {
    var tool := Find(c.tools, s.planned.toolName);
    FindNames(c.tools, s.planned.toolName);
    if tool.isMutating {
      MutationAcceptedExactly(c.canon, c.query, tool, s.planned.payload);
    }
  }

  lemma PlanInPolicy(c: Config, s: State, o: Reply)
    requires InPolicy(c, s) && s.node == Plan
    ensures InPolicy(c, PlanAction(c, s, o))
  {
  }

  lemma DispatchInPolicy(c: Config, texts: Refusals, s: State, gate: Gate, o: Reply)
    requires InPolicy(c, s) && s.node == ToolCall && (gate.Pass? ==> MayCall(c, s.planned.toolName))
    ensures InPolicy(c, Dispatch(texts, s, gate, o))
  {
    if gate.Pass? {
      var called := s.(invoked := s.invoked + [s.planned.toolName]);
      assert InPolicy(c, called);
      BlockedInPolicy(c, called);
    } else {
      BlockedInPolicy(c, s);
    }
  }

  lemma BlockedInPolicy(c: Config, s: State)
    requires InPolicy(c, s)
    ensures forall text: string :: InPolicy(c, Blocked(s, text))
  {
  }

  lemma StepInPolicy(c: Config, s: State, o: Reply)
    requires InPolicy(c, s)
    ensures InPolicy(c, Step(c, s, o))
  {
    match s.node
    case Plan => PlanInPolicy(c, s, o);
    case ToolCall =>
      if CheckCall(c, s).Pass? {
        PassedMayBeCalled(c, s);
      }
      DispatchInPolicy(c, REFUSALS, s, CheckCall(c, s), o);
    case _ =>
  }

  /**
    No brain can make a run call a tool that is not on offer, or write without the text asking for
    it; and a run's reason is only ever completed or policy-blocked.
   */
  lemma {:induction false} RunInPolicy(c: Config, s: State, replies: seq<Reply>)
    requires InPolicy(c, s)
    ensures InPolicy(c, Run(c, s, replies))
    decreases |replies|
  {
    if replies != [] {
      StepInPolicy(c, s, replies[0]);
      RunInPolicy(c, Step(c, s, replies[0]), replies[1..]);
    }
  }

  /** The policy's tools are exactly those it names, and a name stands for the same tool as before. */
  lemma {:induction false} AllowedToolsAreNamed(tools: seq<Tool>, names: set<string>)
    ensures forall tool :: tool in AllowedTools(tools, names) <==> tool in tools && tool.name in names
    ensures forall name | name in names ::
              && (Available(AllowedTools(tools, names), name) <==> Available(tools, name))
              && (Available(tools, name) ==> Find(AllowedTools(tools, names), name) == Find(tools, name))
  {
    if tools != [] {
      var rest := AllowedTools(tools[1..], names);
      AllowedToolsAreNamed(tools[1..], names);
      assert tools == [tools[0]] + tools[1..];
      assert AllowedTools(tools, names) == if tools[0].name in names then [tools[0]] + rest else rest;
      forall name | name in names
        ensures Available(AllowedTools(tools, names), name) <==> Available(tools, name)
        ensures Available(tools, name) ==> Find(AllowedTools(tools, names), name) == Find(tools, name)
      {
        AvailableCons(tools[0], tools[1..], name);
        AvailableCons(tools[0], rest, name);
      }
    }
  }

  lemma AvailableCons(tool: Tool, tools: seq<Tool>, name: string)
    ensures Available([tool] + tools, name) <==> tool.name == name || Available(tools, name)
    ensures tool.name != name && Available(tools, name) ==> Find([tool] + tools, name) == Find(tools, name)
  {
    var all := [tool] + tools;
    if Available(tools, name) {
      var i :| 0 <= i < |tools| && tools[i].name == name;
      assert all[i + 1].name == name;
    }
    if tool.name == name {
      assert all[0].name == name;
    }
    assert all[1..] == tools;
  }

  /**
    The orchestrator hands the policy on in full: a query resolved to a read tool that is registered
    and named by the policy calls it as often as the smallest of the three limits allows, and not at
    all exactly when that is nothing or tools are disallowed.
   */
  lemma OrchestratedRead(c: Config, tools: seq<Tool>, names: set<string>, cap: int, maxToolCalls: int, policyMax: int,
                         allowed: bool, previous: WorkingSet, replies: seq<Reply>, tool: string)
    requires c.tools == AllowedTools(tools, names)
    requires Resolve(c.query).Some? && Resolve(c.query).value.toolName == Some(tool)
    requires Available(tools, tool) && !Find(tools, tool).isMutating && tool in names
    requires |replies| >= Bound(EffectiveBudget(maxToolCalls, policyMax, allowed))
    requires forall o | o in replies :: o.record.toolName == tool
    ensures var t := Run(c, Initial(EffectiveBudget(maxToolCalls, policyMax, allowed), cap, previous), replies);
            && (forall i | 0 <= i < |t.invoked| :: t.invoked[i] == tool)
            && |t.invoked| == if allowed then Max(0, Min(maxToolCalls, Min(policyMax, cap))) else 0
  {
    AllowedToolsAreNamed(tools, names);
    ResolvedReadCallsToTheLimit(c, EffectiveBudget(maxToolCalls, policyMax, allowed), cap, previous, replies, tool);
  }

  lemma CallableIsNamed(c: Config, tools: seq<Tool>, names: set<string>, tool: string)
    requires c.tools == AllowedTools(tools, names) && MayCall(c, tool)
    ensures tool in names
  {
    AllowedToolsAreNamed(tools, names);
    FindNames(c.tools, tool);
  }

  /** The orchestrator's result for any brain, invoker and policy, when no error is raised. */
  lemma OrchestratedRun(c: Config, tools: seq<Tool>, names: set<string>, cap: int, maxToolCalls: int, policyMax: int,
                        allowed: bool, previous: WorkingSet, replies: seq<Reply>)
    requires c.tools == AllowedTools(tools, names)
    requires |replies| >= Bound(EffectiveBudget(maxToolCalls, policyMax, allowed))
    ensures var t := Run(c, Initial(EffectiveBudget(maxToolCalls, policyMax, allowed), cap, previous), replies);
            && t.node == Finished
            && (!allowed ==> t.invoked == [])
            && |t.invoked| <= Max(0, Min(maxToolCalls, policyMax))
            && (forall i | 0 <= i < |t.invoked| :: t.invoked[i] in names)
            && (t.crash == NoCrash ==>
                  && ResultOf(t).answer == t.answer != "" && ResultOf(t).calls == t.calls
                  && Some(ResultOf(t).finish) == t.finish && ResultOf(t).finish in {Completed, PolicyBlocked})
  {
    var n := EffectiveBudget(maxToolCalls, policyMax, allowed);
    AgentRunEnds(c, n, cap, previous, replies);
    RunInPolicy(c, Initial(n, cap, previous), replies);
    var t := Run(c, Initial(n, cap, previous), replies);
    forall i | 0 <= i < |t.invoked| ensures t.invoked[i] in names {
      CallableIsNamed(c, tools, names, t.invoked[i]);
    }
  }

  // ---------------------------------------------------------------------------
  // Deterministic intents
  // ---------------------------------------------------------------------------

  lemma {:induction false} FindNames(tools: seq<Tool>, name: string)
    requires Available(tools, name)
    ensures Find(tools, name).name == name && Find(tools, name) in tools
  {
    if tools[0].name != name {
      FindNames(tools[1..], name);
    }
  }

  /** The query resolves to a read tool that is on offer. */
  ghost predicate ReadsWith(c: Config, tool: string) {
    && Resolve(c.query).Some? && Resolve(c.query).value.toolName == Some(tool)
    && Available(c.tools, tool) && !Find(c.tools, tool).isMutating
  }

  ghost predicate OnlyCalls(s: State, tool: string) {
    && (forall i | 0 <= i < |s.invoked| :: s.invoked[i] == tool)
    && (forall i | 0 <= i < |s.calls| :: s.calls[i].toolName == tool)
    && (s.pending.Some? ==> s.pending.value.toolName == tool)
    && (s.node != Observe ==> |s.invoked| == |s.calls|)
    && s.finish != Some(PolicyBlocked)
  }

  ghost predicate ReadInv(c: Config, s: State, tool: string) {
    && OnlyCalls(s, tool)
    && (s.node == ToolCall ==>
          Resolve(c.query).Some? && s.planned == PlannedAction(true, tool, Resolve(c.query).value.payload, "") && CanCall(s.budget, tool))
    && (s.node in {Respond, Finished} ==> !CanCall(s.budget, tool))
  }

  lemma {:induction false} AllNamed(calls: seq<ToolRecord>, tool: string)
    requires forall i | 0 <= i < |calls| :: calls[i].toolName == tool
    ensures multiset(Names(calls))[tool] == |calls|
  {
    if calls == [] {
      assert Names(calls) == [];
    } else {
      var front := calls[..|calls| - 1];
      AllNamed(front, tool);
      assert Names(calls) == Names(front) + [tool];
    }
  }

  lemma {:induction false} ReadStep(c: Config, s: State, o: Reply, n: int, cap: int, tool: string)
    requires Inv(s, n, cap) && ReadsWith(c, tool) && ReadInv(c, s, tool) && o.record.toolName == tool
    ensures ReadInv(c, Step(c, s, o), tool)
  {
    match s.node
    case Plan =>
    case ToolCall =>
      FindNames(c.tools, tool);
      OwnPlanAccepted(c.canon, c.query, Find(c.tools, tool));
    case _ =>
  }

  lemma {:induction false} ReadRun(c: Config, s: State, replies: seq<Reply>, n: int, cap: int, tool: string)
    requires Inv(s, n, cap) && ReadsWith(c, tool) && ReadInv(c, s, tool)
    requires forall o | o in replies :: o.record.toolName == tool
    ensures ReadInv(c, Run(c, s, replies), tool)
    decreases |replies|
  {
    if replies != [] {
      var o := replies[0];
      assert o in replies;
      ReadStep(c, s, o, n, cap, tool);
      if s.node != Finished {
        StepAdvances(c, s, o, n, cap);
      }
      ReadRun(c, Step(c, s, o), replies[1..], n, cap, tool);
    }
  }

  /** The records the invoker returns in the first k rounds of plan, call, observe and decide. */
  function RoundRecords(replies: seq<Reply>, k: nat): (calls: seq<ToolRecord>)
    requires |replies| >= 4 * k
    ensures |calls| == k
  {
    if k == 0 then [] else RoundRecords(replies, k - 1) + [replies[4 * k - 2].record]
  }

  /** A state about to plan round k of a resolved read. */
  ghost predicate BeforeRound(c: Config, s: State, tool: string, calls: seq<ToolRecord>, n: int, cap: int) {
    && Inv(s, n, cap) && ReadInv(c, s, tool)
    && s.node == Plan && s.calls == calls
  }

  /** A state of a resolved read with the record of the round waiting to be observed. */
  ghost predicate MidRound(c: Config, s: State, tool: string, calls: seq<ToolRecord>, record: ToolRecord, n: int, cap: int) {
    && Inv(s, n, cap) && ReadInv(c, s, tool)
    && s.node == Observe && s.calls == calls && s.pending == Some(record)
  }

  /** Plan and call: the invoker is asked once. */
  lemma RoundAsks(c: Config, s: State, plan: Reply, call: Reply, n: int, cap: int, tool: string, calls: seq<ToolRecord>)
    requires ReadsWith(c, tool) && BeforeRound(c, s, tool, calls, n, cap) && CanCall(s.budget, tool)
    requires plan.record.toolName == tool && call.record.toolName == tool
    ensures var t := Step(c, Step(c, s, plan), call);
            MidRound(c, t, tool, calls, call.record, n, cap) && t.budget == s.budget
  {
    StepAdvances(c, s, plan, n, cap);
    ReadStep(c, s, plan, n, cap, tool);
    var s1 := Step(c, s, plan);
    StepAdvances(c, s1, call, n, cap);
    ReadStep(c, s1, call, n, cap, tool);
    FindNames(c.tools, tool);
    OwnPlanAccepted(c.canon, c.query, Find(c.tools, tool));
  }

  /** Observe and decide: its record is kept. */
  lemma RoundKeeps(c: Config, s: State, o: Reply, d: Reply, n: int, cap: int, tool: string,
                   calls: seq<ToolRecord>, record: ToolRecord)
    requires ReadsWith(c, tool) && MidRound(c, s, tool, calls, record, n, cap)
    requires o.record.toolName == tool && d.record.toolName == tool
    ensures var t := Step(c, Step(c, s, o), d);
            && t.calls == calls + [record]
            && (s.budget.remaining > 1 ==> BeforeRound(c, t, tool, calls + [record], n, cap))
  {
    StepAdvances(c, s, o, n, cap);
    ReadStep(c, s, o, n, cap, tool);
    var s1 := Step(c, s, o);
    StepAdvances(c, s1, d, n, cap);
    ReadStep(c, s1, d, n, cap, tool);
  }

  /** One round. */
  lemma Round(c: Config, s: State, round: seq<Reply>, n: int, cap: int, tool: string, calls: seq<ToolRecord>)
    requires ReadsWith(c, tool) && BeforeRound(c, s, tool, calls, n, cap) && CanCall(s.budget, tool)
    requires |round| == 4 && forall o | o in round :: o.record.toolName == tool
    ensures var t := Run(c, s, round);
            && t.calls == calls + [round[1].record]
            && (s.budget.remaining > 1 ==> BeforeRound(c, t, tool, calls + [round[1].record], n, cap))
  {
    assert round[0] in round && round[1] in round && round[2] in round && round[3] in round;
    RoundAsks(c, s, round[0], round[1], n, cap, tool, calls);
    var t := Step(c, Step(c, s, round[0]), round[1]);
    RoundKeeps(c, t, round[2], round[3], n, cap, tool, calls, round[1].record);
    RunFour(c, s, round);
  }

  lemma RunFour(c: Config, s: State, replies: seq<Reply>)
    requires |replies| == 4
    ensures Run(c, s, replies) == Step(c, Step(c, Step(c, Step(c, s, replies[0]), replies[1]), replies[2]), replies[3])
  {
    RunTwo(c, s, replies[..2]);
    RunTwo(c, Run(c, s, replies[..2]), replies[2..]);
    RunSplit(c, s, replies, 2);
  }

  lemma RunTwo(c: Config, s: State, replies: seq<Reply>)
    requires |replies| == 2
    ensures Run(c, s, replies) == Step(c, Step(c, s, replies[0]), replies[1])
  {
    assert replies == [replies[0]] + [replies[1]] && [replies[1]] == [replies[1]] + [];
    Unroll(c, s, replies[0], [replies[1]]);
    Unroll(c, Step(c, s, replies[0]), replies[1], []);
  }

  lemma {:induction false} RunSplit(c: Config, s: State, replies: seq<Reply>, n: nat)
    requires n <= |replies|
    ensures Run(c, s, replies) == Run(c, Run(c, s, replies[..n]), replies[n..])
    decreases n
  {
    if n == 0 {
      assert replies[..0] == [] && replies[0..] == replies;
    } else {
      assert replies[..n] == [replies[0]] + replies[1..][..n - 1] && replies[1..][n - 1..] == replies[n..];
      Unroll(c, s, replies[0], replies[1..][..n - 1]);
      Unroll(c, s, replies[0], replies[1..]);
      assert replies == [replies[0]] + replies[1..];
      RunSplit(c, Step(c, s, replies[0]), replies[1..], n - 1);
    }
  }

  /** The state k rounds leave: the records of those rounds, and room for the next one if the budget has any. */
  ghost predicate AfterRounds(c: Config, s: State, replies: seq<Reply>, n: int, cap: int, tool: string, k: nat)
    requires |replies| >= 4 * k
  {
    && s.calls == RoundRecords(replies, k)
    && (k < n ==> BeforeRound(c, s, tool, RoundRecords(replies, k), n, cap))
  }

  lemma RoundHasRoom(c: Config, s: State, tool: string, calls: seq<ToolRecord>, n: int, cap: int)
    requires BeforeRound(c, s, tool, calls, n, cap) && |calls| < n && |calls| < cap
    ensures CanCall(s.budget, tool) && s.budget.remaining == n - |calls|
  {
    AllNamed(s.calls, tool);
    assert Calls(s.budget, tool) == |calls|;
  }

  lemma {:induction false} RunTogether(c: Config, s: State, replies: seq<Reply>, m: nat, k: nat)
    requires m + k <= |replies|
    ensures Run(c, s, replies[..m + k]) == Run(c, Run(c, s, replies[..m]), replies[m..m + k])
  {
    var front := replies[..m + k];
    assert front[..m] == replies[..m] && front[m..] == replies[m..m + k];
    RunSplit(c, s, front, m);
  }

  /** A round that both limits allow leaves one record more. */
  lemma OneMore(c: Config, s: State, replies: seq<Reply>, n: int, cap: int, tool: string, k: nat)
    requires ReadsWith(c, tool) && 4 * k + 5 <= |replies| && k < n && k < cap
    requires AfterRounds(c, s, replies, n, cap, tool, k)
    requires forall o | o in replies :: o.record.toolName == tool
    ensures AfterRounds(c, Run(c, s, replies[4 * k + 1..4 * k + 5]), replies, n, cap, tool, k + 1)
  {
    var round, calls := replies[4 * k + 1..4 * k + 5], RoundRecords(replies, k);
    assert forall o | o in round :: o.record.toolName == tool;
    assert CanCall(s.budget, tool) && s.budget.remaining == n - k by {
      RoundHasRoom(c, s, tool, calls, n, cap);
    }
    Round(c, s, round, n, cap, tool, calls);
    assert RoundRecords(replies, k + 1) == calls + [round[1].record];
  }

  lemma NextRound(c: Config, s0: State, replies: seq<Reply>, n: int, cap: int, tool: string, k: nat)
    requires ReadsWith(c, tool) && 4 * k + 5 <= |replies| && k < n && k < cap
    requires AfterRounds(c, Run(c, s0, replies[..4 * k + 1]), replies, n, cap, tool, k)
    requires forall o | o in replies :: o.record.toolName == tool
    ensures AfterRounds(c, Run(c, s0, replies[..4 * k + 5]), replies, n, cap, tool, k + 1)
  {
    OneMore(c, Run(c, s0, replies[..4 * k + 1]), replies, n, cap, tool, k);
    RunTogether(c, s0, replies, 4 * k + 1, 4);
  }

  /** Rounds follow one another as long as both the budget and the tool's cap allow. */
  lemma {:induction false} Rounds(c: Config, s0: State, replies: seq<Reply>, n: int, cap: int, tool: string, k: nat)
    requires ReadsWith(c, tool) && k <= n && k <= cap && |replies| >= 4 * k + 1
    requires forall o | o in replies :: o.record.toolName == tool
    requires AfterRounds(c, Run(c, s0, replies[..1]), replies, n, cap, tool, 0)
    ensures AfterRounds(c, Run(c, s0, replies[..4 * k + 1]), replies, n, cap, tool, k)
  {
    if k == 0 {
      assert 4 * k + 1 == 1;
    } else {
      var j := k - 1;
      Rounds(c, s0, replies, n, cap, tool, j);
      NextRound(c, s0, replies, n, cap, tool, j);
      assert 4 * j + 5 == 4 * k + 1;
    }
  }

  lemma FirstRound(c: Config, replies: seq<Reply>, n: int, cap: int, previous: WorkingSet, tool: string)
    requires ReadsWith(c, tool) && n > 0 && |replies| >= 1 && replies[0].record.toolName == tool
    ensures AfterRounds(c, Run(c, Initial(n, cap, previous), replies[..1]), replies, n, cap, tool, 0)
  {
    var s0 := Initial(n, cap, previous);
    InitialInv(n, cap, previous);
    StepAdvances(c, s0, replies[0], n, cap);
    ReadStep(c, s0, replies[0], n, cap, tool);
    assert replies[..1] == [replies[0]] + [];
    Unroll(c, s0, replies[0], []);
  }

  /** Recorded calls stay recorded. */
  lemma {:induction false} CallsGrow(c: Config, s: State, replies: seq<Reply>)
    ensures s.calls <= Run(c, s, replies).calls
    decreases |replies|
  {
    if replies != [] {
      if s.node != Observe {
        OtherNodesFrame(c, s, replies[0]);
      }
      CallsGrow(c, Step(c, s, replies[0]), replies[1..]);
    }
  }

  lemma {:induction false} NoEvidence(calls: seq<ToolRecord>)
    ensures Evidence(calls) == [] <==> forall i | 0 <= i < |calls| :: calls[i].evidence == []
  {
    if calls != [] {
      var front, last := calls[..|calls| - 1], calls[|calls| - 1];
      NoEvidence(front);
      assert calls == front + [last];
    }
  }

  /**
    The calls of a resolved read are the records the invoker returned, round by round, and the run
    raises exactly when there are any and none of them carries evidence.
   */
  lemma ResolvedReadRaisesWithoutEvidence(c: Config, n: int, cap: int, previous: WorkingSet, replies: seq<Reply>, tool: string)
    requires ReadsWith(c, tool) && |replies| >= Bound(n) && Min(n, cap) > 0
    requires forall o | o in replies :: o.record.toolName == tool
    ensures var t := Run(c, Initial(n, cap, previous), replies);
            var calls := RoundRecords(replies, Min(n, cap));
            && t.calls == calls
            && (t.crash == EvidenceRequired <==> forall i | 0 <= i < |calls| :: calls[i].evidence == [])
  {
    var s0, k := Initial(n, cap, previous), Min(n, cap);
    FirstRound(c, replies, n, cap, previous, tool);
    RoundsAreKept(c, s0, replies, n, cap, tool, k);
    ReadRecorded(c, n, cap, previous, replies, tool);
    AgentRunEnds(c, n, cap, previous, replies);
    NoEvidence(RoundRecords(replies, k));
  }

  lemma RoundsAreKept(c: Config, s0: State, replies: seq<Reply>, n: int, cap: int, tool: string, k: nat)
    requires ReadsWith(c, tool) && k <= n && k <= cap && |replies| >= 4 * k + 1
    requires forall o | o in replies :: o.record.toolName == tool
    requires AfterRounds(c, Run(c, s0, replies[..1]), replies, n, cap, tool, 0)
    ensures RoundRecords(replies, k) <= Run(c, s0, replies).calls
  {
    Rounds(c, s0, replies, n, cap, tool, k);
    var m := 4 * k + 1;
    var s := Run(c, s0, replies[..m]);
    assert s.calls == RoundRecords(replies, k);
    CallsGrow(c, s, replies[m..]);
    RunSplit(c, s0, replies, m);
  }

  lemma ReadRecorded(c: Config, n: int, cap: int, previous: WorkingSet, replies: seq<Reply>, tool: string)
    requires ReadsWith(c, tool) && |replies| >= Bound(n)
    requires forall o | o in replies :: o.record.toolName == tool
    ensures var t := Run(c, Initial(n, cap, previous), replies);
            |t.calls| == Max(0, Min(n, cap)) && t.finish != Some(PolicyBlocked) && !PlannerAnswered(t)
  {
    ResolvedReadCallsToTheLimit(c, n, cap, previous, replies, tool);
    InitialInv(n, cap, previous);
    ReadRun(c, Initial(n, cap, previous), replies, n, cap, tool);
    RunIsSourced(c, Initial(n, cap, previous), replies);
  }

  /**
    A query resolved to an available read tool calls exactly that tool, exactly as often as the
    smaller of the budget and the per-tool cap allows, is never blocked, and answers from the evidence.
   */
  lemma ResolvedReadCallsToTheLimit(c: Config, n: int, cap: int, previous: WorkingSet, replies: seq<Reply>, tool: string)
    requires ReadsWith(c, tool) && |replies| >= Bound(n)
    requires forall o | o in replies :: o.record.toolName == tool
    ensures var t := Run(c, Initial(n, cap, previous), replies);
            && |t.invoked| == Max(0, Min(n, cap))
            && (forall i | 0 <= i < |t.invoked| :: t.invoked[i] == tool)
            && (t.crash == NoCrash ==> t.finish.Some? && t.finish != Some(PolicyBlocked))
            && (t.crash == NoCrash && n > 0 && cap > 0 ==> t.answer == Composed(c, t.calls))
  {
    var s := Initial(n, cap, previous);
    RunIsSourced(c, s, replies);
    InitialInv(n, cap, previous);
    RunKeepsInv(c, s, replies, n, cap);
    ReadRun(c, s, replies, n, cap, tool);
    var t := Run(c, s, replies);
    AllNamed(t.calls, tool);
    assert Calls(t.budget, tool) == |t.calls|;
    if tool in t.budget.perTool {
      assert 1 <= t.budget.perTool[tool] <= cap;
    }
  }

  /** The run never calls anything: the answer is direct, or the resolved tool is not on offer. */
  ghost predicate CallsNothing(c: Config) {
    Resolve(c.query).Some? &&
    (Resolve(c.query).value.toolName.None? || !Available(c.tools, Resolve(c.query).value.toolName.value))
  }

  lemma {:induction false} DirectRunCallsNothing(c: Config, s: State, replies: seq<Reply>)
    requires CallsNothing(c) && s.node !in {ToolCall, Observe} && s.invoked == [] && s.finish != Some(PolicyBlocked)
    ensures Run(c, s, replies).invoked == [] && Run(c, s, replies).finish != Some(PolicyBlocked)
    decreases |replies|
  {
    if replies != [] {
      DirectRunCallsNothing(c, Step(c, s, replies[0]), replies[1..]);
    }
  }

  /** A query for a direct answer, or whose tool is not on offer, is answered by the brain's third reply and nothing else. */
  lemma DirectRunAnswers(c: Config, n: int, cap: int, previous: WorkingSet, replies: seq<Reply>)
    requires CallsNothing(c) && |replies| >= 3
    ensures var t := Run(c, Initial(n, cap, previous), replies);
            && t.node == Finished && t.crash == NoCrash && t.invoked == [] && t.calls == []
            && t.answer == Polished(c, replies[2].answer) && t.finish == Some(Completed)
  {
    var s0 := Initial(n, cap, previous);
    assert replies[..1] == [replies[0]] + [];
    Unroll(c, s0, replies[0], []);
    NothingToCallAnswers(c, n, cap, previous, replies, 1);
  }

  // ---------------------------------------------------------------------------
  // The working set across turns
  // ---------------------------------------------------------------------------

  /** The set stays bounded, and every entity was there before or comes from an observed payload. */
  ghost predicate Remembers(s: State, base: seq<Entity>) {
    && Bounded(s.workingSet)
    && forall e | e in s.workingSet.entities ::
         e in base || exists i :: 0 <= i < |s.calls| && e in EntitiesOf(s.calls[i].payload)
  }

  lemma ObserveRemembers(s: State, base: seq<Entity>)
    requires Remembers(s, base) && s.pending.Some? && CanCall(s.budget, s.pending.value.toolName)
    ensures Remembers(ObserveResult(s), base)
  {
    var call := s.pending.value;
    MergeIsBounded(s.workingSet, WorkingSet(s.workingSet.activeIntent, EntitiesOf(call.payload)));
    var t := ObserveResult(s);
    forall e | e in t.workingSet.entities && e !in base
      ensures exists i :: 0 <= i < |t.calls| && e in EntitiesOf(t.calls[i].payload)
    {
      if e in s.workingSet.entities {
        var i :| 0 <= i < |s.calls| && e in EntitiesOf(s.calls[i].payload);
        assert t.calls[i] == s.calls[i];
      } else {
        assert t.calls[|s.calls|] == call;
      }
    }
  }

  /** The re-emission by the classify node leaves the entities alone. */
  lemma ClassifyRemembers(s: State, o: Reply, base: seq<Entity>)
    requires Remembers(s, base)
    ensures ClassifyIntent(s, o).workingSet.entities == s.workingSet.entities
    ensures Remembers(ClassifyIntent(s, o), base)
  {
    RemergeKeepsEntities(s.workingSet, WorkingSet(Some(o.intent), s.workingSet.entities));
  }

  lemma StepRemembers(c: Config, s: State, o: Reply, base: seq<Entity>)
    requires Remembers(s, base)
    ensures Remembers(Step(c, s, o), base)
  {
    if s.node == Classify {
      ClassifyRemembers(s, o, base);
    } else if s.node == Observe && s.pending.Some? && CanCall(s.budget, s.pending.value.toolName) {
      ObserveRemembers(s, base);
    } else if s.node != Observe {
      OtherNodesFrame(c, s, o);
    }
  }

  lemma {:induction false} RunRemembers(c: Config, s: State, replies: seq<Reply>, base: seq<Entity>)
    requires Remembers(s, base)
    ensures Remembers(Run(c, s, replies), base)
    decreases |replies|
  {
    if replies != [] {
      StepRemembers(c, s, replies[0], base);
      RunRemembers(c, Step(c, s, replies[0]), replies[1..], base);
    }
  }

  lemma {:induction false} IntentStays(c: Config, s: State, replies: seq<Reply>)
    requires s.node != Classify
    ensures Run(c, s, replies).workingSet.activeIntent == s.workingSet.activeIntent
    ensures Run(c, s, replies).intent == s.intent
    decreases |replies|
  {
    if replies != [] {
      if s.node != Observe {
        OtherNodesFrame(c, s, replies[0]);
      }
      IntentStays(c, Step(c, s, replies[0]), replies[1..]);
    }
  }

  /** A turn's active intent is the one it was classified with, or the previous turn's when that is empty. */
  lemma ActiveIntentIsLatest(c: Config, n: int, cap: int, previous: WorkingSet, replies: seq<Reply>)
    requires replies != []
    ensures Run(c, Initial(n, cap, previous), replies).workingSet.activeIntent ==
              if replies[0].intent != "" then Some(replies[0].intent) else previous.activeIntent
    ensures Run(c, Initial(n, cap, previous), replies).intent == replies[0].intent
  {
    IntentStays(c, Step(c, Initial(n, cap, previous), replies[0]), replies[1..]);
  }

  datatype Turn = Turn(config: Config, n: int, cap: int, replies: seq<Reply>)

  /** The working set the checkpointer carries from turn to turn. */
  function AfterTurns(ws: WorkingSet, turns: seq<Turn>): WorkingSet
    decreases |turns|
  {
    if turns == [] then ws
    else AfterTurns(Run(turns[0].config, Initial(turns[0].n, turns[0].cap, ws), turns[0].replies).workingSet, turns[1..])
  }

  function Observed(turns: seq<Turn>, ws: WorkingSet): seq<Entity>
    decreases |turns|
  {
    if turns == [] then []
    else
      var t := Run(turns[0].config, Initial(turns[0].n, turns[0].cap, ws), turns[0].replies);
      PayloadEntities(t.calls) + Observed(turns[1..], t.workingSet)
  }

  function PayloadEntities(calls: seq<ToolRecord>): seq<Entity> {
    if calls == [] then [] else EntitiesOf(calls[0].payload) + PayloadEntities(calls[1..])
  }

  lemma {:induction false} PayloadEntitiesCover(calls: seq<ToolRecord>, i: nat, e: Entity)
    requires i < |calls| && e in EntitiesOf(calls[i].payload)
    ensures e in PayloadEntities(calls)
  {
    if i > 0 {
      PayloadEntitiesCover(calls[1..], i - 1, e);
    }
  }

  /** Over any number of turns: bounded, and only old or observed entities. */
  lemma {:induction false} TurnsKeepWorkingSet(ws: WorkingSet, turns: seq<Turn>)
    requires Bounded(ws)
    ensures Bounded(AfterTurns(ws, turns))
    ensures forall e | e in AfterTurns(ws, turns).entities :: e in ws.entities || e in Observed(turns, ws)
    decreases |turns|
  {
    if turns != [] {
      var turn := turns[0];
      var s := Initial(turn.n, turn.cap, ws);
      RemergeKeepsEntities(ws, WorkingSet(None, []));
      assert s.workingSet.entities == ws.entities;
      RunRemembers(turn.config, s, turn.replies, ws.entities);
      var t := Run(turn.config, s, turn.replies);
      TurnsKeepWorkingSet(t.workingSet, turns[1..]);
      forall e | e in t.workingSet.entities && e !in ws.entities ensures e in PayloadEntities(t.calls) {
        var i :| 0 <= i < |t.calls| && e in EntitiesOf(t.calls[i].payload);
        PayloadEntitiesCover(t.calls, i, e);
      }
    }
  }

  // ---------------------------------------------------------------------------
  // The executor
  // ---------------------------------------------------------------------------

  function Prefix(replies: nat -> Reply, k: nat): seq<Reply> {
    if k == 0 then [] else Prefix(replies, k - 1) + [replies(k - 1)]
  }

  /** What one turn of the driver needs to know about its node. */
  lemma DriverStep(c: Config, s: State, o: Reply, n: int, cap: int)
    requires Inv(s, n, cap) && s.node != Finished
    ensures Advances(s, Step(c, s, o), n, cap)
    ensures s.node == Observe ==>
              && s.pending.Some? && CanCall(s.budget, s.pending.value.toolName)
              && Step(c, s, o).budget == Recorded(s.budget, s.pending.value.toolName)
    ensures s.node != Observe ==> Step(c, s, o).budget == s.budget
  {
    StepAdvances(c, s, o, n, cap);
    if s.node != Observe {
      OtherNodesFrame(c, s, o);
    }
  }

  /** The graph driver: nodes in sequence, the budget object mutated by the observe node. */
  method Execute(c: Config, n: int, cap: int, previous: WorkingSet, replies: nat -> Reply)
    returns (final: State, executed: nat, budget: ToolCallBudget)
    ensures executed <= Bound(n)
    ensures final == Run(c, Initial(n, cap, previous), Prefix(replies, executed)) && final.node == Finished
    ensures fresh(budget) && budget.View() == final.budget
  {
    budget := new ToolCallBudget(n, cap);
    ghost var initial := Initial(n, cap, previous);
    final := Initial(n, cap, previous);
    executed := 0;
    InitialInv(n, cap, previous);
    while final.node != Finished
      invariant Inv(final, n, cap) && budget.View() == final.budget && fresh(budget)
      invariant final == Run(c, initial, Prefix(replies, executed))
      invariant executed + Fuel(final) <= Bound(n)
      decreases Fuel(final)
    {
      DriverStep(c, final, replies(executed), n, cap);
      RunSnoc(c, initial, Prefix(replies, executed), replies(executed));
      if final.node == Observe {
        var recorded := budget.Record(final.pending.value.toolName);
      }
      final := Step(c, final, replies(executed));
      executed := executed + 1;
    }
  }

  lemma {:induction false} RunSnoc(c: Config, s: State, replies: seq<Reply>, o: Reply)
    ensures Run(c, s, replies + [o]) == Step(c, Run(c, s, replies), o)
    decreases |replies|
  {
    if replies == [] {
      Unroll(c, s, o, []);
      assert [] + [o] == [o] + [];
    } else {
      assert (replies + [o])[1..] == replies[1..] + [o];
      RunSnoc(c, Step(c, s, replies[0]), replies[1..], o);
    }
  }
}
