/** The call budget shared by the nodes of one agent run. */
module ToolBudget {
  import opened Common
  import opened Sums

  datatype Budget = Budget(remaining: int, cap: int, total: int, perTool: map<string, int>)

  function Calls(b: Budget, tool: string): int {
    if tool in b.perTool then b.perTool[tool] else 0
  }

  predicate CanCall(b: Budget, tool: string) {
    b.remaining > 0 && Calls(b, tool) < b.cap
  }

  function Recorded(b: Budget, tool: string): Budget {
    Budget(b.remaining - 1, b.cap, b.total + 1, b.perTool[tool := Calls(b, tool) + 1])
  }

  /** The books of a budget that started with n calls. */
  ghost predicate Balanced(b: Budget, n: int, cap: int) {
    && b.cap == cap
    && b.total + b.remaining == n
    && b.total >= 0
    && (b.total > 0 ==> b.remaining >= 0)
    && b.total == Sum(b.perTool)
    && (forall t | t in b.perTool :: 1 <= b.perTool[t] <= cap)
  }

  lemma RecordKeepsBalance(b: Budget, n: int, cap: int, tool: string)
    requires Balanced(b, n, cap) && CanCall(b, tool)
    ensures Balanced(Recorded(b, tool), n, cap)
  {
    SumUpdate(b.perTool, tool, Calls(b, tool) + 1);
  }

  class ToolCallBudget {
    var remainingCalls: int
    const maxCallsPerTool: int
    var totalCalls: int
    var perToolCalls: map<string, int>

    constructor (remainingCalls: int, maxCallsPerTool: int)
      ensures View() == Budget(remainingCalls, maxCallsPerTool, 0, map[])
    {
      this.remainingCalls, this.maxCallsPerTool := remainingCalls, maxCallsPerTool;
      totalCalls, perToolCalls := 0, map[];
    }

    function View(): Budget
      reads this
    {
      Budget(remainingCalls, maxCallsPerTool, totalCalls, perToolCalls)
    }

    /** Refuses, changing nothing, exactly when the call was not allowed. */
    method Record(tool: string) returns (result: Result<(), string>)
      modifies this
      ensures result.Ok? <==> CanCall(old(View()), tool)
      ensures View() == if result.Ok? then Recorded(old(View()), tool) else old(View())
    {
      if !CanCall(View(), tool) {
        return Err("Tool-call budget was exhausted before recording the result");
      }
      totalCalls := totalCalls + 1;
      remainingCalls := remainingCalls - 1;
      var used := if tool in perToolCalls then perToolCalls[tool] else 0;
      perToolCalls := perToolCalls[tool := used + 1];
      return Ok(());
    }
  }
}
