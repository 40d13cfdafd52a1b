/** The agent workflow with the tool gateway as its invoker. */
module AgentBehindGateway {
  import opened Common
  import AgentGraph
  import AgentRuns
  import Gateway
  import RateLimit
  import WorkingSets

  /** The record is what some invocation of the gateway returned, whatever the actor, the limits and the tools. */
  ghost predicate FromGateway(record: AgentGraph.ToolRecord) {
    exists table, registry, name, ctx, a, verdict: Option<RateLimit.Verdict>, approval, world ::
      var outcome := Gateway.Invocation(table, registry, name, ctx, a, verdict, approval, world).0;
      outcome.Record? && outcome.evidence == record.evidence
  }

  lemma GatewayRecordsHaveEvidence(record: AgentGraph.ToolRecord)
    requires FromGateway(record)
    ensures record.evidence != []
  {
    var table, registry, name, ctx, a, verdict: Option<RateLimit.Verdict>, approval, world :|
      var outcome := Gateway.Invocation(table, registry, name, ctx, a, verdict, approval, world).0;
      outcome.Record? && outcome.evidence == record.evidence;
    Gateway.RecordsCarryEvidence(table, registry, name, ctx, a, verdict, approval, world);
  }

  /**
    Behind the gateway no run raises: whatever the brain plans and whatever records the gateway
    returns, successes, failures, throttled and unapproved calls, the run ends with an answer.
   */
  lemma RunBehindGatewayAnswers(c: AgentGraph.Config, n: int, cap: int, previous: WorkingSets.WorkingSet,
                                replies: seq<AgentGraph.Reply>)
    requires |replies| >= AgentRuns.Bound(n) && forall o | o in replies :: FromGateway(o.record)
    ensures var t := AgentGraph.Run(c, AgentGraph.Initial(n, cap, previous), replies);
            && t.node == AgentGraph.Finished && t.crash == AgentGraph.NoCrash
            && t.finish.Some? && t.answer != ""
  {
    forall o | o in replies ensures o.record.evidence != [] {
      GatewayRecordsHaveEvidence(o.record);
    }
    AgentGraph.InitialInv(n, cap, previous);
    AgentRuns.EvidenceNeverRaises(c, AgentGraph.Initial(n, cap, previous), replies, n, cap);
    AgentRuns.AgentRunEnds(c, n, cap, previous, replies);
  }
}
