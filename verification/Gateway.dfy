/**
  The tool gateway: site scoping, validation, permission, rate limit, approval, then the handler
  with its retries, and the audit and trace records written on the way.

  Input validation, the handler and the result adapter are foreign; what they do is a parameter.
 */
module Gateway {
  import opened Common
  import opened Intent
  import opened RateLimit

  type Arguments = map<string, Value>

  datatype ToolDefinition = ToolDefinition(
    name: string,
    permission: string,
    siteField: Option<string>,
    requiresApproval: bool,
    maxRetries: int,
    rateLimit: Option<Limit>)

  datatype AuthorizationContext = AuthorizationContext(
    userId: string, roles: set<string>, siteCodes: set<string>, globalScope: bool)

  datatype Decision = Approved | Refused | ApprovalRequired | RateLimited

  datatype Effect =
    | Audit(decision: Decision)
    | Trace(event: string, attempts: nat)
    | Handler(arguments: Arguments)

  datatype Adaptation = Adapted(evidence: seq<string>) | Inconsistent

  /** The foreign calls of one invocation; `handler(i)` tells whether attempt i succeeds. */
  datatype World = World(validate: Arguments -> Option<Arguments>, handler: nat -> bool, adapt: Adaptation)

  datatype Status = Succeeded | Failed | Throttled(retryAfter: int) | AwaitsApproval

  /** An error, or the record handed to the caller; evidence is what identifies it. */
  datatype Outcome =
    | UnknownTool | SiteScopeDenied | InvalidInput | SiteNotText | PermissionDenied
    | HandlerRaised | NoEvidence
    | Record(status: Status, arguments: Arguments, evidence: seq<string>)

  // ---------------------------------------------------------------------------
  // Authorization
  // ---------------------------------------------------------------------------

  function Permissions(table: map<string, set<string>>, ctx: AuthorizationContext): set<string> {
    set role, p | role in ctx.roles && role in table && p in table[role] :: p
  }

  predicate Can(table: map<string, set<string>>, ctx: AuthorizationContext, permission: string, site: Option<string>) {
    permission in Permissions(table, ctx) &&
    (site.None? || ctx.globalScope || site.value in ctx.siteCodes)
  }

  function Arg(a: Arguments, field: string): Value {
    if field in a then a[field] else VNull
  }

  /** Whether the runtime offers the tool to the actor at all. */
  predicate Listed(table: map<string, set<string>>, tool: ToolDefinition, ctx: AuthorizationContext) {
    Can(table, ctx, tool.permission, None) &&
    (tool.siteField.None? || ctx.globalScope || ctx.siteCodes != {})
  }

  /** The names of the listed tools, in registration order. */
  function Listing(table: map<string, set<string>>, registrations: seq<ToolDefinition>, ctx: AuthorizationContext): seq<string> {
    if registrations == [] then []
    else
      var last := registrations[|registrations| - 1];
      Listing(table, registrations[..|registrations| - 1], ctx) + if Listed(table, last, ctx) then [last.name] else []
  }

  /** The arguments with the actor's only site filled in; nothing when the scope is ambiguous. */
  ghost function Scoped(tool: ToolDefinition, ctx: AuthorizationContext, a: Arguments): Option<Arguments> {
    if tool.siteField.Some? && !ctx.globalScope && Arg(a, tool.siteField.value).VNull? then
      if |ctx.siteCodes| == 1 then
        var site :| site in ctx.siteCodes;
        Some(a[tool.siteField.value := VStr(site)])
      else None
    else Some(a)
  }

  function Site(tool: ToolDefinition, a: Arguments): Value {
    if tool.siteField.None? then VNull else Arg(a, tool.siteField.value)
  }

  // ---------------------------------------------------------------------------
  // The whole invocation as a function
  // ---------------------------------------------------------------------------

  datatype Access = Denied(outcome: Outcome, effects: seq<Effect>) | Granted(arguments: Arguments)

  /** Everything up to the permission check. */
  ghost function Authorize(table: map<string, set<string>>, tool: ToolDefinition, ctx: AuthorizationContext,
                           a: Arguments, world: World): Access {
    var scoped := Scoped(tool, ctx, a);
    if scoped.None? then Denied(SiteScopeDenied, [Audit(Refused), Trace("site_scope_denied", 0)])
    else
      var validated := world.validate(scoped.value);
      if validated.None? then Denied(InvalidInput, [])
      else
        var site := Site(tool, validated.value);
        if !site.VNull? && !site.VStr? then Denied(SiteNotText, [])
        else if !Can(table, ctx, tool.permission, if site.VStr? then Some(site.text) else None) then
          Denied(PermissionDenied, [Audit(Refused), Trace("permission_denied", 0)])
        else Granted(validated.value)
  }

  predicate IsWriteName(name: string) {
    "write_" <= name || (|name| >= 6 && name[|name| - 6..] == "_write")
  }

  /** `approval` is none when no approval service is configured, else whether writes are allowed. */
  function Approval(tool: ToolDefinition, approval: Option<bool>): Decision {
    if !tool.requiresApproval then Approved
    else if approval.None? then ApprovalRequired
    else if IsWriteName(tool.name) && !approval.value then ApprovalRequired
    else Approved
  }

  /** Attempts made from the given one on, and whether the last succeeded. */
  function Attempts(handler: nat -> bool, maxRetries: int, attempt: nat): (nat, bool)
    decreases if maxRetries >= attempt then maxRetries - attempt else 0
  {
    if handler(attempt) then (attempt + 1, true)
    else if attempt >= maxRetries then (attempt + 1, false)
    else Attempts(handler, maxRetries, attempt + 1)
  }

  function HandlerCalls(a: Arguments, count: nat): seq<Effect> {
    seq(count, i => Handler(a))
  }

  function Execution(tool: ToolDefinition, a: Arguments, world: World): (Outcome, seq<Effect>) {
    var (count, ok) := Attempts(world.handler, tool.maxRetries, 0);
    if !ok then (HandlerRaised, HandlerCalls(a, count) + [Trace("handler_failed", count)])
    else
      var effects := HandlerCalls(a, count) + [Trace("handler_executed", count)];
      if world.adapt.Inconsistent? then
        (Record(Failed, a, [tool.name + ":failure"]), effects + [Trace("result_adaptation_failed", 0)])
      else if world.adapt.evidence == [] then (NoEvidence, effects)
      else (Record(Succeeded, a, world.adapt.evidence), effects)
  }

  /** After permission: `verdict` is the limiter's, when the tool is limited. */
  function Admit(tool: ToolDefinition, a: Arguments, verdict: Option<Verdict>, approval: Option<bool>, world: World)
    : (Outcome, seq<Effect>)
  {
    if verdict.Some? && !verdict.value.allowed then
      (Record(Throttled(verdict.value.retryAfterSeconds), a, [tool.name + ":rate-limit"]), [Audit(RateLimited), Trace("rate_limited", 0)])
    else if Approval(tool, approval) != Approved then
      (Record(AwaitsApproval, a, [tool.name + ":approval"]), [Audit(Approval(tool, approval)), Trace("approval_blocked", 0)])
    else
      var (outcome, effects) := Execution(tool, a, world);
      (outcome, [Audit(Approved)] + effects)
  }

  ghost function Invocation(table: map<string, set<string>>, registry: map<string, ToolDefinition>, name: string,
                            ctx: AuthorizationContext, a: Arguments, verdict: Option<Verdict>,
                            approval: Option<bool>, world: World): (Outcome, seq<Effect>)
  {
    if name !in registry then (UnknownTool, [])
    else
      var access := Authorize(table, registry[name], ctx, a, world);
      if access.Denied? then (access.outcome, access.effects)
      else Admit(registry[name], access.arguments, verdict, approval, world)
  }

  class ToolGateway {
    const table: map<string, set<string>>
    const registry: map<string, ToolDefinition>
    const approval: Option<bool>
    const limiter: FixedWindowRateLimiter
    var log: seq<Effect>

    constructor (table: map<string, set<string>>, registry: map<string, ToolDefinition>,
                 approval: Option<bool>, limiter: FixedWindowRateLimiter)
      ensures this.table == table && this.registry == registry && this.approval == approval
      ensures this.limiter == limiter && log == []
    {
      this.table, this.registry, this.approval, this.limiter := table, registry, approval, limiter;
      log := [];
    }

    /** The limiter's answer to this call, and whether the call gets as far as asking for it. */
    ghost function LimiterVerdict(name: string, ctx: AuthorizationContext, now: real): Option<Verdict>
      reads this, limiter
    {
      if name in registry && registry[name].rateLimit.Some? then
        Some(Judge(Lookup(limiter.counters, KeyOf(Some(ctx.userId), registry[name].name)), now,
                   registry[name].rateLimit.value))
      else None
    }

    ghost predicate Permitted(name: string, ctx: AuthorizationContext, a: Arguments, world: World)
      reads this
    {
      name in registry && Authorize(table, registry[name], ctx, a, world).Granted?
    }

    /** Site scope, validation and permission, with their records. */
    method CheckAccess(tool: ToolDefinition, a: Arguments, ctx: AuthorizationContext, world: World)
      returns (access: Access)
      modifies this`log
      ensures access == Authorize(table, tool, ctx, a, world)
      ensures log == old(log) + if access.Denied? then access.effects else []
    {
      var scoped := a;
      if tool.siteField.Some? && !ctx.globalScope {
        if Arg(scoped, tool.siteField.value).VNull? {
          if |ctx.siteCodes| == 1 {
            var site :| site in ctx.siteCodes;
            OnlySite(ctx.siteCodes, site);
            scoped := scoped[tool.siteField.value := VStr(site)];
          } else {
            access := Deny(SiteScopeDenied, "site_scope_denied");
            return;
          }
        }
      }
      assert Scoped(tool, ctx, a) == Some(scoped);
      var validation := world.validate(scoped);
      if validation.None? {
        return Denied(InvalidInput, []);
      }
      var validated := validation.value;
      var site := Site(tool, validated);
      if !site.VNull? && !site.VStr? {
        return Denied(SiteNotText, []);
      }
      if !Can(table, ctx, tool.permission, if site.VStr? then Some(site.text) else None) {
        access := Deny(PermissionDenied, "permission_denied");
        return;
      }
      return Granted(validated);
    }

    /** A refusal: one audit record, then one trace. */
    method Deny(outcome: Outcome, event: string) returns (access: Access)
      modifies this`log
      ensures access == Denied(outcome, [Audit(Refused), Trace(event, 0)])
      ensures log == old(log) + access.effects
    {
      log := log + [Audit(Refused)];
      log := log + [Trace(event, 0)];
      return Denied(outcome, [Audit(Refused), Trace(event, 0)]);
    }

    /** Everything after permission; `verdict` is the limiter's. */
    method AdmitCall(tool: ToolDefinition, validated: Arguments, verdict: Option<RateLimit.Verdict>, world: World)
      returns (outcome: Outcome)
      modifies this`log
      ensures outcome == Admit(tool, validated, verdict, approval, world).0
      ensures log == old(log) + Admit(tool, validated, verdict, approval, world).1
    {
      if verdict.Some? && !verdict.value.allowed {
        log := log + [Audit(RateLimited)];
        log := log + [Trace("rate_limited", 0)];
        return Record(Throttled(verdict.value.retryAfterSeconds), validated, [tool.name + ":rate-limit"]);
      }
      var decision := Approval(tool, approval);
      log := log + [Audit(decision)];
      if decision != Approved {
        log := log + [Trace("approval_blocked", 0)];
        return Record(AwaitsApproval, validated, [tool.name + ":approval"]);
      }
      outcome := RunHandler(tool, validated, world);
    }

    /** The limiter is charged only for calls that passed validation and permission. */
    method Invoke(name: string, a: Arguments, ctx: AuthorizationContext, now: real, world: World)
      returns (outcome: Outcome)
      modifies this`log, limiter
      ensures (outcome, log) ==
        var (o, effects) := Invocation(table, registry, name, ctx, a, old(LimiterVerdict(name, ctx, now)), approval, world);
        (o, old(log) + effects)
      ensures limiter.counters ==
        if Permitted(name, ctx, a, world) && registry[name].rateLimit.Some? then
          var key := KeyOf(Some(ctx.userId), registry[name].name);
          old(limiter.counters)[key := Charged(Lookup(old(limiter.counters), key), now, registry[name].rateLimit.value)]
        else old(limiter.counters)
    {
      assert log == old(log) + [];
      if name !in registry {
        return UnknownTool;
      }
      var tool := registry[name];
      var access := CheckAccess(tool, a, ctx, world);
      if access.Denied? {
        return access.outcome;
      }
      var verdict := None;
      if tool.rateLimit.Some? {
        var answer := limiter.TryConsume(Some(ctx.userId), tool.name, tool.rateLimit.value, now);
        verdict := Some(answer);
      }
      outcome := AdmitCall(tool, access.arguments, verdict, world);
    }

    /** The retry loop and the adaptation of its result. */
    method RunHandler(tool: ToolDefinition, a: Arguments, world: World) returns (outcome: Outcome)
      modifies this`log
      ensures outcome == Execution(tool, a, world).0
      ensures log == old(log) + Execution(tool, a, world).1
    {
      var attempts := 0;
      var succeeded := false;
      while !succeeded
        invariant log == old(log) + HandlerCalls(a, if succeeded then attempts + 1 else attempts)
        invariant succeeded ==> Attempts(world.handler, tool.maxRetries, 0) == (attempts + 1, true)
        invariant !succeeded ==>
          Attempts(world.handler, tool.maxRetries, 0) == Attempts(world.handler, tool.maxRetries, attempts)
        decreases !succeeded, if tool.maxRetries >= attempts then tool.maxRetries - attempts else 0
      {
        log := log + [Handler(a)];
        assert HandlerCalls(a, attempts + 1) == HandlerCalls(a, attempts) + [Handler(a)];
        if world.handler(attempts) {
          succeeded := true;
        } else if attempts >= tool.maxRetries {
          log := log + [Trace("handler_failed", attempts + 1)];
          return HandlerRaised;
        } else {
          attempts := attempts + 1;
        }
      }
      log := log + [Trace("handler_executed", attempts + 1)];
      match world.adapt
      case Inconsistent =>
        log := log + [Trace("result_adaptation_failed", 0)];
        return Record(Failed, a, [tool.name + ":failure"]);
      case Adapted(evidence) =>
        if evidence == [] {
          return NoEvidence;
        }
        return Record(Succeeded, a, evidence);
    }

    /** The tools offered to an actor, in registration order. */
    method ListTools(registrations: seq<ToolDefinition>, ctx: AuthorizationContext) returns (names: seq<string>)
      ensures names == Listing(table, registrations, ctx)
      ensures forall n :: n in names <==>
        exists i :: 0 <= i < |registrations| && registrations[i].name == n && Listed(table, registrations[i], ctx)
    {
      names := [];
      for i := 0 to |registrations|
        invariant names == Listing(table, registrations[..i], ctx)
        invariant forall n :: n in names <==>
          exists j :: 0 <= j < i && registrations[j].name == n && Listed(table, registrations[j], ctx)
      {
        assert registrations[..i + 1][..i] == registrations[..i];
        var tool := registrations[i];
        if !Can(table, ctx, tool.permission, None) {
          continue;
        }
        if !(tool.siteField.None? || ctx.globalScope || ctx.siteCodes != {}) {
          continue;
        }
        names := names + [tool.name];
      }
      assert registrations[..|registrations|] == registrations;
    }
  }

  lemma OnlySite(sites: set<string>, site: string)
    requires |sites| == 1 && site in sites
    ensures sites == {site}
  {
    assert |sites - {site}| == 0;
  }

  // ---------------------------------------------------------------------------
  // What reaching the handler proves
  // ---------------------------------------------------------------------------

  ghost predicate Reached(effects: seq<Effect>) {
    exists i :: 0 <= i < |effects| && effects[i].Handler?
  }

  /** Validation never turns a present site into an absent one. */
  ghost predicate KeepsSite(tool: ToolDefinition, world: World) {
    forall a: Arguments :: !Site(tool, a).VNull? && world.validate(a).Some? ==> !Site(tool, world.validate(a).value).VNull?
  }

  lemma {:induction false} AttemptsCounted(handler: nat -> bool, maxRetries: int, attempt: nat)
    ensures var (count, ok) := Attempts(handler, maxRetries, attempt);
            && attempt < count && (attempt <= maxRetries ==> count <= maxRetries + 1)
            && (attempt > maxRetries ==> count == attempt + 1)
            && (forall i | attempt <= i < count - 1 :: !handler(i))
            && (ok <==> handler(count - 1))
            && (!ok ==> count > maxRetries)
    decreases if maxRetries >= attempt then maxRetries - attempt else 0
  {
    if !handler(attempt) && attempt < maxRetries {
      AttemptsCounted(handler, maxRetries, attempt + 1);
    }
  }

  function CountHandlers(effects: seq<Effect>): nat {
    if effects == [] then 0
    else CountHandlers(effects[..|effects| - 1]) + if effects[|effects| - 1].Handler? then 1 else 0
  }

  lemma {:induction false} CountHandlersConcat(a: seq<Effect>, b: seq<Effect>)
    ensures CountHandlers(a + b) == CountHandlers(a) + CountHandlers(b)
    decreases |b|
  {
    if b == [] {
      assert a + b == a;
    } else {
      assert (a + b)[..|a + b| - 1] == a + b[..|b| - 1];
      CountHandlersConcat(a, b[..|b| - 1]);
    }
  }

  lemma {:induction false} CountHandlerCalls(a: Arguments, count: nat)
    ensures CountHandlers(HandlerCalls(a, count)) == count
  {
    if count > 0 {
      CountHandlerCalls(a, count - 1);
      assert HandlerCalls(a, count)[..count - 1] == HandlerCalls(a, count - 1);
    }
  }

  function AuditHead(a: Arguments, n: nat, event: string): seq<Effect> {
    [Audit(Approved)] + HandlerCalls(a, n) + [Trace(event, n)]
  }

  /** One approval, the handler calls, one trace that counts them, and at most an adaptation failure. */
  ghost predicate AuditedExecution(effects: seq<Effect>, validated: Arguments, failed: bool) {
    var head := AuditHead(validated, CountHandlers(effects), if failed then "handler_failed" else "handler_executed");
    effects == head || (!failed && effects == head + [Trace("result_adaptation_failed", 0)])
  }

  lemma CountHead(a: Arguments, n: nat, event: string)
    ensures CountHandlers(AuditHead(a, n, event)) == n
    ensures CountHandlers(AuditHead(a, n, event) + [Trace("result_adaptation_failed", 0)]) == n
  {
    CountHandlerCalls(a, n);
    CountHandlersConcat([Audit(Approved)], HandlerCalls(a, n));
    CountHandlersConcat([Audit(Approved)] + HandlerCalls(a, n), [Trace(event, n)]);
    CountHandlersConcat(AuditHead(a, n, event), [Trace("result_adaptation_failed", 0)]);
  }

  lemma ExecutionIsAudited(tool: ToolDefinition, a: Arguments, world: World)
    ensures var effects := [Audit(Approved)] + Execution(tool, a, world).1;
            && AuditedExecution(effects, a, Execution(tool, a, world).0 == HandlerRaised)
            && CountHandlers(effects) == Attempts(world.handler, tool.maxRetries, 0).0
  {
    var (count, ok) := Attempts(world.handler, tool.maxRetries, 0);
    ExecutionEffects(tool, a, world);
    CountHead(a, count, if ok then "handler_executed" else "handler_failed");
  }

  /** The effects of an execution, with its approval in front. */
  lemma ExecutionEffects(tool: ToolDefinition, a: Arguments, world: World)
    ensures var (count, ok) := Attempts(world.handler, tool.maxRetries, 0);
            var head := AuditHead(a, count, if ok then "handler_executed" else "handler_failed");
            var failure := if ok && world.adapt.Inconsistent? then [Trace("result_adaptation_failed", 0)] else [];
            && [Audit(Approved)] + Execution(tool, a, world).1 == head + failure
            && (Execution(tool, a, world).0 == HandlerRaised <==> !ok)
            && head + [] == head
  {
  }

  /** The name says that the tool writes. */
  ghost predicate NamesAWrite(name: string) {
    (exists rest: string :: name == "write_" + rest) || (exists front: string :: name == front + "_write")
  }

  lemma WriteNamesAreFound(name: string)
    ensures IsWriteName(name) <==> NamesAWrite(name)
  {
    if "write_" <= name {
      assert name == "write_" + name[6..];
    }
    if |name| >= 6 && name[|name| - 6..] == "_write" {
      assert name == name[..|name| - 6] + "_write";
    }
    if exists front: string :: name == front + "_write" {
      var front: string :| name == front + "_write";
      assert name[|front|..] == "_write";
    }
  }

  /** One of the actor's roles grants the permission, and the site, if any, is within the actor's scope. */
  ghost predicate MayUse(table: map<string, set<string>>, ctx: AuthorizationContext, permission: string, site: Value) {
    && (exists role :: role in ctx.roles && role in table && permission in table[role])
    && (site.VNull? || (site.VStr? && (ctx.globalScope || site.text in ctx.siteCodes)))
  }

  lemma CanIsMayUse(table: map<string, set<string>>, ctx: AuthorizationContext, permission: string, site: Value)
    requires site.VNull? || site.VStr?
    ensures Can(table, ctx, permission, if site.VStr? then Some(site.text) else None) <==> MayUse(table, ctx, permission, site)
  {
  }

  /** The arguments as validation leaves them: an actor with a single site need not name it. */
  ghost predicate ValidatesTo(tool: ToolDefinition, ctx: AuthorizationContext, a: Arguments, world: World, validated: Arguments) {
    if tool.siteField.Some? && !ctx.globalScope && Arg(a, tool.siteField.value).VNull? then
      exists site :: ctx.siteCodes == {site} && world.validate(a[tool.siteField.value := VStr(site)]) == Some(validated)
    else world.validate(a) == Some(validated)
  }

  /** Permission in full: the call gets past it exactly when its arguments validate and the actor may use the tool there. */
  lemma GrantedExactly(table: map<string, set<string>>, tool: ToolDefinition, ctx: AuthorizationContext,
                       a: Arguments, world: World, validated: Arguments)
    ensures Authorize(table, tool, ctx, a, world) == Granted(validated) <==>
              ValidatesTo(tool, ctx, a, world, validated) && MayUse(table, ctx, tool.permission, Site(tool, validated))
  {
    if tool.siteField.Some? && |ctx.siteCodes| == 1 {
      var site :| site in ctx.siteCodes;
      OnlySite(ctx.siteCodes, site);
    }
    if Site(tool, validated).VNull? || Site(tool, validated).VStr? {
      CanIsMayUse(table, ctx, tool.permission, Site(tool, validated));
    }
  }

  /** No approval is needed, or a configured service gives it: to every write if writes are allowed, else to no tool named as one. */
  ghost predicate NeedsNoFurtherApproval(tool: ToolDefinition, approval: Option<bool>) {
    || !tool.requiresApproval
    || approval == Some(true)
    || (approval.Some? && !NamesAWrite(tool.name))
  }

  /** Nothing runs for a caller that is unknown to the registry or not permitted. */
  lemma UnpermittedRunsNothing(table: map<string, set<string>>, registry: map<string, ToolDefinition>, name: string,
                               ctx: AuthorizationContext, a: Arguments, verdict: Option<Verdict>,
                               approval: Option<bool>, world: World)
    requires name in registry ==>
               forall validated :: ValidatesTo(registry[name], ctx, a, world, validated) ==>
                 !MayUse(table, ctx, registry[name].permission, Site(registry[name], validated))
    ensures !Reached(Invocation(table, registry, name, ctx, a, verdict, approval, world).1)
    ensures !Invocation(table, registry, name, ctx, a, verdict, approval, world).0.Record?
  {
    if name in registry {
      var access := Authorize(table, registry[name], ctx, a, world);
      if access.Granted? {
        GrantedExactly(table, registry[name], ctx, a, world, access.arguments);
      }
    }
  }

  /** The handler is reached only through every earlier stage. */
  lemma ReachedWasAdmitted(table: map<string, set<string>>, registry: map<string, ToolDefinition>, name: string,
                           ctx: AuthorizationContext, a: Arguments, verdict: Option<Verdict>,
                           approval: Option<bool>, world: World)
    requires Reached(Invocation(table, registry, name, ctx, a, verdict, approval, world).1)
    ensures name in registry && Authorize(table, registry[name], ctx, a, world).Granted?
    ensures verdict.Some? ==> verdict.value.allowed
    ensures Approval(registry[name], approval) == Approved
    ensures var execution := Execution(registry[name], Authorize(table, registry[name], ctx, a, world).arguments, world);
            Invocation(table, registry, name, ctx, a, verdict, approval, world)
            == (execution.0, [Audit(Approved)] + execution.1)
  {
    var effects := Invocation(table, registry, name, ctx, a, verdict, approval, world).1;
    var i :| 0 <= i < |effects| && effects[i].Handler?;
  }

  /**
    If the handler runs at all, the call was permitted, within its rate and approved; the records are
    one approval, the handler calls and one trace whose count is the number of calls made.  That
    number is between 1 and maxRetries + 1: every attempt but the last failed, and the call gave up
    only when no attempt was left.
   */
  lemma HandlerIsAuditedAndCounted(table: map<string, set<string>>, registry: map<string, ToolDefinition>, name: string,
                                   ctx: AuthorizationContext, a: Arguments, verdict: Option<Verdict>,
                                   approval: Option<bool>, world: World)
    requires Reached(Invocation(table, registry, name, ctx, a, verdict, approval, world).1)
    ensures name in registry && Authorize(table, registry[name], ctx, a, world).Granted?
    ensures verdict.Some? ==> verdict.value.allowed
    ensures NeedsNoFurtherApproval(registry[name], approval)
    ensures var tool := registry[name];
            var (outcome, effects) := Invocation(table, registry, name, ctx, a, verdict, approval, world);
            var n := CountHandlers(effects);
            && AuditedExecution(effects, Authorize(table, tool, ctx, a, world).arguments, outcome == HandlerRaised)
            && 1 <= n <= (if tool.maxRetries > 0 then tool.maxRetries else 0) + 1
            && (forall i | 0 <= i < n - 1 :: !world.handler(i))
            && (outcome == HandlerRaised <==> !world.handler(n - 1))
            && (outcome == HandlerRaised ==> n > tool.maxRetries)
  {
    ReachedWasAdmitted(table, registry, name, ctx, a, verdict, approval, world);
    WriteNamesAreFound(registry[name].name);
    var tool := registry[name];
    ExecutionIsAudited(tool, Authorize(table, tool, ctx, a, world).arguments, world);
    AttemptsCounted(world.handler, tool.maxRetries, 0);
  }

  /**
    A permitted call that is not throttled runs its handler exactly when it needs no further
    approval.  Otherwise it awaits approval: one audit record says so and nothing else happens.
    A throttled call is recorded as such and never gets that far.
   */
  lemma HandlerRunsIffApproved(table: map<string, set<string>>, registry: map<string, ToolDefinition>, name: string,
                               ctx: AuthorizationContext, a: Arguments, verdict: Option<Verdict>,
                               approval: Option<bool>, world: World, validated: Arguments)
    requires name in registry
    requires ValidatesTo(registry[name], ctx, a, world, validated)
    requires MayUse(table, ctx, registry[name].permission, Site(registry[name], validated))
    ensures var tool := registry[name];
            var (outcome, effects) := Invocation(table, registry, name, ctx, a, verdict, approval, world);
            if verdict.Some? && !verdict.value.allowed then
              && outcome == Record(Throttled(verdict.value.retryAfterSeconds), validated, [tool.name + ":rate-limit"])
              && effects == [Audit(RateLimited), Trace("rate_limited", 0)]
            else if NeedsNoFurtherApproval(tool, approval) then
              && effects != [] && effects[0] == Audit(Approved) && Handler(validated) in effects
              && (outcome.Record? ==> outcome.arguments == validated && outcome.status in {Succeeded, Failed})
            else
              && outcome == Record(AwaitsApproval, validated, [tool.name + ":approval"])
              && effects == [Audit(ApprovalRequired), Trace("approval_blocked", 0)]
  {
    var tool := registry[name];
    GrantedExactly(table, tool, ctx, a, world, validated);
    WriteNamesAreFound(tool.name);
    if (verdict.None? || verdict.value.allowed) && NeedsNoFurtherApproval(tool, approval) {
      AttemptsCounted(world.handler, tool.maxRetries, 0);
      var effects := Invocation(table, registry, name, ctx, a, verdict, approval, world).1;
      assert effects[1] == Handler(validated);
    }
  }

  /** Every record that comes out carries evidence: successes, failures, throttled and unapproved calls alike. */
  lemma RecordsCarryEvidence(table: map<string, set<string>>, registry: map<string, ToolDefinition>, name: string,
                             ctx: AuthorizationContext, a: Arguments, verdict: Option<Verdict>,
                             approval: Option<bool>, world: World)
    ensures var outcome := Invocation(table, registry, name, ctx, a, verdict, approval, world).0;
            outcome.Record? ==> outcome.evidence != []
  {
  }

  /**
    Reaching the handler proves that the tool was on the actor's list and, for a site-scoped tool
    and an actor without global scope, that the validated site is one of the actor's.
   */
  lemma ReachedWasListed(table: map<string, set<string>>, registry: map<string, ToolDefinition>, name: string,
                         ctx: AuthorizationContext, a: Arguments, verdict: Option<Verdict>,
                         approval: Option<bool>, world: World)
    requires Reached(Invocation(table, registry, name, ctx, a, verdict, approval, world).1)
    requires name in registry && KeepsSite(registry[name], world)
    ensures Listed(table, registry[name], ctx)
    ensures registry[name].siteField.Some? && !ctx.globalScope ==>
              var site := Site(registry[name], Authorize(table, registry[name], ctx, a, world).arguments);
              site.VStr? && site.text in ctx.siteCodes
  {
    HandlerIsAuditedAndCounted(table, registry, name, ctx, a, verdict, approval, world);
    var scoped := Scoped(registry[name], ctx, a).value;
    if registry[name].siteField.Some? && !ctx.globalScope {
      assert !Site(registry[name], scoped).VNull?;
    }
  }

  /** What the site check is for: whoever reaches the handler without global scope acts on an own site. */
  ghost predicate SiteHeld(table: map<string, set<string>>, tool: ToolDefinition, world: World) {
    forall ctx: AuthorizationContext, a, verdict, approval ::
      !ctx.globalScope && Reached(Invocation(table, map[tool.name := tool], tool.name, ctx, a, verdict, approval, world).1) ==>
        var site := Site(tool, Authorize(table, tool, ctx, a, world).arguments);
        site.VStr? && site.text in ctx.siteCodes
  }

  /** Somebody may call the tool at all. */
  ghost predicate Granting(table: map<string, set<string>>, tool: ToolDefinition) {
    exists role :: role in table && tool.permission in table[role]
  }

  /**
    A call whose site the validator drops reaches the handler for an actor without any site, when
    nothing but the site stands in its way.
   */
  lemma DroppedSiteSkipsTheScope(table: map<string, set<string>>, tool: ToolDefinition, world: World, a: Arguments)
    returns (ctx: AuthorizationContext)
    requires tool.siteField.Some? && Granting(table, tool)
    requires !Site(tool, a).VNull? && world.validate(a).Some? && Site(tool, world.validate(a).value).VNull?
    ensures !ctx.globalScope && ctx.siteCodes == {} && !Listed(table, tool, ctx)
    ensures Authorize(table, tool, ctx, a, world) == Granted(world.validate(a).value)
    ensures Reached(Invocation(table, map[tool.name := tool], tool.name, ctx, a, None, Some(true), world).1)
  {
    var role :| role in table && tool.permission in table[role];
    ctx := AuthorizationContext("", {role}, {}, false);
    assert tool.permission in Permissions(table, ctx);
    assert Scoped(tool, ctx, a) == Some(a);
    AttemptsCounted(world.handler, tool.maxRetries, 0);
    var effects := Invocation(table, map[tool.name := tool], tool.name, ctx, a, None, Some(true), world).1;
    assert effects[1].Handler?;
  }

  /** For a site-scoped tool that anybody may call, the site check holds exactly when validation keeps the site. */
  lemma SiteHeldIffKept(table: map<string, set<string>>, tool: ToolDefinition, world: World)
    requires tool.siteField.Some? && Granting(table, tool)
    ensures SiteHeld(table, tool, world) <==> KeepsSite(tool, world)
  {
    if KeepsSite(tool, world) {
      forall ctx: AuthorizationContext, a, verdict, approval |
        !ctx.globalScope && Reached(Invocation(table, map[tool.name := tool], tool.name, ctx, a, verdict, approval, world).1)
        ensures var site := Site(tool, Authorize(table, tool, ctx, a, world).arguments);
                site.VStr? && site.text in ctx.siteCodes
      {
        ReachedWasListed(table, map[tool.name := tool], tool.name, ctx, a, verdict, approval, world);
      }
    } else {
      var a: Arguments :| !Site(tool, a).VNull? && world.validate(a).Some? && Site(tool, world.validate(a).value).VNull?;
      var ctx := DroppedSiteSkipsTheScope(table, tool, world, a);
    }
  }
}
