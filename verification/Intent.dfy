/**
  Deterministic intents and the semantic check of planned tool calls.

  A query is what its patterns say about it: every regular expression of the two source files is
  one field, so the results hold for all texts.  Canonical forms of entity values (case, status
  spelling, identifiers) are an arbitrary function.
 */
module Intent {
  import opened Common

  datatype Value = VNull | VStr(text: string) | VInt(n: int) | VFloat(r: real) | VBool(b: bool) | VOther(tag: nat)

  type Payload = seq<(string, Value)>

  datatype Query = Query(
    noTool: bool,
    informational: bool,
    dueSchedule: bool,
    spareParts: bool,
    maintenanceTickets: bool,
    assetStatus: bool,
    workOrders: bool,
    retrieval: bool,
    site: Option<string>,
    limit: Option<int>,
    status: Option<string>,
    workOrderCode: Option<string>,
    workOrderId: Option<string>,
    workOrderMutation: bool,
    targetStatus: Option<string>)

  datatype Intention =
    | DirectResponse | ListWorkOrders | GetAssetStatus
    | ListMaintenanceTickets | CheckSpareParts | GetProductionSchedule

  datatype Resolution = Resolution(intent: Intention, toolName: Option<string>, payload: Payload)

  datatype Tool = Tool(name: string, siteField: Option<string>, isMutating: bool)

  datatype Reason =
    | ToolNotRequested | ToolMismatch | EntityMissing | EntityMismatch
    | UnexpectedEntity | MutationNotExplicit | MutationNotSupported

  datatype SemanticResult = Allowed | Rejected(reason: Reason)

  /** `payload.get(field)`: null when the field is absent. */
  function Get(payload: Payload, field: string): Value {
    if payload == [] then VNull
    else if payload[|payload| - 1].0 == field then payload[|payload| - 1].1
    else Get(payload[..|payload| - 1], field)
  }

  predicate Has(payload: Payload, field: string) {
    exists i :: 0 <= i < |payload| && payload[i].0 == field
  }

  /** Equality of scalars as the interpreter sees it: booleans and floats equal the integers they denote. */
  function Number(v: Value): Option<real> {
    match v
    case VInt(n) => Some(n as real)
    case VFloat(r) => Some(r)
    case VBool(b) => Some(if b then 1.0 else 0.0)
    case _ => None
  }

  predicate Same(a: Value, b: Value) {
    a == b || (Number(a).Some? && Number(a) == Number(b))
  }

  // ---------------------------------------------------------------------------
  // Resolving an intent
  // ---------------------------------------------------------------------------

  function SitePayload(q: Query): Payload {
    if q.site.None? then [] else [("site_code", VStr(q.site.value))]
  }

  function CommonPayload(q: Query): Payload {
    SitePayload(q) +
    (if q.limit.Some? && 1 <= q.limit.value <= 100 then [("limit", VInt(q.limit.value))] else [])
  }

  function ListPayload(q: Query): Payload {
    CommonPayload(q) + if q.status.Some? then [("status", VStr(q.status.value))] else []
  }

  function Resolve(q: Query): Option<Resolution> {
    if q.noTool || q.informational then Some(Resolution(DirectResponse, None, []))
    else if q.dueSchedule then
      Some(Resolution(GetProductionSchedule, Some("get_production_schedule"), CommonPayload(q)))
    else if q.spareParts && q.retrieval then
      Some(Resolution(CheckSpareParts, Some("get_spare_parts_availability"), CommonPayload(q)))
    else if q.maintenanceTickets && q.retrieval then
      Some(Resolution(ListMaintenanceTickets, Some("get_maintenance_tickets"), CommonPayload(q)))
    else if q.assetStatus then
      Some(Resolution(GetAssetStatus, Some("get_asset_status"), SitePayload(q)))
    else if q.workOrders && q.retrieval && q.workOrderCode.None? then
      Some(Resolution(ListWorkOrders, Some("get_work_orders"), ListPayload(q)))
    else None
  }

  // ---------------------------------------------------------------------------
  // Checking a planned call
  // ---------------------------------------------------------------------------

  /** The entity fields a resolved read tool may carry. */
  function SemanticFields(toolName: string): seq<string> {
    if toolName == "get_work_orders" then ["site_code", "status", "limit"]
    else if toolName == "get_asset_status" then ["site_code"]
    else if toolName in ["get_maintenance_tickets", "get_spare_parts_availability", "get_production_schedule"]
    then ["site_code", "limit"]
    else []
  }

  predicate IsDefault(field: string, v: Value) {
    field == "limit" && Same(v, VInt(10))
  }

  function RequireMatching(canon: (string, Value) -> Value, field: string, expected: Value, actual: Payload): SemanticResult {
    if Get(actual, field).VNull? then Rejected(EntityMissing)
    else if !Same(canon(field, Get(actual, field)), canon(field, expected)) then Rejected(EntityMismatch)
    else Allowed
  }

  function ValidateField(canon: (string, Value) -> Value, field: string, expected: Payload, actual: Payload): SemanticResult {
    if Has(expected, field) then RequireMatching(canon, field, Get(expected, field), actual)
    else if Get(actual, field).VNull? || IsDefault(field, Get(actual, field)) then Allowed
    else Rejected(UnexpectedEntity)
  }

  function ValidateFields(canon: (string, Value) -> Value, fields: seq<string>, expected: Payload, actual: Payload): SemanticResult {
    if fields == [] then Allowed
    else
      var first := ValidateField(canon, fields[0], expected, actual);
      if first.Rejected? then first else ValidateFields(canon, fields[1..], expected, actual)
  }

  function ValidateMutation(canon: (string, Value) -> Value, q: Query, payload: Payload): SemanticResult {
    if !q.workOrderMutation || q.targetStatus.None? then Rejected(MutationNotExplicit)
    else
      var status := RequireMatching(canon, "target_status", VStr(q.targetStatus.value), payload);
      if status.Rejected? then status
      else if q.workOrderCode.None? && q.workOrderId.None? then Rejected(MutationNotExplicit)
      else
        var (given, other, text) :=
          if q.workOrderCode.Some? then ("work_order_code", "work_order_id", q.workOrderCode.value)
          else ("work_order_id", "work_order_code", q.workOrderId.value);
        var identity := RequireMatching(canon, given, VStr(text), payload);
        if identity.Rejected? then identity
        else if !Get(payload, other).VNull? then Rejected(UnexpectedEntity)
        else if q.site.Some? then RequireMatching(canon, "site_code", VStr(q.site.value), payload)
        else if !Get(payload, "site_code").VNull? then Rejected(UnexpectedEntity)
        else Allowed
  }

  function Validate(canon: (string, Value) -> Value, q: Query, tool: Tool, payload: Payload): SemanticResult {
    var resolution := Resolve(q);
    var resolved :=
      if resolution.None? then
        if q.site.Some? && tool.siteField.Some?
        then RequireMatching(canon, tool.siteField.value, VStr(q.site.value), payload)
        else Allowed
      else if resolution.value.toolName.None? then Rejected(ToolNotRequested)
      else if tool.name != resolution.value.toolName.value then Rejected(ToolMismatch)
      else ValidateFields(canon, SemanticFields(tool.name), resolution.value.payload, payload);
    if resolved.Rejected? then resolved
    else if !tool.isMutating then Allowed
    else if tool.name != "write_work_order_status" then Rejected(MutationNotSupported)
    else ValidateMutation(canon, q, payload)
  }

  // ---------------------------------------------------------------------------
  // What the check promises
  // ---------------------------------------------------------------------------

  lemma {:induction false} GetOfHas(payload: Payload, field: string)
    requires forall i | 0 <= i < |payload| :: payload[i].1 != VNull
    ensures Has(payload, field) <==> Get(payload, field) != VNull
  {
    if payload != [] {
      var front := payload[..|payload| - 1];
      GetOfHas(front, field);
      if Has(front, field) {
        var i :| 0 <= i < |front| && front[i].0 == field;
        assert payload[i].0 == field;
      }
    }
  }

  /** The field checks accept exactly when every entity field on the list agrees with the request. */
  lemma {:induction false} FieldsAccepted(canon: (string, Value) -> Value, fields: seq<string>, expected: Payload, actual: Payload)
    ensures ValidateFields(canon, fields, expected, actual).Allowed? <==>
      forall f | f in fields ::
        if Has(expected, f)
        then Get(actual, f) != VNull && Same(canon(f, Get(actual, f)), canon(f, Get(expected, f)))
        else Get(actual, f) == VNull || IsDefault(f, Get(actual, f))
  {
    if fields != [] {
      FieldsAccepted(canon, fields[1..], expected, actual);
      assert fields == [fields[0]] + fields[1..];
    }
  }

  /** Values compare as numbers across integers, floats and booleans, and otherwise only equal values are the same. */
  lemma SameIsEquivalence(a: Value, b: Value, c: Value)
    ensures Same(a, a) && (Same(a, b) ==> Same(b, a)) && (Same(a, b) && Same(b, c) ==> Same(a, c))
    ensures a.VInt? && b.VFloat? ==> (Same(a, b) <==> a.n as real == b.r)
    ensures a.VBool? && b.VInt? ==> (Same(a, b) <==> b.n == if a.b then 1 else 0)
    ensures a.VInt? && b.VInt? ==> (Same(a, b) <==> a.n == b.n)
    ensures a.VStr? || a.VNull? || a.VOther? ==> (Same(a, b) <==> a == b)
  {
    if a.VInt? && b.VInt? && Same(a, b) {
      assert (a.n as real).Floor == (b.n as real).Floor;
    }
  }

  ghost predicate FieldPasses(canon: (string, Value) -> Value, f: string, expected: Payload, actual: Payload) {
    if Has(expected, f)
    then Get(actual, f) != VNull && Same(canon(f, Get(actual, f)), canon(f, Get(expected, f)))
    else Get(actual, f) == VNull || IsDefault(f, Get(actual, f))
  }

  /** A rejected call names the fault of the first field at fault: left out, contradicted, or not asked for. */
  lemma {:induction false} FirstFaultIsNamed(canon: (string, Value) -> Value, fields: seq<string>, expected: Payload, actual: Payload, i: nat)
    requires i < |fields| && !FieldPasses(canon, fields[i], expected, actual)
    requires forall j | 0 <= j < i :: FieldPasses(canon, fields[j], expected, actual)
    ensures ValidateFields(canon, fields, expected, actual)
            == Rejected(if !Has(expected, fields[i]) then UnexpectedEntity
                        else if Get(actual, fields[i]) == VNull then EntityMissing
                        else EntityMismatch)
  {
    if i > 0 {
      assert FieldPasses(canon, fields[0], expected, actual);
      FirstFaultIsNamed(canon, fields[1..], expected, actual, i - 1);
    }
  }

  lemma ResolvedPayloadHasNoNulls(q: Query)
    requires Resolve(q).Some?
    ensures forall i | 0 <= i < |Resolve(q).value.payload| :: Resolve(q).value.payload[i].1 != VNull
  {
  }

  /** Only listed fields are named, and each of them holds the value read from the text, or nothing. */
  ghost predicate SaysText(q: Query, fields: seq<string>, payload: Payload) {
    && (forall i | 0 <= i < |payload| :: payload[i].0 in fields)
    && Get(payload, "site_code") == (if q.site.Some? then VStr(q.site.value) else VNull)
    && ("limit" in fields ==>
          Get(payload, "limit") ==
            if q.limit.Some? && 1 <= q.limit.value <= 100 then VInt(q.limit.value) else VNull)
    && ("status" in fields ==>
          Get(payload, "status") == if q.status.Some? then VStr(q.status.value) else VNull)
  }

  /** A resolution names no tool exactly for a direct answer, and its payload says what the text says. */
  lemma ResolutionIsFromText(q: Query)
    requires Resolve(q).Some?
    ensures Resolve(q).value.toolName.None? <==> q.noTool || q.informational
    ensures Resolve(q).value.toolName.Some? ==>
              SaysText(q, SemanticFields(Resolve(q).value.toolName.value), Resolve(q).value.payload)
  {
    var Resolution(intent, tool, payload) := Resolve(q).value;
    if tool.Some? {
      FieldsOfTools();
      if intent == ListWorkOrders {
        ListSaysText(q);
      } else if intent == GetAssetStatus {
        SiteSaysText(q);
      } else {
        CommonSaysText(q);
      }
    }
  }

  lemma FieldsOfTools()
    ensures SemanticFields("get_work_orders") == ["site_code", "status", "limit"]
    ensures SemanticFields("get_asset_status") == ["site_code"]
    ensures SemanticFields("get_maintenance_tickets") == ["site_code", "limit"]
    ensures SemanticFields("get_spare_parts_availability") == ["site_code", "limit"]
    ensures SemanticFields("get_production_schedule") == ["site_code", "limit"]
  {
  }

  lemma SiteSaysText(q: Query)
    ensures SaysText(q, ["site_code"], SitePayload(q))
  {
    SitePayloadIsFromText(q, "site_code");
  }

  lemma CommonSaysText(q: Query)
    ensures SaysText(q, ["site_code", "limit"], CommonPayload(q))
  {
    CommonPayloadIsFromText(q);
  }

  lemma ListSaysText(q: Query)
    ensures SaysText(q, ["site_code", "status", "limit"], ListPayload(q))
  {
    ListFields(q);
    ListValues(q);
  }

  lemma ListFields(q: Query)
    ensures forall i | 0 <= i < |ListPayload(q)| :: ListPayload(q)[i].0 in ["site_code", "status", "limit"]
  {
    CommonPayloadIsFromText(q);
    forall i | 0 <= i < |ListPayload(q)| ensures ListPayload(q)[i].0 in ["site_code", "status", "limit"] {
      if i < |CommonPayload(q)| {
        assert ListPayload(q)[i] == CommonPayload(q)[i];
      } else {
        assert ListPayload(q)[i].0 == "status";
      }
    }
  }

  lemma ListValues(q: Query)
    ensures Get(ListPayload(q), "site_code") == (if q.site.Some? then VStr(q.site.value) else VNull)
    ensures Get(ListPayload(q), "status") == (if q.status.Some? then VStr(q.status.value) else VNull)
    ensures Get(ListPayload(q), "limit") ==
              if q.limit.Some? && 1 <= q.limit.value <= 100 then VInt(q.limit.value) else VNull
  {
    CommonPayloadIsFromText(q);
    assert |"site_code"| == 9 && |"status"| == 6 && |"limit"| == 5;
    if q.status.Some? {
      GetAppended(CommonPayload(q), "status", VStr(q.status.value), "site_code");
      GetAppended(CommonPayload(q), "status", VStr(q.status.value), "status");
      GetAppended(CommonPayload(q), "status", VStr(q.status.value), "limit");
    } else {
      assert CommonPayload(q) + [] == CommonPayload(q);
    }
  }

  lemma GetAppended(payload: Payload, field: string, value: Value, f: string)
    ensures Get(payload + [(field, value)], f) == if f == field then value else Get(payload, f)
  {
    assert (payload + [(field, value)])[..|payload|] == payload;
  }

  lemma SitePayloadIsFromText(q: Query, f: string)
    ensures Get(SitePayload(q), f) == if f == "site_code" && q.site.Some? then VStr(q.site.value) else VNull
    ensures forall i | 0 <= i < |SitePayload(q)| :: SitePayload(q)[i].0 == "site_code"
  {
    if q.site.Some? {
      GetAppended([], "site_code", VStr(q.site.value), f);
      assert [] + [("site_code", VStr(q.site.value))] == SitePayload(q);
    }
  }

  lemma CommonPayloadGets(q: Query, f: string)
    ensures Get(CommonPayload(q), f) ==
              if f == "limit" && q.limit.Some? && 1 <= q.limit.value <= 100 then VInt(q.limit.value)
              else Get(SitePayload(q), f)
  {
    if q.limit.Some? {
      GetAppended(SitePayload(q), "limit", VInt(q.limit.value), f);
    }
    assert SitePayload(q) + [] == SitePayload(q);
  }

  lemma CommonPayloadIsFromText(q: Query)
    ensures Get(CommonPayload(q), "site_code") == (if q.site.Some? then VStr(q.site.value) else VNull)
    ensures Get(CommonPayload(q), "status") == VNull
    ensures Get(CommonPayload(q), "limit") ==
              if q.limit.Some? && 1 <= q.limit.value <= 100 then VInt(q.limit.value) else VNull
    ensures forall i | 0 <= i < |CommonPayload(q)| :: CommonPayload(q)[i].0 in ["site_code", "limit"]
  {
    assert |"site_code"| == 9 && |"status"| == 6 && |"limit"| == 5;
    SitePayloadIsFromText(q, "site_code");
    SitePayloadIsFromText(q, "status");
    SitePayloadIsFromText(q, "limit");
    CommonPayloadGets(q, "site_code");
    CommonPayloadGets(q, "status");
    CommonPayloadGets(q, "limit");
  }

  /** The plan built from a resolution's own payload passes exactly when its tool is a read tool. */
  lemma OwnPlanAccepted(canon: (string, Value) -> Value, q: Query, tool: Tool)
    requires Resolve(q).Some? && Resolve(q).value.toolName == Some(tool.name)
    ensures Validate(canon, q, tool, Resolve(q).value.payload).Allowed? <==> !tool.isMutating
  {
    var payload := Resolve(q).value.payload;
    ResolvedPayloadHasNoNulls(q);
    FieldsAccepted(canon, SemanticFields(tool.name), payload, payload);
    forall f | f in SemanticFields(tool.name) ensures Has(payload, f) <==> Get(payload, f) != VNull {
      GetOfHas(payload, f);
    }
  }

  /** Which patterns of the text lead to which tool: the first that applies, in this order of precedence. */
  lemma PatternsChooseTools(q: Query)
    ensures var direct := q.noTool || q.informational;
            var schedule := !direct && q.dueSchedule;
            var parts := !direct && !schedule && q.retrieval && q.spareParts;
            var tickets := !direct && !schedule && !parts && q.retrieval && q.maintenanceTickets;
            var assets := !direct && !schedule && !parts && !tickets && q.assetStatus;
            var orders := !direct && !schedule && !parts && !tickets && !assets && q.retrieval && q.workOrders
                          && q.workOrderCode.None?;
            && (Resolve(q).Some? <==> direct || schedule || parts || tickets || assets || orders)
            && (Resolve(q).Some? ==>
                  var tool := Resolve(q).value.toolName;
                  && (tool == None <==> direct)
                  && (tool == Some("get_production_schedule") <==> schedule)
                  && (tool == Some("get_spare_parts_availability") <==> parts)
                  && (tool == Some("get_maintenance_tickets") <==> tickets)
                  && (tool == Some("get_asset_status") <==> assets)
                  && (tool == Some("get_work_orders") <==> orders))
  {
    assert |"get_production_schedule"| == 23 && |"get_spare_parts_availability"| == 28;
    assert |"get_maintenance_tickets"| == 23 && |"get_asset_status"| == 16 && |"get_work_orders"| == 15;
    assert "get_production_schedule"[4] == 'p' && "get_maintenance_tickets"[4] == 'm';
  }

  /** The value is there and means the same as the text's. */
  ghost predicate Agrees(canon: (string, Value) -> Value, payload: Payload, field: string, expected: Value) {
    Get(payload, field) != VNull && Same(canon(field, Get(payload, field)), canon(field, expected))
  }

  /**
    A read call passes exactly when the text leaves it open and any site it names is the call's, or
    resolves to that very tool and every entity field of it agrees with the text.
   */
  lemma ReadAcceptedExactly(canon: (string, Value) -> Value, q: Query, tool: Tool, payload: Payload)
    requires !tool.isMutating
    ensures Validate(canon, q, tool, payload).Allowed? <==>
              if Resolve(q).None? then
                q.site.Some? && tool.siteField.Some? ==> Agrees(canon, payload, tool.siteField.value, VStr(q.site.value))
              else
                var expected := Resolve(q).value.payload;
                && Resolve(q).value.toolName == Some(tool.name)
                && forall f | f in SemanticFields(tool.name) ::
                     if Has(expected, f) then Agrees(canon, payload, f, Get(expected, f))
                     else Get(payload, f) == VNull || (f == "limit" && Same(Get(payload, f), VInt(10)))
  {
    if Resolve(q).Some? {
      FieldsAccepted(canon, SemanticFields(tool.name), Resolve(q).value.payload, payload);
    }
  }

  /** A planned call is rejected as not requested exactly when the query asks for a direct answer, whatever the plan. */
  lemma DirectResponseRejectsAll(canon: (string, Value) -> Value, q: Query, tool: Tool, payload: Payload)
    ensures Validate(canon, q, tool, payload) == Rejected(ToolNotRequested) <==> q.noTool || q.informational
  {
    if Resolve(q).Some? {
      FieldsAreRequested(canon, SemanticFields(tool.name), Resolve(q).value.payload, payload);
    }
  }

  lemma {:induction false} FieldsAreRequested(canon: (string, Value) -> Value, fields: seq<string>, expected: Payload, actual: Payload)
    ensures ValidateFields(canon, fields, expected, actual) != Rejected(ToolNotRequested)
  {
    if fields != [] {
      FieldsAreRequested(canon, fields[1..], expected, actual);
    }
  }

  /**
    A mutating call passes exactly on an explicit, unresolved request for the one supported write:
    status, identifier and site of the payload are those of the text, the text's code goes before
    its identifier, and nothing else is named.
   */
  lemma MutationAcceptedExactly(canon: (string, Value) -> Value, q: Query, tool: Tool, payload: Payload)
    requires tool.isMutating
    ensures Validate(canon, q, tool, payload).Allowed? <==>
              && tool.name == "write_work_order_status" && Resolve(q).None? && q.workOrderMutation
              && q.targetStatus.Some? && Agrees(canon, payload, "target_status", VStr(q.targetStatus.value))
              && (if q.workOrderCode.Some? then
                    Agrees(canon, payload, "work_order_code", VStr(q.workOrderCode.value)) && Get(payload, "work_order_id") == VNull
                  else
                    && q.workOrderId.Some?
                    && Agrees(canon, payload, "work_order_id", VStr(q.workOrderId.value)) && Get(payload, "work_order_code") == VNull)
              && (if q.site.Some? then Agrees(canon, payload, "site_code", VStr(q.site.value)) else Get(payload, "site_code") == VNull)
              && (q.site.Some? && tool.siteField.Some? ==> Agrees(canon, payload, tool.siteField.value, VStr(q.site.value)))
  {
    if Resolve(q).Some? {
      WriteIsNeverResolved(q);
    }
  }

  /** A write is rejected as not explicit exactly when the text asks for none, names no status, or names no order. */
  lemma NotExplicitIsTextual(canon: (string, Value) -> Value, q: Query, tool: Tool, payload: Payload)
    requires tool.name == "write_work_order_status" && tool.isMutating && Resolve(q).None?
    requires q.site.Some? && tool.siteField.Some? ==> Agrees(canon, payload, tool.siteField.value, VStr(q.site.value))
    ensures Validate(canon, q, tool, payload) == Rejected(MutationNotExplicit) <==>
              || !q.workOrderMutation || q.targetStatus.None?
              || (q.workOrderCode.None? && q.workOrderId.None?
                  && Agrees(canon, payload, "target_status", VStr(q.targetStatus.value)))
  {
    var result := Validate(canon, q, tool, payload);
    assert result == ValidateMutation(canon, q, payload);
  }

  lemma WriteIsNeverResolved(q: Query)
    requires Resolve(q).Some?
    ensures Resolve(q).value.toolName != Some("write_work_order_status")
  {
    assert "write_work_order_status"[0] == 'w';
  }
}
