/**
  The JSON codec of conversation evidence.

  Payloads are JSON values.  The byte size of a rendered payload and the text form of identifiers
  are foreign: a Codec supplies them, and all that is asked is that printed identifiers parse back.
 */
module EvidenceCodec {
  import opened Common

  datatype Json =
    | JNull | JBool(b: bool) | JInt(n: int) | JFloat(r: real) | JStr(s: string)
    | JArr(items: seq<Json>) | JObj(fields: map<string, Json>)

  datatype Scalar = SNull | SBool(b: bool) | SInt(n: int) | SFloat(r: real) | SStr(s: string)

  datatype Field = Field(name: string, labelText: string, value: Scalar)

  datatype Source = Source(id: string, title: string, url: string, publishedAt: Option<string>)

  datatype Item = Item(evidenceId: string, entityId: string, labelText: string, fields: seq<Field>, source: Option<Source>)

  datatype Block =
    | Collection(evidenceId: string, entityLabel: string, entityLabelPlural: string,
                 filters: seq<Field>, requestedCount: Option<int>, items: seq<Item>)
    | Mutation(evidenceId: string, entityLabel: string, entityId: string,
               previousState: Option<string>, currentState: string, changed: bool)
    | ActionRequired(evidenceId: string, action: string, reason: string)
    | Failure(evidenceId: string, code: string, message: string, retryable: bool)

  type Id = nat

  datatype Snapshot = Snapshot(
    conversationId: Id, ownerUserId: Id, exchangeId: Id, toolName: string,
    evidence: seq<Block>, createdAt: int, expiresAt: Option<int>, schemaVersion: int)

  datatype Codec = Codec(size: Json -> nat, printId: Id -> string, parseId: string -> Option<Id>)

  const SCHEMA_VERSION := 1
  const MAX_BYTES := 128_000

  ghost predicate Prints(codec: Codec) {
    forall id: Id :: codec.printId(id) != "" && codec.parseId(codec.printId(id)) == Some(id)
  }

  // ---------------------------------------------------------------------------
  // Encoding
  // ---------------------------------------------------------------------------

  function EncodeScalar(v: Scalar): Json {
    match v
    case SNull => JNull
    case SBool(b) => JBool(b)
    case SInt(n) => JInt(n)
    case SFloat(r) => JFloat(r)
    case SStr(s) => JStr(s)
  }

  function EncodeField(f: Field): Json {
    JObj(map["name" := JStr(f.name), "label" := JStr(f.labelText), "value" := EncodeScalar(f.value)])
  }

  function EncodeFields(fs: seq<Field>): seq<Json> {
    if fs == [] then [] else [EncodeField(fs[0])] + EncodeFields(fs[1..])
  }

  /** An item's source reference is not written. */
  function EncodeItem(i: Item): Json {
    JObj(map["evidence_id" := JStr(i.evidenceId), "entity_id" := JStr(i.entityId),
             "label" := JStr(i.labelText), "fields" := JArr(EncodeFields(i.fields))])
  }

  function EncodeItems(xs: seq<Item>): seq<Json> {
    if xs == [] then [] else [EncodeItem(xs[0])] + EncodeItems(xs[1..])
  }

  function EncodeBlock(b: Block): Json {
    match b
    case Collection(id, labelText, plural, filters, count, items) =>
      JObj(map["type" := JStr("collection"), "evidence_id" := JStr(id), "entity_label" := JStr(labelText),
               "entity_label_plural" := JStr(plural), "filters" := JArr(EncodeFields(filters)),
               "requested_count" := if count.Some? then JInt(count.value) else JNull,
               "items" := JArr(EncodeItems(items))])
    case Mutation(id, labelText, entity, previous, current, changed) =>
      JObj(map["type" := JStr("mutation"), "evidence_id" := JStr(id), "entity_label" := JStr(labelText),
               "entity_id" := JStr(entity),
               "previous_state" := if previous.Some? then JStr(previous.value) else JNull,
               "current_state" := JStr(current), "changed" := JBool(changed)])
    case ActionRequired(id, action, reason) =>
      JObj(map["type" := JStr("action_required"), "evidence_id" := JStr(id),
               "action" := JStr(action), "reason" := JStr(reason)])
    case Failure(id, code, message, retryable) =>
      JObj(map["type" := JStr("failure"), "evidence_id" := JStr(id), "code" := JStr(code),
               "message" := JStr(message), "retryable" := JBool(retryable)])
  }

  function EncodeBlocks(bs: seq<Block>): seq<Json> {
    if bs == [] then [] else [EncodeBlock(bs[0])] + EncodeBlocks(bs[1..])
  }

  function Payload(codec: Codec, s: Snapshot): Json {
    JObj(map["schema_version" := JInt(s.schemaVersion), "exchange_id" := JStr(codec.printId(s.exchangeId)),
             "tool_name" := JStr(s.toolName), "evidence" := JArr(EncodeBlocks(s.evidence))])
  }

  function ToJson(codec: Codec, s: Snapshot): Result<Json, string> {
    if s.schemaVersion != SCHEMA_VERSION then Err("unsupported evidence schema version")
    else if codec.size(Payload(codec, s)) > MAX_BYTES then Err("evidence payload exceeds size limit")
    else Ok(Payload(codec, s))
  }

  // ---------------------------------------------------------------------------
  // Decoding
  // ---------------------------------------------------------------------------

  function Get(m: map<string, Json>, name: string, default: Json): Json {
    if name in m then m[name] else default
  }

  function RequiredString(m: map<string, Json>, name: string): Option<string> {
    match Get(m, name, JNull)
    case JStr(s) => if s != "" then Some(s) else None
    case _ => None
  }

  function DecodeScalar(j: Json): Option<Scalar> {
    match j
    case JNull => Some(SNull)
    case JBool(b) => Some(SBool(b))
    case JInt(n) => Some(SInt(n))
    case JFloat(r) => Some(SFloat(r))
    case JStr(s) => Some(SStr(s))
    case _ => None
  }

  function DecodeField(j: Json): Option<Field> {
    if !j.JObj? then None
    else
      var value := DecodeScalar(Get(j.fields, "value", JNull));
      var name, labelText := RequiredString(j.fields, "name"), RequiredString(j.fields, "label");
      if value.Some? && name.Some? && labelText.Some? then Some(Field(name.value, labelText.value, value.value)) else None
  }

  function DecodeFields(js: seq<Json>): Option<seq<Field>> {
    if js == [] then Some([])
    else
      var first, rest := DecodeField(js[0]), DecodeFields(js[1..]);
      if first.Some? && rest.Some? then Some([first.value] + rest.value) else None
  }

  function DecodeItem(j: Json): Option<Item> {
    if !j.JObj? then None
    else
      var raw := Get(j.fields, "fields", JArr([]));
      if !raw.JArr? then None
      else
        var id, entity := RequiredString(j.fields, "evidence_id"), RequiredString(j.fields, "entity_id");
        var labelText, fields := RequiredString(j.fields, "label"), DecodeFields(raw.items);
        if id.Some? && entity.Some? && labelText.Some? && fields.Some?
        then Some(Item(id.value, entity.value, labelText.value, fields.value, None)) else None
  }

  function DecodeItems(js: seq<Json>): Option<seq<Item>> {
    if js == [] then Some([])
    else
      var first, rest := DecodeItem(js[0]), DecodeItems(js[1..]);
      if first.Some? && rest.Some? then Some([first.value] + rest.value) else None
  }

  function DecodeCollection(m: map<string, Json>): Option<Block> {
    var filters, items, count := Get(m, "filters", JArr([])), Get(m, "items", JArr([])), Get(m, "requested_count", JNull);
    if !filters.JArr? || !items.JArr? || !(count.JNull? || count.JInt?) then None
    else
      var id, labelText := RequiredString(m, "evidence_id"), RequiredString(m, "entity_label");
      var plural := RequiredString(m, "entity_label_plural");
      var fs, xs := DecodeFields(filters.items), DecodeItems(items.items);
      if id.Some? && labelText.Some? && plural.Some? && fs.Some? && xs.Some?
      then Some(Collection(id.value, labelText.value, plural.value, fs.value,
                           if count.JInt? then Some(count.n) else None, xs.value))
      else None
  }

  function DecodeMutation(m: map<string, Json>): Option<Block> {
    var id, labelText := RequiredString(m, "evidence_id"), RequiredString(m, "entity_label");
    var entity, current := RequiredString(m, "entity_id"), RequiredString(m, "current_state");
    var previous, changed := Get(m, "previous_state", JNull), Get(m, "changed", JNull);
    if id.Some? && labelText.Some? && entity.Some? && current.Some?
       && (previous.JNull? || previous.JStr?) && changed.JBool?
    then Some(Mutation(id.value, labelText.value, entity.value,
                       if previous.JStr? then Some(previous.s) else None, current.value, changed.b))
    else None
  }

  function DecodeAction(m: map<string, Json>): Option<Block> {
    var id, action, reason := RequiredString(m, "evidence_id"), RequiredString(m, "action"), RequiredString(m, "reason");
    if id.Some? && action.Some? && reason.Some? then Some(ActionRequired(id.value, action.value, reason.value)) else None
  }

  function DecodeFailure(m: map<string, Json>): Option<Block> {
    var id, code, message := RequiredString(m, "evidence_id"), RequiredString(m, "code"), RequiredString(m, "message");
    var retryable := Get(m, "retryable", JNull);
    if id.Some? && code.Some? && message.Some? && retryable.JBool?
    then Some(Failure(id.value, code.value, message.value, retryable.b)) else None
  }

  function DecodeBlock(j: Json): Option<Block> {
    if !j.JObj? then None
    else
      var kind := RequiredString(j.fields, "type");
      if kind == Some("collection") then DecodeCollection(j.fields)
      else if kind == Some("mutation") then DecodeMutation(j.fields)
      else if kind == Some("action_required") then DecodeAction(j.fields)
      else if kind == Some("failure") then DecodeFailure(j.fields)
      else None
  }

  function DecodeBlocks(js: seq<Json>): Option<seq<Block>> {
    if js == [] then Some([])
    else
      var first, rest := DecodeBlock(js[0]), DecodeBlocks(js[1..]);
      if first.Some? && rest.Some? then Some([first.value] + rest.value) else None
  }

  /** Equality with the integer 1 as the interpreter sees it. */
  predicate IsSchemaVersion(j: Json) {
    j == JInt(SCHEMA_VERSION) || j == JBool(true) || j == JFloat(1.0)
  }

  function FromJson(codec: Codec, conversationId: Id, ownerUserId: Id, createdAt: int, expiresAt: Option<int>, payload: Json)
    : Option<Snapshot>
  {
    if !payload.JObj? then None
    else
      var m := payload.fields;
      var raw, exchange, tool := Get(m, "evidence", JNull), RequiredString(m, "exchange_id"), RequiredString(m, "tool_name");
      if !IsSchemaVersion(Get(m, "schema_version", JNull)) || !raw.JArr? || exchange.None? || tool.None? then None
      else
        var id, blocks := codec.parseId(exchange.value), DecodeBlocks(raw.items);
        if id.None? || blocks.None? then None
        else
          var s := Snapshot(conversationId, ownerUserId, id.value, tool.value, blocks.value,
                            createdAt, expiresAt, SCHEMA_VERSION);
          if ToJson(codec, s).Err? then None else Some(s)
  }

  // ---------------------------------------------------------------------------
  // Round trips
  // ---------------------------------------------------------------------------

  predicate FieldOk(f: Field) {
    f.name != "" && f.labelText != ""
  }

  predicate FieldsOk(fs: seq<Field>) {
    forall i | 0 <= i < |fs| :: FieldOk(fs[i])
  }

  predicate ItemOk(x: Item) {
    x.evidenceId != "" && x.entityId != "" && x.labelText != "" && FieldsOk(x.fields) && x.source.None?
  }

  predicate ItemsOk(xs: seq<Item>) {
    forall i | 0 <= i < |xs| :: ItemOk(xs[i])
  }

  /** Required strings are there and no item carries a source. */
  predicate BlockOk(b: Block) {
    b.evidenceId != "" &&
    match b
    case Collection(_, labelText, plural, filters, _, items) => labelText != "" && plural != "" && FieldsOk(filters) && ItemsOk(items)
    case Mutation(_, labelText, entity, _, current, _) => labelText != "" && entity != "" && current != ""
    case ActionRequired(_, action, reason) => action != "" && reason != ""
    case Failure(_, code, message, _) => code != "" && message != ""
  }

  predicate BlocksOk(bs: seq<Block>) {
    forall i | 0 <= i < |bs| :: BlockOk(bs[i])
  }

  lemma FieldRoundTrip(f: Field)
    ensures DecodeField(EncodeField(f)) == if FieldOk(f) then Some(f) else None
  {
  }

  lemma {:induction false} FieldsRoundTrip(fs: seq<Field>)
    ensures DecodeFields(EncodeFields(fs)) == if FieldsOk(fs) then Some(fs) else None
  {
    if fs != [] {
      FieldRoundTrip(fs[0]);
      FieldsRoundTrip(fs[1..]);
      assert fs == [fs[0]] + fs[1..];
      assert EncodeFields(fs)[1..] == EncodeFields(fs[1..]);
    }
  }

  lemma ItemRoundTrip(x: Item)
    ensures DecodeItem(EncodeItem(x)) == Some(x) <==> ItemOk(x)
  {
    FieldsRoundTrip(x.fields);
  }

  lemma {:induction false} ItemsRoundTrip(xs: seq<Item>)
    ensures DecodeItems(EncodeItems(xs)) == Some(xs) <==> ItemsOk(xs)
  {
    if xs != [] {
      ItemRoundTrip(xs[0]);
      ItemsRoundTrip(xs[1..]);
      assert xs == [xs[0]] + xs[1..];
      assert EncodeItems(xs)[1..] == EncodeItems(xs[1..]);
      var first, rest := DecodeItem(EncodeItem(xs[0])), DecodeItems(EncodeItems(xs[1..]));
      if DecodeItems(EncodeItems(xs)) == Some(xs) {
        assert ([first.value] + rest.value)[1..] == rest.value;
      }
    }
  }

  lemma CollectionDecodes(m: map<string, Json>, b: Block)
    requires b.Collection?
    requires Get(m, "evidence_id", JNull) == JStr(b.evidenceId)
    requires Get(m, "entity_label", JNull) == JStr(b.entityLabel)
    requires Get(m, "entity_label_plural", JNull) == JStr(b.entityLabelPlural)
    requires Get(m, "filters", JArr([])) == JArr(EncodeFields(b.filters))
    requires Get(m, "items", JArr([])) == JArr(EncodeItems(b.items))
    requires Get(m, "requested_count", JNull) == if b.requestedCount.Some? then JInt(b.requestedCount.value) else JNull
    ensures DecodeCollection(m) == Some(b) <==> BlockOk(b)
  {
    FieldsRoundTrip(b.filters);
    ItemsRoundTrip(b.items);
    assert RequiredString(m, "evidence_id") == if b.evidenceId != "" then Some(b.evidenceId) else None;
    assert RequiredString(m, "entity_label") == if b.entityLabel != "" then Some(b.entityLabel) else None;
    assert RequiredString(m, "entity_label_plural") == if b.entityLabelPlural != "" then Some(b.entityLabelPlural) else None;
  }

  lemma CollectionHead(b: Block)
    requires b.Collection?
    ensures var m := EncodeBlock(b).fields;
            && m["type"] == JStr("collection") && m["evidence_id"] == JStr(b.evidenceId)
            && m["entity_label"] == JStr(b.entityLabel) && m["entity_label_plural"] == JStr(b.entityLabelPlural)
  {
  }

  lemma CollectionTail(b: Block)
    requires b.Collection?
    ensures var m := EncodeBlock(b).fields;
            && m["filters"] == JArr(EncodeFields(b.filters)) && m["items"] == JArr(EncodeItems(b.items))
            && m["requested_count"] == if b.requestedCount.Some? then JInt(b.requestedCount.value) else JNull
  {
  }

  lemma IsCollection(m: map<string, Json>)
    requires "type" in m && m["type"] == JStr("collection")
    ensures DecodeBlock(JObj(m)) == DecodeCollection(m)
  {
  }

  lemma CollectionRoundTrip(b: Block)
    requires b.Collection?
    ensures DecodeBlock(EncodeBlock(b)) == Some(b) <==> BlockOk(b)
  {
    var m := EncodeBlock(b).fields;
    CollectionHead(b);
    CollectionTail(b);
    IsCollection(m);
    CollectionDecodes(m, b);
  }

  lemma MutationRoundTrip(b: Block)
    requires b.Mutation?
    ensures DecodeBlock(EncodeBlock(b)) == Some(b) <==> BlockOk(b)
  {
    assert DecodeBlock(EncodeBlock(b)) == DecodeMutation(EncodeBlock(b).fields);
  }

  lemma ActionRequiredRoundTrip(b: Block)
    requires b.ActionRequired?
    ensures DecodeBlock(EncodeBlock(b)) == Some(b) <==> BlockOk(b)
  {
    assert DecodeBlock(EncodeBlock(b)) == DecodeAction(EncodeBlock(b).fields);
  }

  lemma FailureRoundTrip(b: Block)
    requires b.Failure?
    ensures DecodeBlock(EncodeBlock(b)) == Some(b) <==> BlockOk(b)
  {
    assert DecodeBlock(EncodeBlock(b)) == DecodeFailure(EncodeBlock(b).fields);
  }

  lemma BlockRoundTrip(b: Block)
    ensures DecodeBlock(EncodeBlock(b)) == Some(b) <==> BlockOk(b)
  {
    match b
    case Collection(_, _, _, _, _, _) => CollectionRoundTrip(b);
    case Mutation(_, _, _, _, _, _) => MutationRoundTrip(b);
    case ActionRequired(_, _, _) => ActionRequiredRoundTrip(b);
    case Failure(_, _, _, _) => FailureRoundTrip(b);
  }

  lemma {:induction false} BlocksRoundTrip(bs: seq<Block>)
    ensures DecodeBlocks(EncodeBlocks(bs)) == Some(bs) <==> BlocksOk(bs)
  {
    if bs != [] {
      BlockRoundTrip(bs[0]);
      BlocksRoundTrip(bs[1..]);
      assert bs == [bs[0]] + bs[1..];
      assert EncodeBlocks(bs)[1..] == EncodeBlocks(bs[1..]);
      var first, rest := DecodeBlock(EncodeBlock(bs[0])), DecodeBlocks(EncodeBlocks(bs[1..]));
      if DecodeBlocks(EncodeBlocks(bs)) == Some(bs) {
        assert ([first.value] + rest.value)[1..] == rest.value;
      }
    }
  }

  function Decoded(codec: Codec, s: Snapshot, payload: Json): Option<Snapshot> {
    FromJson(codec, s.conversationId, s.ownerUserId, s.createdAt, s.expiresAt, payload)
  }

  /**
    A snapshot the encoder accepts comes back unchanged exactly when its required strings are not
    empty and none of its items carries a source; the second size check never gets in the way.
   */
  lemma SnapshotRoundTrip(codec: Codec, s: Snapshot)
    requires Prints(codec) && ToJson(codec, s).Ok?
    ensures Decoded(codec, s, ToJson(codec, s).value) == Some(s) <==> s.toolName != "" && BlocksOk(s.evidence)
  {
    BlocksRoundTrip(s.evidence);
    assert codec.printId(s.exchangeId) != "" && codec.parseId(codec.printId(s.exchangeId)) == Some(s.exchangeId);
  }

  lemma {:induction false} DecodedFieldsOk(js: seq<Json>)
    requires DecodeFields(js).Some?
    ensures FieldsOk(DecodeFields(js).value)
  {
    if js != [] {
      DecodedFieldsOk(js[1..]);
    }
  }

  lemma {:induction false} DecodedItemsOk(js: seq<Json>)
    requires DecodeItems(js).Some?
    ensures ItemsOk(DecodeItems(js).value)
  {
    if js != [] {
      DecodedItemsOk(js[1..]);
      DecodedFieldsOk(Get(js[0].fields, "fields", JArr([])).items);
    }
  }

  lemma DecodedBlockOk(j: Json)
    requires DecodeBlock(j).Some?
    ensures BlockOk(DecodeBlock(j).value)
  {
    if RequiredString(j.fields, "type") == Some("collection") {
      DecodedFieldsOk(Get(j.fields, "filters", JArr([])).items);
      DecodedItemsOk(Get(j.fields, "items", JArr([])).items);
    }
  }

  lemma {:induction false} DecodedBlocksOk(js: seq<Json>)
    requires DecodeBlocks(js).Some?
    ensures BlocksOk(DecodeBlocks(js).value)
  {
    if js != [] {
      DecodedBlockOk(js[0]);
      DecodedBlocksOk(js[1..]);
    }
  }

  /**
    Re-encoding an accepted payload is a normal form: the encoder accepts what the decoder returned,
    and decoding that again returns the same snapshot, whatever the payload looked like.
   */
  lemma ReencodingIsNormalForm(codec: Codec, conversationId: Id, ownerUserId: Id, createdAt: int,
                               expiresAt: Option<int>, payload: Json)
    requires Prints(codec) && FromJson(codec, conversationId, ownerUserId, createdAt, expiresAt, payload).Some?
    ensures var s := FromJson(codec, conversationId, ownerUserId, createdAt, expiresAt, payload).value;
            ToJson(codec, s).Ok? && Decoded(codec, s, ToJson(codec, s).value) == Some(s)
  {
    var s := FromJson(codec, conversationId, ownerUserId, createdAt, expiresAt, payload).value;
    DecodedBlocksOk(payload.fields["evidence"].items);
    SnapshotRoundTrip(codec, s);
  }

  // ---------------------------------------------------------------------------
  // What is accepted
  // ---------------------------------------------------------------------------

  predicate HasText(m: map<string, Json>, name: string) {
    name in m && m[name].JStr? && m[name].s != ""
  }

  /** Absent, or a list. */
  predicate MayHaveList(m: map<string, Json>, name: string) {
    name !in m || m[name].JArr?
  }

  function ListOf(m: map<string, Json>, name: string): seq<Json>
    requires MayHaveList(m, name)
  {
    if name in m then m[name].items else []
  }

  predicate FieldShaped(j: Json) {
    && j.JObj? && HasText(j.fields, "name") && HasText(j.fields, "label")
    && ("value" in j.fields ==> !j.fields["value"].JArr? && !j.fields["value"].JObj?)
  }

  ghost predicate FieldsShaped(js: seq<Json>) {
    forall j | j in js :: FieldShaped(j)
  }

  ghost predicate ItemShaped(j: Json) {
    && j.JObj? && HasText(j.fields, "evidence_id") && HasText(j.fields, "entity_id") && HasText(j.fields, "label")
    && MayHaveList(j.fields, "fields") && FieldsShaped(ListOf(j.fields, "fields"))
  }

  ghost predicate ItemsShaped(js: seq<Json>) {
    forall j | j in js :: ItemShaped(j)
  }

  ghost predicate CollectionShaped(m: map<string, Json>) {
    && HasText(m, "entity_label") && HasText(m, "entity_label_plural")
    && ("requested_count" in m ==> m["requested_count"].JNull? || m["requested_count"].JInt?)
    && MayHaveList(m, "filters") && FieldsShaped(ListOf(m, "filters"))
    && MayHaveList(m, "items") && ItemsShaped(ListOf(m, "items"))
  }

  predicate MutationShaped(m: map<string, Json>) {
    && HasText(m, "entity_label") && HasText(m, "entity_id") && HasText(m, "current_state")
    && ("previous_state" in m ==> m["previous_state"].JNull? || m["previous_state"].JStr?)
    && "changed" in m && m["changed"].JBool?
  }

  /** A block names its kind and its identifier and has what its kind demands, each of the right type. */
  ghost predicate BlockShaped(j: Json) {
    j.JObj? && var m := j.fields;
    && HasText(m, "type") && HasText(m, "evidence_id")
    && (|| (m["type"].s == "collection" && CollectionShaped(m))
        || (m["type"].s == "mutation" && MutationShaped(m))
        || (m["type"].s == "action_required" && HasText(m, "action") && HasText(m, "reason"))
        || (m["type"].s == "failure" && HasText(m, "code") && HasText(m, "message") && "retryable" in m && m["retryable"].JBool?))
  }

  lemma {:induction false} FieldsDecode(js: seq<Json>)
    ensures DecodeFields(js).Some? <==> FieldsShaped(js)
  {
    if js != [] {
      FieldsDecode(js[1..]);
      assert js == [js[0]] + js[1..];
      assert DecodeField(js[0]).Some? <==> FieldShaped(js[0]);
    }
  }

  lemma ItemDecodes(j: Json)
    ensures DecodeItem(j).Some? <==> ItemShaped(j)
  {
    if j.JObj? && MayHaveList(j.fields, "fields") {
      FieldsDecode(ListOf(j.fields, "fields"));
    }
  }

  lemma {:induction false} ItemsDecode(js: seq<Json>)
    ensures DecodeItems(js).Some? <==> ItemsShaped(js)
  {
    if js != [] {
      ItemDecodes(js[0]);
      ItemsDecode(js[1..]);
      assert js == [js[0]] + js[1..];
    }
  }

  lemma CollectionDecodesShaped(m: map<string, Json>)
    ensures DecodeCollection(m).Some? <==> HasText(m, "evidence_id") && CollectionShaped(m)
  {
    if MayHaveList(m, "filters") && MayHaveList(m, "items") {
      FieldsDecode(ListOf(m, "filters"));
      ItemsDecode(ListOf(m, "items"));
    }
  }

  lemma OthersDecodeShaped(m: map<string, Json>)
    ensures DecodeMutation(m).Some? <==> HasText(m, "evidence_id") && MutationShaped(m)
    ensures DecodeAction(m).Some? <==> HasText(m, "evidence_id") && HasText(m, "action") && HasText(m, "reason")
    ensures DecodeFailure(m).Some? <==>
              HasText(m, "evidence_id") && HasText(m, "code") && HasText(m, "message") && "retryable" in m && m["retryable"].JBool?
  {
  }

  lemma BlockDecodes(j: Json)
    ensures DecodeBlock(j).Some? <==> BlockShaped(j)
  {
    if j.JObj? && HasText(j.fields, "type") {
      CollectionDecodesShaped(j.fields);
      OthersDecodeShaped(j.fields);
      var kind := j.fields["type"].s;
      assert |"collection"| == 10 && |"mutation"| == 8 && |"action_required"| == 15 && |"failure"| == 7;
      assert RequiredString(j.fields, "type") == Some(kind);
    }
  }

  lemma {:induction false} BlocksDecode(js: seq<Json>)
    ensures DecodeBlocks(js).Some? <==> forall j | j in js :: BlockShaped(j)
  {
    if js != [] {
      BlockDecodes(js[0]);
      BlocksDecode(js[1..]);
      assert js == [js[0]] + js[1..];
    }
  }

  /** The encoder accepts exactly snapshots of version 1 whose rendered payload has at most 128 000 bytes. */
  lemma EncoderAcceptsExactly(codec: Codec, s: Snapshot)
    ensures ToJson(codec, s).Ok? <==> s.schemaVersion == 1 && codec.size(Payload(codec, s)) <= 128_000
  {
  }

  /**
    The decoder accepts exactly an object that says version 1 (as the interpreter compares it), an
    exchange identifier that parses, a tool name and a list of well-shaped blocks, if what it decodes
    to is not too large to be written again.
   */
  lemma DecoderAcceptsExactly(codec: Codec, conversationId: Id, ownerUserId: Id, createdAt: int,
                              expiresAt: Option<int>, payload: Json)
    ensures FromJson(codec, conversationId, ownerUserId, createdAt, expiresAt, payload).Some? <==>
              payload.JObj? && var m := payload.fields;
              && "schema_version" in m && m["schema_version"] in {JInt(1), JBool(true), JFloat(1.0)}
              && HasText(m, "exchange_id") && codec.parseId(m["exchange_id"].s).Some?
              && HasText(m, "tool_name")
              && "evidence" in m && m["evidence"].JArr? && (forall j | j in m["evidence"].items :: BlockShaped(j))
              && (DecodeBlocks(m["evidence"].items).Some? ==>
                    codec.size(Payload(codec, Snapshot(conversationId, ownerUserId, codec.parseId(m["exchange_id"].s).value,
                                                       m["tool_name"].s, DecodeBlocks(m["evidence"].items).value,
                                                       createdAt, expiresAt, 1))) <= 128_000)
  {
    if payload.JObj? && "evidence" in payload.fields && payload.fields["evidence"].JArr? {
      BlocksDecode(payload.fields["evidence"].items);
    }
  }
}
