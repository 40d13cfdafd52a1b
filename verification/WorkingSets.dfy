/** The conversation's working set of referenced entities and the reducer that merges updates into it. */
module WorkingSets {
  import opened Common
  import opened Batches
  import opened Intent

  const MAX_ENTITIES := 32

  datatype Entity = Entity(kind: string, identifier: string)

  datatype WorkingSet = WorkingSet(activeIntent: Option<string>, entities: seq<Entity>)

  const ENTITY_FIELDS := {
    "asset_code", "asset_id", "part_code", "part_id",
    "site_code", "ticket_id", "work_order_code", "work_order_id"}

  function Merge(current: WorkingSet, update: WorkingSet): WorkingSet {
    WorkingSet(
      if update.activeIntent.Some? && update.activeIntent.value != "" then update.activeIntent else current.activeIntent,
      Last(Distinctly(current.entities + update.entities), MAX_ENTITIES))
  }

  function EntitiesOf(payload: Payload): seq<Entity> {
    if payload == [] then []
    else
      var (field, value) := payload[|payload| - 1];
      EntitiesOf(payload[..|payload| - 1]) +
      if field in ENTITY_FIELDS && value.VStr? && 0 < |value.text| <= 128
      then [Entity(field, value.text)] else []
  }

  /** Entities are distinct and at most 32. */
  ghost predicate Bounded(ws: WorkingSet) {
    Distinct(ws.entities) && |ws.entities| <= 32
  }

  /** Adding entities that are already there changes nothing. */
  lemma {:induction false} DistinctlyAbsorbs(s: seq<Entity>, t: seq<Entity>)
    requires Distinct(s) && forall e | e in t :: e in s
    ensures Distinctly(s + t) == s
  {
    if t != [] {
      var last := t[|t| - 1];
      assert (s + t)[..|s + t| - 1] == s + t[..|t| - 1];
      assert last in t;
      assert forall e | e in t[..|t| - 1] :: e in t;
      DistinctlyAbsorbs(s, t[..|t| - 1]);
    } else if s != [] {
      assert s + t == s;
      var front := s[..|s| - 1];
      DistinctlyAbsorbs(front, []);
      assert front + [] == front;
      assert s[|s| - 1] !in front;
    }
  }

  /** Every merge is bounded and invents no entity. */
  lemma MergeIsBounded(current: WorkingSet, update: WorkingSet)
    ensures Bounded(Merge(current, update))
    ensures forall e | e in Merge(current, update).entities :: e in current.entities || e in update.entities
  {
    var all := Distinctly(current.entities + update.entities);
    DistinctlyKeepsMembers(current.entities + update.entities);
    forall e | e in Last(all, MAX_ENTITIES) ensures e in current.entities || e in update.entities {
      assert e in all;
    }
  }

  /** Re-emitting the entity list, or an empty one, leaves a bounded working set's entities alone. */
  lemma RemergeKeepsEntities(ws: WorkingSet, update: WorkingSet)
    requires Bounded(ws) && (forall e | e in update.entities :: e in ws.entities)
    ensures Merge(ws, update).entities == ws.entities
  {
    DistinctlyAbsorbs(ws.entities, update.entities);
  }

  /** An observed payload's entities all survive its merge when they fit, the newest never dropped first. */
  lemma ObservedEntitySurvives(ws: WorkingSet, update: WorkingSet, e: Entity)
    requires Bounded(ws) && e in update.entities && e !in ws.entities && |update.entities| <= 32
    ensures e in Merge(ws, update).entities
  {
    var s := ws.entities;
    DistinctlyExtends(s, update.entities);
    DistinctlyKeepsMembers(s + update.entities);
    var all := Distinctly(s + update.entities);
    assert e in s + update.entities && e in all;
    var i :| 0 <= i < |all| && all[i] == e;
    assert forall j | 0 <= j < |s| :: all[j] == s[j];
    assert Merge(ws, update).entities == Last(all, MAX_ENTITIES);
    if |all| > MAX_ENTITIES {
      assert Last(all, MAX_ENTITIES)[i - (|all| - MAX_ENTITIES)] == e;
    }
  }

  lemma {:induction false} DistinctlyExtends(s: seq<Entity>, t: seq<Entity>)
    requires Distinct(s)
    ensures s <= Distinctly(s + t) && |Distinctly(s + t)| <= |s| + |t|
  {
    if t == [] {
      DistinctlyAbsorbs(s, []);
    } else {
      assert (s + t)[..|s + t| - 1] == s + t[..|t| - 1];
      DistinctlyExtends(s, t[..|t| - 1]);
    }
  }

  /** The extracted entities are exactly the payload's text entries of the known fields with 1 to 128 characters. */
  lemma {:induction false} EntitiesAreThoseOfPayload(payload: Payload, e: Entity)
    ensures e in EntitiesOf(payload) <==>
              && e.kind in ["asset_code", "asset_id", "part_code", "part_id",
                            "site_code", "ticket_id", "work_order_code", "work_order_id"]
              && 1 <= |e.identifier| <= 128
              && (e.kind, VStr(e.identifier)) in payload
  {
    if payload != [] {
      var front, entry := payload[..|payload| - 1], payload[|payload| - 1];
      EntitiesAreThoseOfPayload(front, e);
      assert payload == front + [entry];
      assert EntitiesOf(payload) == EntitiesOf(front) + EntitiesOf([entry]) by {
        assert [entry][..0] == [];
      }
      assert e in EntitiesOf([entry]) <==>
        entry == (e.kind, VStr(e.identifier)) && e.kind in ENTITY_FIELDS && 1 <= |e.identifier| <= 128;
    }
  }
}
