/** The maintenance-request lifecycle as pure transitions of the two tables:
    creation with a forced initial status, the status update with its SCRAP
    side effect on equipment, and assignment. The `Store` class in module
    Server performs these transitions in place. */
module Lifecycle {
  import opened Records

  /** The equipment table and the request table, each keyed by record id. */
  datatype Tables = Tables(equipment: map<nat, Equipment>, requests: map<nat, MaintenanceRequest>)

  /** Every request is stored under its own id. */
  predicate KeyedById(requests: map<nat, MaintenanceRequest>)
  {
    forall id :: id in requests ==> requests[id].id == id
  }

  /** Every equipment record is stored under its own id. */
  predicate EquipmentKeyedById(equipment: map<nat, Equipment>)
  {
    forall id :: id in equipment ==> equipment[id].id == id
  }

  /** Rows are keyed by their ids and every request references existing equipment. */
  predicate WellFormed(t: Tables)
  {
    && KeyedById(t.requests)
    && EquipmentKeyedById(t.equipment)
    && forall id :: id in t.requests ==> t.requests[id].equipmentId in t.equipment
  }

  /** The cross-table invariant: a scrapped request's equipment is unusable. */
  predicate ScrapMeansUnusable(t: Tables)
  {
    forall id :: id in t.requests && t.requests[id].status == SCRAP ==>
      t.requests[id].equipmentId in t.equipment && t.equipment[t.requests[id].equipmentId].status == UNUSABLE
  }

  /** Nothing is deleted, and unusable equipment stays unusable. */
  predicate Monotone(before: Tables, after: Tables)
  {
    && before.requests.Keys <= after.requests.Keys
    && before.equipment.Keys <= after.equipment.Keys
    && forall id :: id in before.equipment && before.equipment[id].status == UNUSABLE ==>
         after.equipment[id].status == UNUSABLE
  }

  /** The request row after a status update: the status is written when one is
      given, the duration only when one is given, and nothing else changes. */
  function StatusWrite(r: MaintenanceRequest, status: Option<string>, duration: Option<int>): (w: MaintenanceRequest)
    ensures status.Some? ==> w.status == status.value
    ensures status.None? ==> w.status == r.status
    ensures duration.Some? ==> w.duration == duration
    ensures duration.None? ==> w.duration == r.duration
    ensures w == r.(status := w.status, duration := w.duration)
  {
    r.(status := if status.Some? then status.value else r.status,
       duration := if duration.Some? then duration else r.duration)
  }

  /** The request row after assignment: assignee set, status forced to IN_PROGRESS. */
  function AssignWrite(r: MaintenanceRequest, userId: nat): (w: MaintenanceRequest)
    ensures w.assignedToId == Some(userId) && w.status == IN_PROGRESS
    ensures w == r.(assignedToId := w.assignedToId, status := w.status)
  {
    r.(assignedToId := Some(userId), status := IN_PROGRESS)
  }

  /** The equipment table after the SCRAP side effect on equipment `id`. */
  function MarkUnusable(equipment: map<nat, Equipment>, id: nat): (e: map<nat, Equipment>)
    requires id in equipment
    ensures e.Keys == equipment.Keys
    ensures e[id] == equipment[id].(status := UNUSABLE)
    ensures forall k :: k in equipment && k != id ==> e[k] == equipment[k]
  {
    equipment[id := equipment[id].(status := UNUSABLE)]
  }

  /** Registration of new equipment under a fresh id. */
  function AfterCreateEquipment(t: Tables, id: nat, body: EquipmentBody): (t': Tables)
    requires id !in t.equipment
    ensures t'.requests == t.requests
    ensures t'.equipment == t.equipment[id := NewEquipment(id, body)]
    ensures WellFormed(t) ==> WellFormed(t')
    ensures WellFormed(t) && ScrapMeansUnusable(t) ==> ScrapMeansUnusable(t')
    ensures Monotone(t, t')
  {
    Tables(t.equipment[id := NewEquipment(id, body)], t.requests)
  }

  /** Creation of a new request under a fresh id; its status is always NEW. */
  function AfterCreateRequest(t: Tables, id: nat, body: RequestBody, now: Date): (t': Tables)
    requires id !in t.requests
    ensures t'.equipment == t.equipment
    ensures t'.requests == t.requests[id := NewRequest(id, body, now)]
    ensures t'.requests[id].status == NEW
    ensures WellFormed(t) && body.equipmentId in t.equipment ==> WellFormed(t')
    ensures ScrapMeansUnusable(t) ==> ScrapMeansUnusable(t')
    ensures Monotone(t, t')
  {
    Tables(t.equipment, t.requests[id := NewRequest(id, body, now)])
  }

  /** The status update of request `id`: first the request row, then, for
      SCRAP, the referenced equipment. */
  function AfterUpdateStatus(t: Tables, id: nat, status: Option<string>, duration: Option<int>): (t': Tables)
    requires WellFormed(t) && id in t.requests
    ensures t'.requests == t.requests[id := StatusWrite(t.requests[id], status, duration)]
    ensures status == Some(SCRAP) ==> t'.equipment == MarkUnusable(t.equipment, t.requests[id].equipmentId)
    ensures status != Some(SCRAP) ==> t'.equipment == t.equipment
    ensures WellFormed(t')
    ensures ScrapMeansUnusable(t) ==> ScrapMeansUnusable(t')
    ensures Monotone(t, t')
  {
    var requests := t.requests[id := StatusWrite(t.requests[id], status, duration)];
    if status == Some(SCRAP) then
      Tables(MarkUnusable(t.equipment, t.requests[id].equipmentId), requests)
    else
      Tables(t.equipment, requests)
  }

  /** Assignment of request `id` to user `userId`; equipment is never touched. */
  function AfterAssign(t: Tables, id: nat, userId: nat): (t': Tables)
    requires id in t.requests
    ensures t'.equipment == t.equipment
    ensures t'.requests == t.requests[id := AssignWrite(t.requests[id], userId)]
    ensures t'.requests[id].status == IN_PROGRESS
    ensures WellFormed(t) ==> WellFormed(t')
    ensures ScrapMeansUnusable(t) ==> ScrapMeansUnusable(t')
    ensures Monotone(t, t')
  {
    Tables(t.equipment, t.requests[id := AssignWrite(t.requests[id], userId)])
  }

  /** Every team and user a row references exists. */
  predicate Referenced(t: Tables, teams: set<nat>, users: set<nat>)
  {
    && (forall id :: id in t.equipment && t.equipment[id].maintenanceTeamId.Some? ==>
          t.equipment[id].maintenanceTeamId.value in teams)
    && (forall id :: id in t.requests && t.requests[id].assignedToId.Some? ==>
          t.requests[id].assignedToId.value in users)
  }

  /** A status update changes no team or user reference. */
  lemma UpdateStatusKeepsReferences(t: Tables, id: nat, status: Option<string>, duration: Option<int>, teams: set<nat>, users: set<nat>)
    requires WellFormed(t) && id in t.requests && Referenced(t, teams, users)
    ensures Referenced(AfterUpdateStatus(t, id, status, duration), teams, users)
  {
  }

  /** Marking already-unusable equipment unusable changes nothing. */
  lemma MarkUnusableAgain(equipment: map<nat, Equipment>, id: nat)
    requires id in equipment && equipment[id].status == UNUSABLE
    ensures MarkUnusable(equipment, id) == equipment
  {
  }

  /** Scrapping a request twice leaves the tables as scrapping it once. */
  lemma ScrapTwice(t: Tables, id: nat, duration: Option<int>)
    requires WellFormed(t) && id in t.requests
    ensures var once := AfterUpdateStatus(t, id, Some(SCRAP), duration);
            AfterUpdateStatus(once, id, Some(SCRAP), duration) == once
  {
    var once := AfterUpdateStatus(t, id, Some(SCRAP), duration);
    var r := once.requests[id];
    assert r.equipmentId == t.requests[id].equipmentId;
    assert StatusWrite(r, Some(SCRAP), duration) == r;
    assert once.requests[id := r] == once.requests;
    MarkUnusableAgain(once.equipment, r.equipmentId);
  }
}
