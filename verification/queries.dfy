/** The read side of the request table: the `where` filters of the request
    listing and of the equipment history, the rows they select in id order,
    the join with equipment, and the newest-first ordering of the history. */
module Queries {
  import opened Records
  import opened Lifecycle

  /** The `where` argument of a request query. */
  datatype Where =
    | AnyRequest                      // `{}`
    | OwnedByTeam(teamId: nat)        // `{ equipment: { maintenanceTeamId } }`
    | OnEquipment(equipmentId: nat)   // `{ equipmentId }`

  predicate Matches(w: Where, r: MaintenanceRequest, equipment: map<nat, Equipment>)
  {
    match w
    case AnyRequest => true
    case OwnedByTeam(t) => r.equipmentId in equipment && equipment[r.equipmentId].maintenanceTeamId == Some(t)
    case OnEquipment(e) => r.equipmentId == e
  }

  /** The listing's filter: by the owning team of the equipment when a team id
      is given, none otherwise. */
  function TeamWhere(teamId: Option<nat>): (w: Where)
    ensures forall r: MaintenanceRequest, equipment: map<nat, Equipment> :: Matches(w, r, equipment) <==>
      (teamId.None? || (r.equipmentId in equipment && equipment[r.equipmentId].maintenanceTeamId == teamId))
  {
    if teamId.Some? then OwnedByTeam(teamId.value) else AnyRequest
  }

  /** The requests with id below `n` that `w` matches, in increasing id order. */
  function Select(w: Where, requests: map<nat, MaintenanceRequest>, equipment: map<nat, Equipment>, n: nat): (s: seq<MaintenanceRequest>)
    requires KeyedById(requests)
    ensures forall k :: 0 <= k < |s| ==>
      s[k].id < n && s[k].id in requests && requests[s[k].id] == s[k] && Matches(w, s[k], equipment)
    ensures forall j, k :: 0 <= j < k < |s| ==> s[j].id < s[k].id
  {
    if n == 0 then []
    else
      var s := Select(w, requests, equipment, n - 1);
      if n - 1 in requests && Matches(w, requests[n - 1], equipment) then s + [requests[n - 1]] else s
  }

  /** Nothing matching is missed: every matching request below `n` is selected. */
  lemma {:induction false} SelectComplete(w: Where, requests: map<nat, MaintenanceRequest>, equipment: map<nat, Equipment>, n: nat, id: nat)
    requires KeyedById(requests)
    requires id in requests && id < n && Matches(w, requests[id], equipment)
    ensures requests[id] in Select(w, requests, equipment, n)
  {
    if id < n - 1 {
      SelectComplete(w, requests, equipment, n - 1, id);
    }
  }

  function EquipmentOf(equipment: map<nat, Equipment>, id: nat): (e: Option<Equipment>)
    ensures e.Some? <==> id in equipment
    ensures e.Some? ==> e.value == equipment[id]
  {
    if id in equipment then Some(equipment[id]) else None
  }

  /** Each selected request together with the equipment it references. */
  function WithEquipment(s: seq<MaintenanceRequest>, equipment: map<nat, Equipment>): (rows: seq<ListedRequest>)
    ensures |rows| == |s|
    ensures forall k :: 0 <= k < |s| ==>
      rows[k].request == s[k] && rows[k].equipment == EquipmentOf(equipment, s[k].equipmentId)
  {
    seq(|s|, k requires 0 <= k < |s| => ListedRequest(s[k], EquipmentOf(equipment, s[k].equipmentId)))
  }

  /** The listing of requests: stored requests matching the team filter, in
      id order, each joined with its equipment. */
  function Listing(t: Tables, teamId: Option<nat>, n: nat): (rows: seq<ListedRequest>)
    requires KeyedById(t.requests)
    ensures forall k :: 0 <= k < |rows| ==>
      && rows[k].request.id in t.requests && t.requests[rows[k].request.id] == rows[k].request
      && Matches(TeamWhere(teamId), rows[k].request, t.equipment)
      && rows[k].equipment == EquipmentOf(t.equipment, rows[k].request.equipmentId)
    ensures forall j, k :: 0 <= j < k < |rows| ==> rows[j].request.id < rows[k].request.id
  {
    WithEquipment(Select(TeamWhere(teamId), t.requests, t.equipment, n), t.equipment)
  }

  /** What the listing contains: exactly the stored requests matching the team
      filter, each once, in id order, each with its equipment. */
  lemma ListingExactly(t: Tables, teamId: Option<nat>, n: nat)
    requires WellFormed(t)
    requires forall id :: id in t.requests ==> id < n
    ensures var rows := Listing(t, teamId, n);
      && (forall k :: 0 <= k < |rows| ==>
            && t.requests[rows[k].request.id] == rows[k].request
            && rows[k].equipment == Some(t.equipment[rows[k].request.equipmentId])
            && (teamId.Some? ==> t.equipment[rows[k].request.equipmentId].maintenanceTeamId == teamId))
      && (forall j, k :: 0 <= j < k < |rows| ==> rows[j].request.id < rows[k].request.id)
      && (forall id ::
            (id in t.requests &&
             (teamId.None? || t.equipment[t.requests[id].equipmentId].maintenanceTeamId == teamId)) ==>
            exists k :: 0 <= k < |rows| && rows[k].request == t.requests[id])
  {
    var s := Select(TeamWhere(teamId), t.requests, t.equipment, n);
    var rows := Listing(t, teamId, n);
    forall id | id in t.requests &&
        (teamId.None? || t.equipment[t.requests[id].equipmentId].maintenanceTeamId == teamId)
      ensures exists k :: 0 <= k < |rows| && rows[k].request == t.requests[id]
    {
      assert Matches(TeamWhere(teamId), t.requests[id], t.equipment);
      SelectComplete(TeamWhere(teamId), t.requests, t.equipment, n, id);
      var k :| 0 <= k < |s| && s[k] == t.requests[id];
      assert rows[k].request == t.requests[id];
    }
  }

  /** A newly created request is in the unfiltered listing, joined with its equipment. */
  lemma CreatedRequestListed(t: Tables, id: nat, body: RequestBody, now: Date)
    requires WellFormed(t) && body.equipmentId in t.equipment
    requires forall k :: k in t.requests ==> k < id
    ensures ListedRequest(NewRequest(id, body, now), Some(t.equipment[body.equipmentId]))
      in Listing(AfterCreateRequest(t, id, body, now), None, id + 1)
  {
    var t' := AfterCreateRequest(t, id, body, now);
    var s := Select(AnyRequest, t'.requests, t'.equipment, id + 1);
    assert s == Select(AnyRequest, t'.requests, t'.equipment, id) + [t'.requests[id]];
    var rows := Listing(t', None, id + 1);
    assert rows[|s| - 1].request == NewRequest(id, body, now);
  }

  /** In a listing, a request in SCRAP is shown with unusable equipment. */
  lemma ListingShowsScrapAsUnusable(t: Tables, teamId: Option<nat>, n: nat)
    requires WellFormed(t) && ScrapMeansUnusable(t)
    ensures var rows := Listing(t, teamId, n);
      forall k :: 0 <= k < |rows| && rows[k].request.status == SCRAP ==>
        rows[k].equipment.Some? && rows[k].equipment.value.status == UNUSABLE
  {
  }

  /** Newest first: creation timestamps never increase along the sequence. */
  predicate NewestFirst(s: seq<MaintenanceRequest>)
  {
    forall j, k :: 0 <= j < k < |s| ==> s[j].createdAt >= s[k].createdAt
  }

  /** Places `r` into a sequence before the first request not newer than it. */
  function InsertNewestFirst(r: MaintenanceRequest, s: seq<MaintenanceRequest>): (s': seq<MaintenanceRequest>)
    ensures |s'| == |s| + 1
    ensures s'[0] == r || (s != [] && s'[0] == s[0])
    ensures multiset(s') == multiset(s) + multiset{r}
  {
    if s == [] || s[0].createdAt <= r.createdAt then [r] + s
    else
      assert s == [s[0]] + s[1..];
      [s[0]] + InsertNewestFirst(r, s[1..])
  }

  /** Inserting into a newest-first sequence keeps it newest first. */
  lemma {:induction false} InsertKeepsNewestFirst(r: MaintenanceRequest, s: seq<MaintenanceRequest>)
    requires NewestFirst(s)
    ensures NewestFirst(InsertNewestFirst(r, s))
  {
    if s != [] && s[0].createdAt > r.createdAt {
      var rest := InsertNewestFirst(r, s[1..]);
      InsertKeepsNewestFirst(r, s[1..]);
      assert rest[0].createdAt <= s[0].createdAt;
      var s' := [s[0]] + rest;
      forall j, k | 0 <= j < k < |s'| ensures s'[j].createdAt >= s'[k].createdAt {
        assert s'[k] == rest[k - 1];
        if j == 0 {
          assert k - 1 == 0 || rest[0].createdAt >= rest[k - 1].createdAt;
        } else {
          assert s'[j] == rest[j - 1];
        }
      }
    }
  }

  /** The rows sorted newest first, by repeated insertion. */
  function SortNewestFirst(s: seq<MaintenanceRequest>): (r: seq<MaintenanceRequest>)
    ensures multiset(r) == multiset(s)
  {
    if s == [] then []
    else
      assert s == [s[0]] + s[1..];
      InsertNewestFirst(s[0], SortNewestFirst(s[1..]))
  }

  /** Sorting yields a newest-first sequence. */
  lemma {:induction false} SortIsNewestFirst(s: seq<MaintenanceRequest>)
    ensures NewestFirst(SortNewestFirst(s))
  {
    if s != [] {
      SortIsNewestFirst(s[1..]);
      InsertKeepsNewestFirst(s[0], SortNewestFirst(s[1..]));
    }
  }

  /** The history of equipment `e` as a multiset: its requests with id below `n`. */
  lemma HistoryExactly(t: Tables, e: nat, n: nat, rows: seq<MaintenanceRequest>)
    requires KeyedById(t.requests)
    requires forall id :: id in t.requests ==> id < n
    requires multiset(rows) == multiset(Select(OnEquipment(e), t.requests, t.equipment, n))
    ensures forall r :: r in rows <==> r.id in t.requests && t.requests[r.id] == r && r.equipmentId == e
    ensures forall id :: id in t.requests && t.requests[id].equipmentId == e ==> multiset(rows)[t.requests[id]] == 1
  {
    var s := Select(OnEquipment(e), t.requests, t.equipment, n);
    forall r ensures r in rows <==> r.id in t.requests && t.requests[r.id] == r && r.equipmentId == e {
      assert r in rows <==> r in multiset(rows);
      assert r in s <==> r in multiset(s);
      if r.id in t.requests && t.requests[r.id] == r && r.equipmentId == e {
        SelectComplete(OnEquipment(e), t.requests, t.equipment, n, r.id);
      }
    }
    forall id | id in t.requests && t.requests[id].equipmentId == e
      ensures multiset(rows)[t.requests[id]] == 1
    {
      SelectComplete(OnEquipment(e), t.requests, t.equipment, n, id);
      SelectOnce(OnEquipment(e), t.requests, t.equipment, n, t.requests[id]);
    }
  }

  /** A selected request occurs exactly once in the selection. */
  lemma SelectOnce(w: Where, requests: map<nat, MaintenanceRequest>, equipment: map<nat, Equipment>, n: nat, r: MaintenanceRequest)
    requires KeyedById(requests)
    requires r in Select(w, requests, equipment, n)
    ensures multiset(Select(w, requests, equipment, n))[r] == 1
  {
  }

  /** In a sequence of strictly increasing ids, each element occurs once. */
  lemma {:induction false} IncreasingOnce(s: seq<MaintenanceRequest>, r: MaintenanceRequest)
    requires forall j, k :: 0 <= j < k < |s| ==> s[j].id < s[k].id
    requires r in s
    ensures multiset(s)[r] == 1
  {
    var rest := s[1..];
    assert s == [s[0]] + rest;
    assert multiset(s) == multiset{s[0]} + multiset(rest);
    if r == s[0] {
      assert forall k :: 0 <= k < |rest| ==> rest[k].id > r.id;
      assert r !in rest;
    } else {
      IncreasingOnce(rest, r);
    }
  }

  /** The number of requests selected with no filter is the number of stored requests. */
  lemma SelectAllCount(requests: map<nat, MaintenanceRequest>, equipment: map<nat, Equipment>, n: nat)
    requires KeyedById(requests)
    requires forall id :: id in requests ==> id < n
    ensures |Select(AnyRequest, requests, equipment, n)| == |requests|
  {
    SelectAllCountBelow(requests, equipment, n);
    assert (set id | id in requests && id < n) == requests.Keys;
  }

  lemma {:induction false} SelectAllCountBelow(requests: map<nat, MaintenanceRequest>, equipment: map<nat, Equipment>, n: nat)
    requires KeyedById(requests)
    ensures |Select(AnyRequest, requests, equipment, n)| == |set id | id in requests && id < n|
  {
    if n == 0 {
      assert (set id | id in requests && id < n) == {};
    } else {
      SelectAllCountBelow(requests, equipment, n - 1);
      var below := set id | id in requests && id < n - 1;
      if n - 1 in requests {
        assert (set id | id in requests && id < n) == below + {n - 1};
      } else {
        assert (set id | id in requests && id < n) == below;
      }
    }
  }

  /** With no filter, a write to request `id` changes the selection only at that request. */
  lemma {:induction false} SelectAllAfterWrite(
      requests: map<nat, MaintenanceRequest>, equipment: map<nat, Equipment>, equipment': map<nat, Equipment>,
      n: nat, id: nat, w: MaintenanceRequest)
    requires KeyedById(requests) && id in requests && w.id == id
    ensures var s := Select(AnyRequest, requests, equipment, n);
      var s' := Select(AnyRequest, requests[id := w], equipment', n);
      && |s'| == |s|
      && forall k :: 0 <= k < |s| ==> s'[k] == if s[k].id == id then w else s[k]
  {
    if n > 0 {
      SelectAllAfterWrite(requests, equipment, equipment', n - 1, id, w);
    }
  }
}
