/** The server: the four tables held in memory and the route handlers that
    read and write them. The request and equipment tables are updated in place
    by the handlers; every update is the corresponding pure transition of
    module Lifecycle. Ids are assigned by per-table counters starting at 1. */
module Server {
  import opened Records
  import opened Lifecycle
  import opened Queries
  import opened Stats

  class Store {
    var teams: map<nat, Team>
    var users: map<nat, User>
    var equipment: map<nat, Equipment>
    var requests: map<nat, MaintenanceRequest>
    var nextEquipmentId: nat
    var nextRequestId: nat

    /** The two tables the lifecycle transitions act on. */
    function Snapshot(): Tables
      reads this
    {
      Tables(equipment, requests)
    }

    /** Rows are keyed by id, ids lie below the counters, and every reference
        column names an existing row. */
    ghost predicate Valid()
      reads this
    {
      && WellFormed(Snapshot())
      && 0 < nextEquipmentId && 0 < nextRequestId
      && (forall id :: id in equipment ==> id < nextEquipmentId)
      && (forall id :: id in requests ==> id < nextRequestId)
      && (forall id :: id in teams ==> teams[id].id == id)
      && (forall id :: id in users ==> users[id].id == id)
      && Referenced(Snapshot(), teams.Keys, users.Keys)
    }

    /** A store with the given teams and users and no equipment or requests. */
    constructor (teams: map<nat, Team>, users: map<nat, User>)
      requires forall id :: id in teams ==> teams[id].id == id
      requires forall id :: id in users ==> users[id].id == id
      ensures Valid() && ScrapMeansUnusable(Snapshot())
      ensures this.teams == teams && this.users == users
      ensures equipment == map[] && requests == map[]
    {
      this.teams := teams;
      this.users := users;
      equipment := map[];
      requests := map[];
      nextEquipmentId := 1;
      nextRequestId := 1;
    }

    /** Registers equipment under the next id with status OPERATIONAL; fails,
        changing nothing, when the maintenance team does not exist. */
    method CreateEquipment(body: EquipmentBody) returns (result: Result<Equipment>)
      requires Valid()
      modifies this
      ensures Valid()
      ensures teams == old(teams) && users == old(users)
      ensures body.maintenanceTeamId !in teams ==>
        result == Err(ForeignKeyViolation("maintenanceTeamId")) && Snapshot() == old(Snapshot())
      ensures nextRequestId == old(nextRequestId)
      ensures nextEquipmentId == if body.maintenanceTeamId in teams then old(nextEquipmentId) + 1 else old(nextEquipmentId)
      ensures body.maintenanceTeamId in teams ==>
        && result == Ok(NewEquipment(old(nextEquipmentId), body))
        && Snapshot() == AfterCreateEquipment(old(Snapshot()), old(nextEquipmentId), body)
      ensures ScrapMeansUnusable(old(Snapshot())) ==> ScrapMeansUnusable(Snapshot())
      ensures Monotone(old(Snapshot()), Snapshot())
    {
      if body.maintenanceTeamId !in teams {
        return Err(ForeignKeyViolation("maintenanceTeamId"));
      }
      var e := NewEquipment(nextEquipmentId, body);
      equipment := equipment[nextEquipmentId := e];
      nextEquipmentId := nextEquipmentId + 1;
      result := Ok(e);
    }

    /** Opens a request under the next id with status NEW, stamped `now`;
        fails, changing nothing, when the equipment does not exist. */
    method CreateRequest(body: RequestBody, now: Date) returns (result: Result<MaintenanceRequest>)
      requires Valid()
      modifies this
      ensures Valid()
      ensures teams == old(teams) && users == old(users)
      ensures body.equipmentId !in equipment ==>
        result == Err(ForeignKeyViolation("equipmentId")) && Snapshot() == old(Snapshot())
      ensures nextEquipmentId == old(nextEquipmentId)
      ensures nextRequestId == if body.equipmentId in old(equipment) then old(nextRequestId) + 1 else old(nextRequestId)
      ensures body.equipmentId in equipment ==>
        && result == Ok(NewRequest(old(nextRequestId), body, now))
        && Snapshot() == AfterCreateRequest(old(Snapshot()), old(nextRequestId), body, now)
      ensures ScrapMeansUnusable(old(Snapshot())) ==> ScrapMeansUnusable(Snapshot())
      ensures Monotone(old(Snapshot()), Snapshot())
    {
      if body.equipmentId !in equipment {
        return Err(ForeignKeyViolation("equipmentId"));
      }
      var r := NewRequest(nextRequestId, body, now);
      requests := requests[nextRequestId := r];
      nextRequestId := nextRequestId + 1;
      result := Ok(r);
    }

    /** Writes the status (when given) and the duration (when given) of request
        `id` and answers the updated row; moving to SCRAP then marks the
        equipment UNUSABLE. Fails, changing nothing, when the request does not
        exist. */
    method UpdateStatus(id: nat, status: Option<string>, duration: Option<int>) returns (result: Result<MaintenanceRequest>)
      requires Valid()
      modifies this
      ensures Valid()
      ensures teams == old(teams) && users == old(users)
      ensures nextEquipmentId == old(nextEquipmentId) && nextRequestId == old(nextRequestId)
      ensures id !in old(requests) ==> result == Err(RecordNotFound) && Snapshot() == old(Snapshot())
      ensures id in old(requests) ==>
        && result == Ok(StatusWrite(old(requests)[id], status, duration))
        && Snapshot() == AfterUpdateStatus(old(Snapshot()), id, status, duration)
      ensures ScrapMeansUnusable(old(Snapshot())) ==> ScrapMeansUnusable(Snapshot())
      ensures Monotone(old(Snapshot()), Snapshot())
    {
      if id !in requests {
        return Err(RecordNotFound);
      }
      ghost var after := AfterUpdateStatus(Snapshot(), id, status, duration);
      UpdateStatusKeepsReferences(Snapshot(), id, status, duration, teams.Keys, users.Keys);
      var request := StatusWrite(requests[id], status, duration);
      requests := requests[id := request];
      if status == Some(SCRAP) {
        equipment := MarkUnusable(equipment, request.equipmentId);
      }
      assert Snapshot() == after;
      result := Ok(request);
    }

    /** Assigns request `id` to user `userId`, forcing its status to
        IN_PROGRESS, and answers the row joined with the user. Fails, changing
        nothing, when the request or the user does not exist. */
    method Assign(id: nat, userId: nat) returns (result: Result<AssignedRequest>)
      requires Valid()
      modifies this
      ensures Valid()
      ensures teams == old(teams) && users == old(users)
      ensures nextEquipmentId == old(nextEquipmentId) && nextRequestId == old(nextRequestId)
      ensures id !in old(requests) ==> result == Err(RecordNotFound) && Snapshot() == old(Snapshot())
      ensures id in old(requests) && userId !in users ==>
        result == Err(ForeignKeyViolation("assignedToId")) && Snapshot() == old(Snapshot())
      ensures id in old(requests) && userId in users ==>
        && result == Ok(AssignedRequest(AssignWrite(old(requests)[id], userId), users[userId]))
        && Snapshot() == AfterAssign(old(Snapshot()), id, userId)
      ensures ScrapMeansUnusable(old(Snapshot())) ==> ScrapMeansUnusable(Snapshot())
      ensures Monotone(old(Snapshot()), Snapshot())
    {
      if id !in requests {
        return Err(RecordNotFound);
      }
      if userId !in users {
        return Err(ForeignKeyViolation("assignedToId"));
      }
      var request := AssignWrite(requests[id], userId);
      requests := requests[id := request];
      result := Ok(AssignedRequest(request, users[userId]));
    }

    /** The request listing, optionally restricted to the equipment of one team:
        exactly the stored requests that match, each once, in id order, each
        joined with its equipment. */
    method ListRequests(teamId: Option<nat>) returns (rows: seq<ListedRequest>)
      requires Valid()
      ensures rows == Listing(Snapshot(), teamId, nextRequestId)
      ensures forall k :: 0 <= k < |rows| ==>
        && rows[k].request.id in requests && requests[rows[k].request.id] == rows[k].request
        && rows[k].equipment == Some(equipment[rows[k].request.equipmentId])
        && (teamId.Some? ==> equipment[rows[k].request.equipmentId].maintenanceTeamId == teamId)
      ensures forall j, k :: 0 <= j < k < |rows| ==> rows[j].request.id < rows[k].request.id
      ensures forall id :: (id in requests &&
          (teamId.None? || equipment[requests[id].equipmentId].maintenanceTeamId == teamId)) ==>
        exists k :: 0 <= k < |rows| && rows[k].request == requests[id]
    {
      rows := Listing(Snapshot(), teamId, nextRequestId);
      ListingExactly(Snapshot(), teamId, nextRequestId);
    }

    /** The maintenance history of equipment `e`: its requests, newest first,
        each exactly once. */
    method History(e: nat) returns (rows: seq<MaintenanceRequest>)
      requires Valid()
      ensures NewestFirst(rows)
      ensures forall r :: r in rows <==> r.id in requests && requests[r.id] == r && r.equipmentId == e
      ensures forall id :: id in requests && requests[id].equipmentId == e ==> multiset(rows)[requests[id]] == 1
    {
      var selected := Select(OnEquipment(e), requests, equipment, nextRequestId);
      rows := SortNewestFirst(selected);
      SortIsNewestFirst(selected);
      HistoryExactly(Snapshot(), e, nextRequestId, rows);
    }

    /** The team-workload chart, counted with the intended step `Count`: one
        entry per bucket, its value the number of requests in the bucket. */
    method Stats() returns (chart: seq<StatEntry>)
      requires Valid()
      ensures chart == StatsChart(Snapshot(), teams, nextRequestId)
      ensures forall j, k :: 0 <= j < k < |chart| ==> chart[j].name != chart[k].name
      ensures forall k :: 0 <= k < |chart| ==>
        chart[k].value >= 1 && chart[k].value == |Bucket(Snapshot(), teams, chart[k].name)|
      ensures forall id :: id in requests ==>
        exists k :: 0 <= k < |chart| && chart[k].name == TeamLabel(requests[id], equipment, teams)
      ensures SumOfValues(chart) == |requests|
    {
      ghost var t := Snapshot();
      var fetched := Select(AnyRequest, requests, equipment, nextRequestId);
      var keys, counts := CountBuckets(fetched, equipment, teams);
      chart := ChartData(keys, counts);
      assert chart == StatsChart(t, teams, nextRequestId) by {
        assert Tally(keys, counts) == TallyOf(AllLabels(t, teams, nextRequestId));
      }
      StatsChartFacts(t, teams, nextRequestId);
    }
  }

  /** The handler's counting loop: each fetched request's bucket is counted
      in a dictionary that appends a key when it is first counted, with the intended
      counting step. */
  method CountBuckets(fetched: seq<MaintenanceRequest>, equipment: map<nat, Equipment>, teams: map<nat, Team>)
    returns (keys: seq<string>, counts: map<string, nat>)
    ensures Tally(keys, counts) == TallyOf(Labels(fetched, equipment, teams))
  {
    ghost var names := Labels(fetched, equipment, teams);
    keys, counts := [], map[];
    var i := 0;
    while i < |fetched|
      invariant 0 <= i <= |fetched|
      invariant |names| == |fetched|
      invariant Tally(keys, counts) == TallyOf(names[..i])
    {
      var bucket := TeamLabel(fetched[i], equipment, teams);
      TallyStep(names, i);
      keys, counts := CountStep(keys, counts, bucket);
      i := i + 1;
    }
    assert names[..i] == names;
  }

  /** One step of the counting loop on the dictionary, as `Count` specifies
      it: the intended step. For a bucket named "__proto__" the handler's own
      step differs (see `Stats.CountAsWritten`). */
  method CountStep(keys: seq<string>, counts: map<string, nat>, bucket: string) returns (keys': seq<string>, counts': map<string, nat>)
    ensures Tally(keys', counts') == Count(Tally(keys, counts), bucket)
  {
    if bucket in counts {
      keys', counts' := keys, counts[bucket := counts[bucket] + 1];
    } else {
      keys', counts' := keys + [bucket], counts[bucket := 1];
    }
  }
}
