/** The team-workload statistics: every request is labelled with the name of
    the team owning its equipment ("Unassigned" when there is none), the labels
    are counted in a dictionary that appends a key when it is first counted, and the
    dictionary becomes the chart's list of entries. */
module Stats {
  import opened Records
  import opened Lifecycle
  import opened Queries

  const UNASSIGNED: string := "Unassigned"

  /** The bucket of a request: the name of the team owning its equipment, or
      "Unassigned" when the equipment, its team or the team's name is missing
      (an empty name counts as missing). */
  function TeamLabel(r: MaintenanceRequest, equipment: map<nat, Equipment>, teams: map<nat, Team>): (bucket: string)
    ensures bucket != ""
    ensures bucket != UNASSIGNED ==>
      && r.equipmentId in equipment
      && equipment[r.equipmentId].maintenanceTeamId.Some?
      && equipment[r.equipmentId].maintenanceTeamId.value in teams
      && bucket == teams[equipment[r.equipmentId].maintenanceTeamId.value].name
    ensures (r.equipmentId !in equipment || equipment[r.equipmentId].maintenanceTeamId.None?) ==> bucket == UNASSIGNED
    ensures r.equipmentId in equipment
      && equipment[r.equipmentId].maintenanceTeamId.Some?
      && equipment[r.equipmentId].maintenanceTeamId.value in teams
      && teams[equipment[r.equipmentId].maintenanceTeamId.value].name != ""
      ==> bucket == teams[equipment[r.equipmentId].maintenanceTeamId.value].name
  {
    if r.equipmentId in equipment
       && equipment[r.equipmentId].maintenanceTeamId.Some?
       && equipment[r.equipmentId].maintenanceTeamId.value in teams
       && teams[equipment[r.equipmentId].maintenanceTeamId.value].name != ""
    then teams[equipment[r.equipmentId].maintenanceTeamId.value].name
    else UNASSIGNED
  }

  function Labels(s: seq<MaintenanceRequest>, equipment: map<nat, Equipment>, teams: map<nat, Team>): (names: seq<string>)
    ensures |names| == |s|
    ensures forall k :: 0 <= k < |s| ==> names[k] == TeamLabel(s[k], equipment, teams)
  {
    seq(|s|, k requires 0 <= k < |s| => TeamLabel(s[k], equipment, teams))
  }

  /** The counting dictionary: its keys in insertion order, and the count per key. */
  datatype Tally = Tally(keys: seq<string>, counts: map<string, nat>)

  /** Keys are distinct and are exactly the dictionary's entries. */
  ghost predicate Consistent(t: Tally)
  {
    && (forall j, k :: 0 <= j < k < |t.keys| ==> t.keys[j] != t.keys[k])
    && (forall x :: x in t.counts <==> x in t.keys)
  }

  /** One step of the counting loop: the key's count goes up by one, a key
      seen for the first time is appended with count 1, and every other key
      keeps its count. */
  function Count(t: Tally, name: string): (t': Tally)
    ensures name in t'.counts
    ensures t'.counts[name] == if name in t.counts then t.counts[name] + 1 else 1
    ensures forall x :: x != name ==> (x in t'.counts <==> x in t.counts)
    ensures forall x :: x != name && x in t.counts ==> t'.counts[x] == t.counts[x]
    ensures Consistent(t) ==> Consistent(t')
    ensures Consistent(t) ==> t'.keys == if name in t.keys then t.keys else t.keys + [name]
  {
    if name in t.counts then Tally(t.keys, t.counts[name := t.counts[name] + 1])
    else Tally(t.keys + [name], t.counts[name := 1])
  }

  /** The dictionary after counting `names` from left to right. */
  function TallyOf(names: seq<string>): (t: Tally)
    ensures Consistent(t)
    ensures forall x :: x in t.counts <==> x in names
    ensures forall x :: x in t.counts ==> t.counts[x] == multiset(names)[x]
  {
    if names == [] then Tally([], map[])
    else
      var prefix := names[..|names| - 1];
      assert names == prefix + [names[|names| - 1]];
      Count(TallyOf(prefix), names[|names| - 1])
  }

  /** Counting one more label is one more counting step. */
  lemma TallyStep(names: seq<string>, i: nat)
    requires i < |names|
    ensures TallyOf(names[..i + 1]) == Count(TallyOf(names[..i]), names[i])
  {
    assert names[..i + 1][..i] == names[..i];
  }

  /** The dictionary turned into the chart's entries, one per key, in key order. */
  function ChartData(keys: seq<string>, counts: map<string, nat>): (chart: seq<StatEntry>)
    requires forall k :: 0 <= k < |keys| ==> keys[k] in counts
    ensures |chart| == |keys|
    ensures forall k :: 0 <= k < |keys| ==> chart[k] == StatEntry(keys[k], counts[keys[k]])
  {
    if keys == [] then [] else [StatEntry(keys[0], counts[keys[0]])] + ChartData(keys[1..], counts)
  }

  function ChartOf(t: Tally): seq<StatEntry>
    requires Consistent(t)
  {
    ChartData(t.keys, t.counts)
  }

  /** The labels of all stored requests, in id order. */
  function AllLabels(t: Tables, teams: map<nat, Team>, n: nat): seq<string>
    requires KeyedById(t.requests)
  {
    Labels(Select(AnyRequest, t.requests, t.equipment, n), t.equipment, teams)
  }

  /** The workload chart for the given tables, counted with the intended
      step `Count`; the handler's own step differs for a team named
      "__proto__" (see `CountAsWritten`). */
  function StatsChart(t: Tables, teams: map<nat, Team>, n: nat): seq<StatEntry>
    requires KeyedById(t.requests)
  {
    ChartOf(TallyOf(AllLabels(t, teams, n)))
  }

  /** Changing the count of a key the chart does not list leaves the chart as it was. */
  lemma ChartIgnoresOtherKeys(keys: seq<string>, counts: map<string, nat>, name: string, v: nat)
    requires forall k :: 0 <= k < |keys| ==> keys[k] in counts
    requires name !in keys
    ensures ChartData(keys, counts[name := v]) == ChartData(keys, counts)
  {
  }

  /** Raising one listed key's count by one raises the chart's total by one. */
  lemma {:induction false} ChartBump(keys: seq<string>, counts: map<string, nat>, name: string)
    requires forall k :: 0 <= k < |keys| ==> keys[k] in counts
    requires forall j, k :: 0 <= j < k < |keys| ==> keys[j] != keys[k]
    requires name in keys
    ensures SumOfValues(ChartData(keys, counts[name := counts[name] + 1])) == SumOfValues(ChartData(keys, counts)) + 1
  {
    var counts' := counts[name := counts[name] + 1];
    if keys[0] == name {
      assert name !in keys[1..] by {
        forall k | 0 <= k < |keys[1..]| ensures keys[1..][k] != name {
          assert keys[1..][k] == keys[k + 1];
        }
      }
      ChartIgnoresOtherKeys(keys[1..], counts, name, counts[name] + 1);
    } else {
      assert name in keys[1..] by {
        var k :| 0 <= k < |keys| && keys[k] == name;
        assert keys[1..][k - 1] == name;
      }
      ChartBump(keys[1..], counts, name);
    }
  }

  /** The chart's values add up to the number of labels counted. */
  lemma {:induction false} ChartSum(names: seq<string>)
    ensures SumOfValues(ChartOf(TallyOf(names))) == |names|
  {
    if names != [] {
      var prefix := names[..|names| - 1];
      var x := names[|names| - 1];
      var t := TallyOf(prefix);
      assert TallyOf(names) == Count(t, x);
      ChartSum(prefix);
      if x in t.counts {
        ChartBump(t.keys, t.counts, x);
      } else {
        ChartSumNewKey(t, x);
      }
    }
  }

  /** Counting a key for the first time adds one entry of value 1 to the chart. */
  lemma ChartSumNewKey(t: Tally, x: string)
    requires Consistent(t) && x !in t.counts
    ensures SumOfValues(ChartData(t.keys + [x], t.counts[x := 1])) == SumOfValues(ChartOf(t)) + 1
  {
    ChartIgnoresOtherKeys(t.keys, t.counts, x, 1);
    var before := ChartData(t.keys, t.counts);
    var after := ChartData(t.keys + [x], t.counts[x := 1]);
    assert after == before + [StatEntry(x, 1)];
    SumOfValuesAppend(before, StatEntry(x, 1));
  }

  /** The chart of a list of labels: distinct names, each with its number of
      occurrences (at least one), every label present, and values summing to
      the number of labels. */
  lemma ChartOfLabels(names: seq<string>)
    ensures var chart := ChartOf(TallyOf(names));
      && (forall j, k :: 0 <= j < k < |chart| ==> chart[j].name != chart[k].name)
      && (forall k :: 0 <= k < |chart| ==> chart[k].value == multiset(names)[chart[k].name] >= 1)
      && (forall x :: x in names ==> exists k :: 0 <= k < |chart| && chart[k].name == x)
      && SumOfValues(chart) == |names|
  {
    var t := TallyOf(names);
    var chart := ChartOf(t);
    ChartSum(names);
    forall x | x in names ensures exists k :: 0 <= k < |chart| && chart[k].name == x {
      var k :| 0 <= k < |t.keys| && t.keys[k] == x;
      assert chart[k].name == x;
    }
  }

  /** The requests with id below `n` that land in bucket `name`. */
  function BucketBelow(t: Tables, teams: map<nat, Team>, name: string, n: nat): set<nat>
  {
    set id | id in t.requests && id < n && TeamLabel(t.requests[id], t.equipment, teams) == name
  }

  /** A bucket's count is the number of requests in it. */
  lemma {:induction false} LabelCount(t: Tables, teams: map<nat, Team>, name: string, n: nat)
    requires KeyedById(t.requests)
    ensures multiset(AllLabels(t, teams, n))[name]
            == |BucketBelow(t, teams, name, n)|
  {
    if n == 0 {
      assert BucketBelow(t, teams, name, n) == {};
    } else {
      LabelCount(t, teams, name, n - 1);
      LabelStep(t, teams, name, n);
      BucketStep(t, teams, name, n);
    }
  }

  /** Counting one more id adds its bucket to the labels. */
  lemma LabelStep(t: Tables, teams: map<nat, Team>, name: string, n: nat)
    requires KeyedById(t.requests) && n > 0
    ensures multiset(AllLabels(t, teams, n))[name] ==
      multiset(AllLabels(t, teams, n - 1))[name] +
      (if n - 1 in t.requests && TeamLabel(t.requests[n - 1], t.equipment, teams) == name then 1 else 0)
  {
    var s := Select(AnyRequest, t.requests, t.equipment, n - 1);
    var names := Labels(s, t.equipment, teams);
    if n - 1 in t.requests {
      var r := t.requests[n - 1];
      var b := TeamLabel(r, t.equipment, teams);
      assert Select(AnyRequest, t.requests, t.equipment, n) == s + [r];
      assert Labels(s + [r], t.equipment, teams) == names + [b];
      assert multiset(names + [b]) == multiset(names) + multiset{b};
    } else {
      assert Select(AnyRequest, t.requests, t.equipment, n) == s;
    }
  }

  /** Counting one more id adds it to its bucket. */
  lemma BucketStep(t: Tables, teams: map<nat, Team>, name: string, n: nat)
    requires n > 0
    ensures |BucketBelow(t, teams, name, n)| == |BucketBelow(t, teams, name, n - 1)| +
      (if n - 1 in t.requests && TeamLabel(t.requests[n - 1], t.equipment, teams) == name then 1 else 0)
  {
    var below := BucketBelow(t, teams, name, n - 1);
    if n - 1 in t.requests && TeamLabel(t.requests[n - 1], t.equipment, teams) == name {
      assert BucketBelow(t, teams, name, n) == below + {n - 1};
    } else {
      assert BucketBelow(t, teams, name, n) == below;
    }
  }

  /** The requests in bucket `name`. */
  function Bucket(t: Tables, teams: map<nat, Team>, name: string): set<nat>
  {
    set id | id in t.requests && TeamLabel(t.requests[id], t.equipment, teams) == name
  }

  /** With every id below `n`, the requests below `n` in a bucket are the whole bucket. */
  lemma BucketBelowAll(t: Tables, teams: map<nat, Team>, name: string, n: nat)
    requires forall id :: id in t.requests ==> id < n
    ensures BucketBelow(t, teams, name, n) == Bucket(t, teams, name)
  {
  }

  /** Each bucket occurs among the labels as often as it has requests. */
  lemma LabelsCountBuckets(t: Tables, teams: map<nat, Team>, n: nat)
    requires KeyedById(t.requests)
    requires forall id :: id in t.requests ==> id < n
    ensures forall x :: multiset(AllLabels(t, teams, n))[x] == |Bucket(t, teams, x)|
  {
    forall x ensures multiset(AllLabels(t, teams, n))[x] == |Bucket(t, teams, x)| {
      LabelCount(t, teams, x, n);
      BucketBelowAll(t, teams, x, n);
    }
  }

  /** Every stored request's bucket is among the labels. */
  lemma LabelsCoverRequests(t: Tables, teams: map<nat, Team>, n: nat)
    requires KeyedById(t.requests)
    requires forall id :: id in t.requests ==> id < n
    ensures forall id :: id in t.requests ==> TeamLabel(t.requests[id], t.equipment, teams) in AllLabels(t, teams, n)
  {
    var s := Select(AnyRequest, t.requests, t.equipment, n);
    forall id | id in t.requests ensures TeamLabel(t.requests[id], t.equipment, teams) in AllLabels(t, teams, n) {
      SelectComplete(AnyRequest, t.requests, t.equipment, n, id);
      var j :| 0 <= j < |s| && s[j] == t.requests[id];
      assert AllLabels(t, teams, n)[j] == TeamLabel(t.requests[id], t.equipment, teams);
    }
  }

  /** There is one label per stored request. */
  lemma LabelsLength(t: Tables, teams: map<nat, Team>, n: nat)
    requires KeyedById(t.requests)
    requires forall id :: id in t.requests ==> id < n
    ensures |AllLabels(t, teams, n)| == |t.requests|
  {
    SelectAllCount(t.requests, t.equipment, n);
  }

  /** The workload promises of the chart counted with the intended step: bucket names are distinct, each
      value is the number of requests in that bucket and at least one, every
      request's bucket is listed, and the values add up to the number of
      requests. */
  lemma StatsChartFacts(t: Tables, teams: map<nat, Team>, n: nat)
    requires KeyedById(t.requests)
    requires forall id :: id in t.requests ==> id < n
    ensures var chart := StatsChart(t, teams, n);
      && (forall j, k :: 0 <= j < k < |chart| ==> chart[j].name != chart[k].name)
      && (forall k :: 0 <= k < |chart| ==>
            chart[k].value >= 1 && chart[k].value == |Bucket(t, teams, chart[k].name)|)
      && (forall id :: id in t.requests ==>
            exists k :: 0 <= k < |chart| && chart[k].name == TeamLabel(t.requests[id], t.equipment, teams))
      && SumOfValues(chart) == |t.requests|
  {
    var names := AllLabels(t, teams, n);
    ChartOfLabels(names);
    LabelsLength(t, teams, n);
    LabelsCountBuckets(t, teams, n);
    LabelsCoverRequests(t, teams, n);
  }

  // ---- The counting step as the handler writes it ----------------------------
  // The handler counts into a plain object literal. Reading `stats["__proto__"]`
  // yields the object prototype rather than undefined, and assigning a string
  // to `stats["__proto__"]` is silently ignored, so a team named "__proto__"
  // never gets a key. `Count` above is the intended step, used by the model of
  // the handler; these members model the step as written and exhibit the
  // difference.

  const PROTO_KEY: string := "__proto__"

  function CountAsWritten(t: Tally, name: string): (t': Tally)
    ensures name == PROTO_KEY ==> t' == t
    ensures name != PROTO_KEY ==> t' == Count(t, name)
  {
    if name == PROTO_KEY then t else Count(t, name)
  }

  /** The handler's dictionary: every label except "__proto__" is counted as
      intended, and "__proto__" never becomes a key. */
  function TallyAsWritten(names: seq<string>): (t: Tally)
    ensures Consistent(t)
    ensures forall x :: x in t.counts <==> x in names && x != PROTO_KEY
    ensures forall x :: x in t.counts ==> t.counts[x] == multiset(names)[x]
  {
    if names == [] then Tally([], map[])
    else
      var prefix := names[..|names| - 1];
      assert names == prefix + [names[|names| - 1]];
      CountAsWritten(TallyAsWritten(prefix), names[|names| - 1])
  }

  /** One request on equipment of a team named "__proto__": the handler's chart
      is empty, so its total (0) differs from the number of requests (1),
      while the intended chart has the single entry ("__proto__", 1). */
  lemma ProtoTeamVanishes()
    ensures TallyAsWritten([PROTO_KEY]) == Tally([], map[])
    ensures SumOfValues(ChartOf(TallyAsWritten([PROTO_KEY]))) == 0
    ensures ChartOf(TallyOf([PROTO_KEY])) == [StatEntry(PROTO_KEY, 1)]
  {
  }
}
