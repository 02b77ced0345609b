/** The workflow bridge Lambda (workflow-bridge-lambda/src/index.ts): it asks
    the Workflow datastore for the stubs, which come back grouped by status,
    and returns them as one flat list in which every stub carries its
    group's status. The HTTP call is left out; the grouped response, in the
    order `Object.entries` yields it, is the input. */
module WorkflowBridge {
  import opened Shared
  import opened Seqs

  /** The fields the stubs request asks for. */
  function FieldFilter(): string {
    Join(["id", "title", "composerId"], ",")
  }

  /** The field filter is the three field names separated by commas. */
  lemma FieldFilterIsCommaSeparated()
    ensures FieldFilter() == "id,title,composerId"
  {
    var names := ["id", "title", "composerId"];
    assert names[..2] == ["id", "title"];
    assert names[..2][..1] == ["id"];
    assert Join(["id", "title"], ",") == "id,title";
  }

  /** The stubs URL under the datastore's API URL. */
  function StubsUrl(apiUrl: string): (r: string)
    ensures StartsWith(r, apiUrl + "/stubs?fieldFilter=")
    ensures r[|apiUrl + "/stubs?fieldFilter="|..] == FieldFilter()
  {
    var prefix := apiUrl + "/stubs?fieldFilter=";
    assert (prefix + FieldFilter())[..|prefix|] == prefix;
    prefix + FieldFilter()
  }

  /** A stub as the datastore returns it: an object of fields. */
  type Stub = map<string, Value>

  /** One `[status, stubs]` entry of the grouped response. */
  type StatusGroup = (string, seq<Stub>)

  /** `stubs.map((stub) => ({ ...stub, status }))`: each stub with its status field set, a `status` it
      already had being overwritten. */
  function WithStatus(status: string, stubs: seq<Stub>): (r: seq<Stub>)
    ensures |r| == |stubs|
    ensures forall i :: 0 <= i < |r| ==> r[i].Keys == stubs[i].Keys + {"status"} && r[i]["status"] == Str(status)
    ensures forall i, k :: 0 <= i < |r| && k in stubs[i] && k != "status" ==> k in r[i] && r[i][k] == stubs[i][k]
  {
    seq(|stubs|, i requires 0 <= i < |stubs| => stubs[i]["status" := Str(status)])
  }

  /** The total number of stubs over all groups. */
  function SumSizes(groups: seq<StatusGroup>): nat {
    if groups == [] then 0 else SumSizes(groups[..|groups| - 1]) + |groups[|groups| - 1].1|
  }

  /** The `reduce`: the groups' stubs concatenated in group order, each with its status. */
  function Flatten(groups: seq<StatusGroup>): seq<Stub> {
    if groups == [] then []
    else Flatten(groups[..|groups| - 1]) + WithStatus(groups[|groups| - 1].0, groups[|groups| - 1].1)
  }

  /** Nothing is lost or added: the flat list has exactly as many stubs as the groups hold. */
  lemma {:induction false} FlattenLength(groups: seq<StatusGroup>)
    ensures |Flatten(groups)| == SumSizes(groups)
  {
    if groups != [] {
      FlattenLength(groups[..|groups| - 1]);
    }
  }

  /** Stub `j` of group `g` sits at the number of stubs in the groups before `g` plus `j`, carrying
      group `g`'s status and otherwise unchanged. */
  lemma {:induction false} FlattenPlacesStub(groups: seq<StatusGroup>, g: nat, j: nat)
    requires g < |groups| && j < |groups[g].1|
    ensures SumSizes(groups[..g]) + j < |Flatten(groups)|
    ensures Flatten(groups)[SumSizes(groups[..g]) + j] == groups[g].1[j]["status" := Str(groups[g].0)]
    decreases |groups|
  {
    var init := groups[..|groups| - 1];
    FlattenLength(init);
    if g == |groups| - 1 {
      assert groups[..g] == init;
    } else {
      assert groups[..g] == init[..g];
      FlattenPlacesStub(init, g, j);
    }
  }

  /** Every stub the Lambda returns carries a status. */
  lemma {:induction false} FlattenedStubsHaveStatus(groups: seq<StatusGroup>)
    ensures forall k :: 0 <= k < |Flatten(groups)| ==> "status" in Flatten(groups)[k] && Flatten(groups)[k]["status"].Str?
  {
    if groups != [] {
      FlattenedStubsHaveStatus(groups[..|groups| - 1]);
    }
  }
}
