/** The case workbench: every project with its newest execution, and the executions of no known project. */
module Workbench {
  import opened Collections
  import opened PyText
  import opened CanonicalJson
  import opened PyValues
  import opened StableSort
  import opened SortKeys
  import opened CaseProjection

  function TrimmedText(v: Json): string { Strip(TextOf(v, "")) }

  function ProjectId(p: Rec): string { TrimmedText(FirstOf(p, ["project_id", "id"])) }

  function ExecutionProject(e: Rec): string { TrimmedText(Get(e, "project_id")) }

  function OrderKey(): Rec -> Key
  {
    (e: Rec) => Key(0, TrimmedText(FirstOf(e, ["updated_at", "created_at"])), TrimmedText(Get(e, "workflow_id")))
  }

  datatype Item = Item(projection: Projection, project: Rec, execution: Option<Rec>, linkedCount: nat)

  datatype Snapshot = Snapshot(cases: seq<Item>, unlinked: seq<Rec>)

  function Priority(a: Attention): int
  {
    match a
    case NeedsDecision => 0
    case NeedsReview => 1
    case NeedsInput => 2
    case Blocked => 3
    case Failed => 4
    case ReadyToAct => 5
    case ReworkInProgress => 6
    case DorWorking => 7
    case WaitingExternal => 8
    case Completed => 9
    case Cancelled => 10
    case Archived => 11
    case Unknown => 99
  }

  function CaseKey(c: Casing): Item -> Key
  {
    (i: Item) => Key(Priority(i.projection.attention), c.fold(i.projection.title), i.projection.caseId)
  }

  // ---------------------------------------------------------------- specification

  /** The rows that are objects. */
  function Rows(js: seq<Json>): seq<Rec>
  {
    if js == [] then []
    else Rows(js[..|js| - 1]) + (if js[|js| - 1].Obj? then [js[|js| - 1].fields] else [])
  }

  function KnownIds(projects: seq<Rec>): set<string> { set p | p in projects && ProjectId(p) != "" :: ProjectId(p) }

  function LinkedTo(id: string): Rec -> bool { (e: Rec) => ExecutionProject(e) == id }

  function IsUnlinked(known: set<string>): Rec -> bool { (e: Rec) => ExecutionProject(e) == "" || ExecutionProject(e) !in known }

  function Newest(linked: seq<Rec>): Option<Rec>
  {
    var sorted := SortBy(ByDescending(OrderKey()), linked);
    if sorted == [] then None else Some(sorted[0])
  }

  function ItemFor(c: Casing, p: Rec, linked: seq<Rec>): Item
  {
    Item(ProjectCase(c, ProjectId(p), p, Newest(linked)), p, Newest(linked), |linked|)
  }

  function Items(c: Casing, projects: seq<Rec>, executions: seq<Rec>): seq<Item>
  {
    if projects == [] then []
    else
      var p := projects[|projects| - 1];
      Items(c, projects[..|projects| - 1], executions)
      + (if ProjectId(p) == "" then [] else [ItemFor(c, p, Filter(LinkedTo(ProjectId(p)), executions))])
  }

  function WorkbenchOf(c: Casing, projects: seq<Rec>, executions: seq<Rec>): Snapshot
  {
    Snapshot(
      SortBy(By(CaseKey(c)), Items(c, projects, executions)),
      SortBy(ByDescending(OrderKey()), Filter(IsUnlinked(KnownIds(projects)), executions)))
  }

  // ---------------------------------------------------------------- the code

  function Bucket(buckets: map<string, seq<Rec>>, id: string): seq<Rec> { if id in buckets then buckets[id] else [] }

  method ObjectRows(js: seq<Json>) returns (rows: seq<Rec>)
    ensures rows == Rows(js)
  {
    rows := [];
    for i := 0 to |js|
      invariant rows == Rows(js[..i])
    {
      assert js[..i + 1][..i] == js[..i];
      if js[i].Obj? { rows := rows + [js[i].fields]; }
    }
    assert js[..|js|] == js;
  }

  /** Distributes the executions over the buckets of known projects, in order. */
  method Distribute(executions: seq<Rec>, known: set<string>) returns (buckets: map<string, seq<Rec>>, unlinked: seq<Rec>)
    requires "" !in known
    ensures unlinked == Filter(IsUnlinked(known), executions)
    ensures forall id :: id in known ==> Bucket(buckets, id) == Filter(LinkedTo(id), executions)
  {
    buckets, unlinked := map[], [];
    for i := 0 to |executions|
      invariant unlinked == Filter(IsUnlinked(known), executions[..i])
      invariant forall id :: id in known ==> Bucket(buckets, id) == Filter(LinkedTo(id), executions[..i])
    {
      var e := executions[i];
      var id := ExecutionProject(e);
      ghost var before := buckets;
      FilterSnoc(IsUnlinked(known), executions, i);
      forall k | k in known
        ensures Filter(LinkedTo(k), executions[..i + 1]) == Filter(LinkedTo(k), executions[..i]) + (if k == id then [e] else [])
      {
        FilterSnoc(LinkedTo(k), executions, i);
      }
      if id == "" || id !in known {
        unlinked := unlinked + [e];
      } else {
        buckets := buckets[id := Bucket(buckets, id) + [e]];
      }
      assert forall k :: k in known ==> Bucket(buckets, k) == Bucket(before, k) + (if k == id then [e] else []);
    }
    assert executions[..|executions|] == executions;
  }

  lemma ItemsNext(c: Casing, projects: seq<Rec>, executions: seq<Rec>, i: nat)
    requires i < |projects|
    ensures var id := ProjectId(projects[i]);
            Items(c, projects[..i + 1], executions) == Items(c, projects[..i], executions)
            + (if id == "" then [] else [ItemFor(c, projects[i], Filter(LinkedTo(id), executions))])
  {
    assert projects[..i + 1][..i] == projects[..i];
  }

  lemma ItemIs(c: Casing, p: Rec, bucket: seq<Rec>)
    ensures var linked := SortBy(ByDescending(OrderKey()), bucket);
            var execution := if linked == [] then None else Some(linked[0]);
            ItemFor(c, p, bucket) == Item(ProjectCase(c, ProjectId(p), p, execution), p, execution, |linked|)
  {
    SortPermutes(ByDescending(OrderKey()), bucket);
  }

  /** `build_case_workbench`. */
  method BuildCaseWorkbench(c: Casing, projects: seq<Json>, executions: seq<Json>) returns (snapshot: Snapshot)
    ensures snapshot == WorkbenchOf(c, Rows(projects), Rows(executions))
  {
    var projectRows := ObjectRows(projects);
    var executionRows := ObjectRows(executions);
    var known := KnownIds(projectRows);
    var buckets, unlinked := Distribute(executionRows, known);
    var items: seq<Item> := [];
    for i := 0 to |projectRows|
      invariant items == Items(c, projectRows[..i], executionRows)
    {
      ItemsNext(c, projectRows, executionRows, i);
      var p := projectRows[i];
      var id := ProjectId(p);
      if id != "" {
        assert id in known;
        var linked := SortBy(ByDescending(OrderKey()), Bucket(buckets, id));
        var execution := if linked == [] then None else Some(linked[0]);
        ItemIs(c, p, Bucket(buckets, id));
        items := items + [Item(ProjectCase(c, id, p, execution), p, execution, |linked|)];
      }
    }
    assert projectRows[..|projectRows|] == projectRows;
    snapshot := Snapshot(SortBy(By(CaseKey(c)), items), SortBy(ByDescending(OrderKey()), unlinked));
  }
}
