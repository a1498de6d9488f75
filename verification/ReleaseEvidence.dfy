/**
 * The evidence collector of the release gate. Check runs and workflow runs are JSON objects; the
 * report is the JSON object handed to the evaluator.
 */
module ReleaseEvidence {
  import opened Collections
  import opened CanonicalJson
  import opened PyValues
  import opened StableSort

  datatype Requirement = Requirement(workflowPath: string, jobName: string)

  datatype GateSpec = GateSpec(name: string, requirements: seq<Requirement>)

  const CI := ".github/workflows/ci.yml"
  const PHASE7 := ".github/workflows/phase7.yml"

  const GATES: seq<GateSpec> := [
    GateSpec("pytest-3.11", [Requirement(CI, "test (3.11)")]),
    GateSpec("pytest-3.12", [Requirement(CI, "test (3.12)")]),
    GateSpec("coverage-branch", [Requirement(PHASE7, "Branch coverage gate")]),
    GateSpec("ruff", [Requirement(PHASE7, "Ruff lint")]),
    GateSpec("bandit", [Requirement(CI, "security")]),
    GateSpec("dep-audit", [Requirement(CI, "security")]),
    GateSpec("alembic", [Requirement(CI, "PostgreSQL migration graph")]),
    GateSpec("merge-gate", [Requirement(".github/workflows/merge_gate.yml", "merge-gate")]),
    GateSpec("bwrap", [Requirement(PHASE7, "Integration runner (env-dependent suites)")]),
    GateSpec("sdk-proxy", [Requirement(PHASE7, "SDK proxy matrix (stripped)"), Requirement(PHASE7, "SDK proxy matrix (exported)")]),
    GateSpec("e2e-integration", [Requirement(PHASE7, "Integration runner (env-dependent suites)")])]

  /** `int(check.get("id", 0))` for integer ids. */
  function IdOf(c: Rec): int { if Get(c, "id").Int? then Get(c, "id").n else 0 }

  // ---------------------------------------------------------------- the run id in a details URL

  const RUNS := "/actions/runs/"

  /** Whether the digits end the URL or are followed by a slash; `$` also matches before a final newline. */
  predicate RunIdEnds(t: string) { t == "" || t[0] == '/' || t == "\n" }

  /** The pattern `/actions/runs/(\d+)(?:/|$)` at the front of `t`. */
  function RunIdHere(t: string): Option<int>
  {
    if !(RUNS <= t) then None
    else
      match ReadNat(t[|RUNS|..])
      case None => None
      case Some((n, rest)) => if RunIdEnds(rest) then Some(n) else None
  }

  /** `re.search`: the leftmost match. */
  function RunIdIn(t: string): Option<int>
  {
    if RunIdHere(t).Some? then RunIdHere(t) else if t == "" then None else RunIdIn(t[1..])
  }

  function WorkflowRunId(c: Rec): Option<int>
  {
    if Get(c, "details_url").Str? then RunIdIn(Get(c, "details_url").s) else None
  }

  // ---------------------------------------------------------------- selecting a check

  /** The workflow run that backs a check for a requirement. */
  function Backing(r: Requirement, sha: string, c: Rec, runs: map<int, Rec>): Option<Rec>
  {
    match WorkflowRunId(c)
    case None => None
    case Some(k) =>
      if k in runs && Get(runs[k], "path") == Str(r.workflowPath) && Get(runs[k], "head_sha") == Str(sha)
      then Some(runs[k]) else None
  }

  predicate NamedCheck(r: Requirement, sha: string, c: Rec)
  {
    Get(c, "name") == Str(r.jobName) && Get(c, "head_sha") == Str(sha)
  }

  function NamedFor(r: Requirement, sha: string): Rec -> bool { c => NamedCheck(r, sha, c) }

  /** Highest id first. */
  predicate HigherId(a: Rec, b: Rec) { IdOf(a) >= IdOf(b) }

  /** The first check of the list that a workflow run backs. */
  function FirstBacked(r: Requirement, sha: string, cs: seq<Rec>, runs: map<int, Rec>): Option<(Rec, Rec)>
  {
    if cs == [] then None
    else if Backing(r, sha, cs[0], runs).Some? then Some((cs[0], Backing(r, sha, cs[0], runs).value))
    else FirstBacked(r, sha, cs[1..], runs)
  }

  function SelectCheck(r: Requirement, sha: string, checks: seq<Rec>, runs: map<int, Rec>): Option<(Rec, Rec)>
  {
    FirstBacked(r, sha, SortBy(HigherId, Filter(NamedFor(r, sha), checks)), runs)
  }

  /** A check that counts for a requirement: right name, commit and workflow. */
  predicate Eligible(r: Requirement, sha: string, c: Rec, runs: map<int, Rec>)
  {
    NamedCheck(r, sha, c) && Backing(r, sha, c, runs).Some?
  }

  // ---------------------------------------------------------------- the report

  datatype GateState = Success | Failure | Missing | Pending

  function StateText(s: GateState): string
  {
    match s
    case Success => "success"
    case Failure => "failure"
    case Missing => "missing"
    case Pending => "pending"
  }

  function RequirementState(c: Rec): GateState
  {
    if Get(c, "status") != Str("completed") then Pending
    else if Get(c, "conclusion") == Str("success") then Success
    else Failure
  }

  function SelectedState(sel: Option<(Rec, Rec)>): GateState
  {
    if sel.None? then Missing else RequirementState(sel.value.0)
  }

  function CombinedState(states: seq<GateState>): GateState
  {
    if Failure in states then Failure
    else if Missing in states then Missing
    else if Pending in states then Pending
    else Success
  }

  function EvidenceItem(c: Rec, w: Rec): Json
  {
    Obj(map["workflow" := Get(w, "name"),
            "workflow_path" := Get(w, "path"),
            "job" := Get(c, "name"),
            "run_id" := Get(w, "id"),
            "check_run_id" := Get(c, "id"),
            "sha" := Get(c, "head_sha"),
            "status" := Get(c, "status"),
            "conclusion" := Get(c, "conclusion"),
            "completed_at" := Get(c, "completed_at"),
            "details_url" := Get(c, "details_url")])
  }

  datatype Snapshot = Snapshot(checks: seq<Rec>, runs: map<int, Rec>)

  function Selected(r: Requirement, sha: string, snap: Snapshot): Option<(Rec, Rec)>
  {
    SelectCheck(r, sha, snap.checks, snap.runs)
  }

  function States(rs: seq<Requirement>, sha: string, snap: Snapshot): seq<GateState>
  {
    if rs == [] then []
    else States(rs[..|rs| - 1], sha, snap) + [SelectedState(Selected(rs[|rs| - 1], sha, snap))]
  }

  function EvidenceFor(sel: Option<(Rec, Rec)>): seq<Json>
  {
    if sel.None? then [] else [EvidenceItem(sel.value.0, sel.value.1)]
  }

  function Evidence(rs: seq<Requirement>, sha: string, snap: Snapshot): seq<Json>
  {
    if rs == [] then []
    else Evidence(rs[..|rs| - 1], sha, snap) + EvidenceFor(Selected(rs[|rs| - 1], sha, snap))
  }

  function GateJson(status: GateState, required: nat, evidence: seq<Json>): Json
  {
    Obj(map["status" := Str(StateText(status)), "required_checks" := Int(required), "evidence" := Arr(evidence)])
  }

  function GateStateOf(g: GateSpec, sha: string, snap: Snapshot): GateState
  {
    CombinedState(States(g.requirements, sha, snap))
  }

  function GateReport(g: GateSpec, sha: string, snap: Snapshot): Json
  {
    GateJson(GateStateOf(g, sha, snap), |g.requirements|, Evidence(g.requirements, sha, snap))
  }

  function GateReports(gs: seq<GateSpec>, sha: string, snap: Snapshot): Rec
  {
    if gs == [] then map[]
    else GateReports(gs[..|gs| - 1], sha, snap)[gs[|gs| - 1].name := GateReport(gs[|gs| - 1], sha, snap)]
  }

  function ReportJson(sha: string, runId: int, gates: Rec): Rec
  {
    map["schema" := Str("release_gate_evidence.v1"),
        "source" := Str("github_check_runs"),
        "sha" := Str(sha),
        "workflow_run_id" := Int(runId),
        "gates" := Obj(gates)]
  }

  function BuildReport(sha: string, runId: int, snap: Snapshot): Rec
  {
    ReportJson(sha, runId, GateReports(GATES, sha, snap))
  }

  /** `build_report` as written: two nested loops that append. */
  method CollectReport(sha: string, runId: int, snap: Snapshot) returns (report: Rec)
    ensures report == BuildReport(sha, runId, snap)
  {
    var gates := CollectGates(GATES, sha, snap);
    report := ReportJson(sha, runId, gates);
  }

  method CollectGates(gs: seq<GateSpec>, sha: string, snap: Snapshot) returns (gates: Rec)
    ensures gates == GateReports(gs, sha, snap)
  {
    gates := map[];
    var i := 0;
    while i < |gs|
      invariant i <= |gs|
      invariant gates == GateReports(gs[..i], sha, snap)
    {
      var gate := CollectGate(gs[i], sha, snap);
      assert gs[..i + 1][..i] == gs[..i];
      gates := gates[gs[i].name := gate];
      i := i + 1;
    }
    assert gs[..i] == gs;
  }

  method CollectGate(g: GateSpec, sha: string, snap: Snapshot) returns (gate: Json)
    ensures gate == GateReport(g, sha, snap)
  {
    var states: seq<GateState> := [];
    var evidence: seq<Json> := [];
    var rs := g.requirements;
    var i := 0;
    while i < |rs|
      invariant i <= |rs|
      invariant states == States(rs[..i], sha, snap) && evidence == Evidence(rs[..i], sha, snap)
    {
      var sel := Selected(rs[i], sha, snap);
      assert rs[..i + 1][..i] == rs[..i];
      states := states + [SelectedState(sel)];
      evidence := evidence + EvidenceFor(sel);
      i := i + 1;
    }
    assert rs[..i] == rs;
    gate := GateJson(CombinedState(states), |rs|, evidence);
  }

  // ---------------------------------------------------------------- what selection finds

  lemma HigherIdIsPreorder()
    ensures TotalPreorder(HigherId)
  {
  }

  lemma {:induction false} FirstBackedIsFirst(r: Requirement, sha: string, cs: seq<Rec>, runs: map<int, Rec>) returns (k: nat)
    ensures FirstBacked(r, sha, cs, runs).None? ==>
            k == |cs| && forall i :: 0 <= i < |cs| ==> Backing(r, sha, cs[i], runs).None?
    ensures FirstBacked(r, sha, cs, runs).Some? ==>
            && k < |cs| && Backing(r, sha, cs[k], runs).Some?
            && FirstBacked(r, sha, cs, runs).value == (cs[k], Backing(r, sha, cs[k], runs).value)
            && forall i :: 0 <= i < k ==> Backing(r, sha, cs[i], runs).None?
  {
    k := 0;
    if cs != [] && Backing(r, sha, cs[0], runs).None? {
      var j := FirstBackedIsFirst(r, sha, cs[1..], runs);
      assert forall i :: 0 < i < |cs| ==> cs[i] == cs[1..][i - 1];
      k := j + 1;
    }
  }

  /** The selected check is an eligible one with the highest id; none is selected only if none is eligible. */
  lemma SelectionIsBest(r: Requirement, sha: string, checks: seq<Rec>, runs: map<int, Rec>)
    ensures var sel := SelectCheck(r, sha, checks, runs);
            && (sel.None? ==> forall d :: d in checks ==> !Eligible(r, sha, d, runs))
            && (sel.Some? ==>
                  && sel.value.0 in checks && Eligible(r, sha, sel.value.0, runs)
                  && Backing(r, sha, sel.value.0, runs) == Some(sel.value.1)
                  && forall d :: d in checks && Eligible(r, sha, d, runs) ==> IdOf(d) <= IdOf(sel.value.0))
  {
    var named := Filter(NamedFor(r, sha), checks);
    var cs := SortBy(HigherId, named);
    HigherIdIsPreorder();
    SortPermutes(HigherId, named);
    SortSorts(HigherId, named);
    var k := FirstBackedIsFirst(r, sha, cs, runs);
    forall d ensures d in cs <==> d in checks && NamedCheck(r, sha, d) {
      FilterMember(NamedFor(r, sha), checks, d);
    }
    if k < |cs| {
      assert cs[k] in cs;
    }
    forall d | d in checks && Eligible(r, sha, d, runs) ensures k < |cs| && IdOf(d) <= IdOf(cs[k]) {
      assert d in cs;
      var j :| 0 <= j < |cs| && cs[j] == d;
      if k < j { assert HigherId(cs[k], cs[j]); }
    }
  }

  predicate DistinctIds(checks: seq<Rec>)
  {
    forall i, j :: 0 <= i < j < |checks| ==> IdOf(checks[i]) != IdOf(checks[j])
  }

  lemma SameIdSameCheck(checks: seq<Rec>, c: Rec, d: Rec)
    requires DistinctIds(checks) && c in checks && d in checks && IdOf(c) == IdOf(d)
    ensures c == d
  {
    var i :| 0 <= i < |checks| && checks[i] == c;
    var j :| 0 <= j < |checks| && checks[j] == d;
  }

  /** The report does not depend on the order in which the checks were listed. */
  lemma SelectionIgnoresOrder(r: Requirement, sha: string, checks: seq<Rec>, other: seq<Rec>, runs: map<int, Rec>)
    requires DistinctIds(checks) && multiset(checks) == multiset(other)
    ensures SelectCheck(r, sha, checks, runs) == SelectCheck(r, sha, other, runs)
  {
    SelectionIsBest(r, sha, checks, runs);
    SelectionIsBest(r, sha, other, runs);
    forall d ensures d in checks <==> d in other {
      assert d in multiset(checks) <==> d in multiset(other);
    }
    var a, b := SelectCheck(r, sha, checks, runs), SelectCheck(r, sha, other, runs);
    if a.Some? && b.Some? {
      SameIdSameCheck(checks, a.value.0, b.value.0);
    }
  }
}
