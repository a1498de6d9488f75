/** The release gate end to end: what the evaluator says about what the collector saw. */
module ReleaseGate {
  import opened Collections
  import opened CanonicalJson
  import opened PyValues
  import opened PyText
  import opened ReleaseEvidence
  import opened ReleaseCandidate

  // ---------------------------------------------------------------- what a release needs, in plain terms

  predicate Passed(c: Rec) { Get(c, "status") == Str("completed") && Get(c, "conclusion") == Str("success") }

  /**
   * A check that counts for a requirement: it has the job's name and is about this commit, and the
   * workflow run its URL names exists, runs that workflow and is about this commit too.
   */
  predicate Counts(r: Requirement, sha: string, c: Rec, runs: map<int, Rec>)
  {
    && Get(c, "name") == Str(r.jobName) && Get(c, "head_sha") == Str(sha)
    && WorkflowRunId(c).Some? && WorkflowRunId(c).value in runs
    && var run := runs[WorkflowRunId(c).value];
    Get(run, "path") == Str(r.workflowPath) && Get(run, "head_sha") == Str(sha)
  }

  lemma CountsIff(r: Requirement, sha: string, runs: map<int, Rec>)
    ensures forall c :: Eligible(r, sha, c, runs) <==> Counts(r, sha, c, runs)
  {
  }

  /** The check that counts with the highest id. */
  predicate Best(r: Requirement, sha: string, snap: Snapshot, c: Rec)
  {
    c in snap.checks && Counts(r, sha, c, snap.runs) && forall d :: d in snap.checks && Counts(r, sha, d, snap.runs) ==> IdOf(d) <= IdOf(c)
  }

  /** The best check passed. */
  predicate Met(r: Requirement, sha: string, snap: Snapshot) { exists c :: c in snap.checks && Best(r, sha, snap, c) && Passed(c) }

  predicate AllMet(g: GateSpec, sha: string, snap: Snapshot)
  {
    forall i :: 0 <= i < |g.requirements| ==> Met(g.requirements[i], sha, snap)
  }

  /** Records as the GitHub API delivers them. */
  predicate WellFormed(snap: Snapshot)
  {
    && DistinctIds(snap.checks)
    && (forall c :: c in snap.checks ==>
          PositiveInt(Get(c, "id")) && (Get(c, "status") == Str("completed") ==> NonBlankText(Get(c, "completed_at"))))
    && (forall k :: k in snap.runs ==> PositiveInt(Get(snap.runs[k], "id")) && NonBlankText(Get(snap.runs[k], "name")))
  }

  /** Requirements as the table states them. */
  predicate ProperRequirement(r: Requirement)
  {
    StartsWith(r.workflowPath, ".github/workflows/") && Strip(r.jobName) != ""
  }

  predicate ProperGates(gs: seq<GateSpec>)
  {
    && (forall i, j :: 0 <= i < j < |gs| ==> gs[i].name != gs[j].name)
    && (forall i :: 0 <= i < |gs| ==> ProperGate(gs[i]))
  }

  // ---------------------------------------------------------------- one requirement

  /** Selection finds a best check whenever some check counts. */
  lemma SelectedIsBest(r: Requirement, sha: string, snap: Snapshot)
    ensures Selected(r, sha, snap).None? <==> forall c :: c in snap.checks ==> !Counts(r, sha, c, snap.runs)
    ensures Selected(r, sha, snap).Some? ==> Best(r, sha, snap, Selected(r, sha, snap).value.0)
  {
    SelectionIsBest(r, sha, snap.checks, snap.runs);
    CountsIff(r, sha, snap.runs);
  }

  /** A selected check that passed is the best one, whatever the records look like. */
  lemma SelectedPassMeansMet(r: Requirement, sha: string, snap: Snapshot)
    requires SelectedState(Selected(r, sha, snap)) == Success
    ensures Met(r, sha, snap)
  {
    SelectedIsBest(r, sha, snap);
    assert Passed(Selected(r, sha, snap).value.0);
  }

  /** With distinct ids there is one best check, the selected one. */
  lemma BestIsSelected(r: Requirement, sha: string, snap: Snapshot, c: Rec)
    requires DistinctIds(snap.checks) && Best(r, sha, snap, c)
    ensures Selected(r, sha, snap).Some? && Selected(r, sha, snap).value.0 == c
  {
    SelectedIsBest(r, sha, snap);
    SameIdSameCheck(snap.checks, c, Selected(r, sha, snap).value.0);
  }

  lemma SelectedPassesIffMet(r: Requirement, sha: string, snap: Snapshot)
    requires DistinctIds(snap.checks)
    ensures SelectedState(Selected(r, sha, snap)) == Success <==> Met(r, sha, snap)
  {
    if Met(r, sha, snap) {
      var c :| c in snap.checks && Best(r, sha, snap, c) && Passed(c);
      BestIsSelected(r, sha, snap, c);
    } else if SelectedState(Selected(r, sha, snap)) == Success {
      SelectedPassMeansMet(r, sha, snap);
    }
  }

  /** Evidence for a passed requirement satisfies every check the evaluator makes. */
  lemma PassedEvidenceIsValid(r: Requirement, sha: string, snap: Snapshot)
    requires WellFormed(snap) && ProperRequirement(r)
    requires Selected(r, sha, snap).Some? && SelectedState(Selected(r, sha, snap)) == Success
    ensures var sel := Selected(r, sha, snap).value;
            ValidItem(EvidenceItem(sel.0, sel.1), sha)
  {
    SelectionIsBest(r, sha, snap.checks, snap.runs);
    var sel := Selected(r, sha, snap).value;
    var k := WorkflowRunId(sel.0).value;
    assert sel.1 == snap.runs[k];
    CheckEntries(sel.0, sel.1);
    RunEntries(sel.0, sel.1);
  }

  lemma CheckEntries(c: Rec, w: Rec)
    ensures var d := EvidenceItem(c, w).fields;
            && Get(d, "job") == Get(c, "name") && Get(d, "check_run_id") == Get(c, "id") && Get(d, "sha") == Get(c, "head_sha")
            && Get(d, "status") == Get(c, "status") && Get(d, "conclusion") == Get(c, "conclusion")
  {
  }

  lemma RunEntries(c: Rec, w: Rec)
    ensures var d := EvidenceItem(c, w).fields;
            && Get(d, "workflow") == Get(w, "name") && Get(d, "workflow_path") == Get(w, "path")
            && Get(d, "run_id") == Get(w, "id") && Get(d, "completed_at") == Get(c, "completed_at")
  {
  }

  // ---------------------------------------------------------------- one gate

  lemma {:induction false} StatesPointwise(rs: seq<Requirement>, sha: string, snap: Snapshot)
    ensures |States(rs, sha, snap)| == |rs|
    ensures forall i :: 0 <= i < |rs| ==> States(rs, sha, snap)[i] == SelectedState(Selected(rs[i], sha, snap))
  {
    if rs != [] {
      var n := |rs| - 1;
      var init, last := States(rs[..n], sha, snap), SelectedState(Selected(rs[n], sha, snap));
      StatesPointwise(rs[..n], sha, snap);
      assert States(rs, sha, snap) == init + [last];
      forall i | 0 <= i < |rs| ensures (init + [last])[i] == SelectedState(Selected(rs[i], sha, snap)) {
        if i < n { assert init[i] == SelectedState(Selected(rs[..n][i], sha, snap)); }
      }
    }
  }

  lemma CombinedIsConjunction(states: seq<GateState>)
    ensures CombinedState(states) == Success <==> forall i :: 0 <= i < |states| ==> states[i] == Success
  {
    if forall i :: 0 <= i < |states| ==> states[i] == Success {
    } else {
      var i :| 0 <= i < |states| && states[i] != Success;
      assert states[i] in states;
    }
  }

  lemma EvidenceSnoc(rs: seq<Requirement>, sha: string, snap: Snapshot, init: seq<Json>, sel: Option<(Rec, Rec)>)
    requires rs != [] && init == Evidence(rs[..|rs| - 1], sha, snap) && sel == Selected(rs[|rs| - 1], sha, snap) && sel.Some?
    ensures Evidence(rs, sha, snap) == init + [EvidenceItem(sel.value.0, sel.value.1)]
  {
  }

  /** Each selected check contributes its evidence at its own place. */
  lemma {:induction false} EvidencePointwise(rs: seq<Requirement>, sha: string, snap: Snapshot, sels: seq<(Rec, Rec)>)
    requires |sels| == |rs| && forall i :: 0 <= i < |rs| ==> Selected(rs[i], sha, snap) == Some(sels[i])
    ensures |Evidence(rs, sha, snap)| == |rs|
    ensures forall i :: 0 <= i < |rs| ==> Evidence(rs, sha, snap)[i] == EvidenceItem(sels[i].0, sels[i].1)
  {
    if rs != [] {
      var n := |rs| - 1;
      var init := Evidence(rs[..n], sha, snap);
      EvidencePointwise(rs[..n], sha, snap, sels[..n]);
      assert |init| == n;
      assert Selected(rs[n], sha, snap) == Some(sels[n]);
      EvidenceSnoc(rs, sha, snap, init, Some(sels[n]));
      SnocPointwise(init, sels, EvidenceItem(sels[n].0, sels[n].1));
    }
  }

  lemma SnocPointwise(init: seq<Json>, sels: seq<(Rec, Rec)>, last: Json)
    requires |sels| == |init| + 1 && last == EvidenceItem(sels[|init|].0, sels[|init|].1)
    requires forall i :: 0 <= i < |init| ==> init[i] == EvidenceItem(sels[..|init|][i].0, sels[..|init|][i].1)
    ensures forall i :: 0 <= i < |sels| ==> (init + [last])[i] == EvidenceItem(sels[i].0, sels[i].1)
  {
    forall i | 0 <= i < |sels| ensures (init + [last])[i] == EvidenceItem(sels[i].0, sels[i].1) {
      if i < |init| { assert sels[..|init|][i] == sels[i]; }
    }
  }

  lemma GateJsonEntries(status: GateState, required: nat, evidence: seq<Json>)
    ensures var d := GateJson(status, required, evidence).fields;
            && Get(d, "status") == Str(StateText(status)) && Get(d, "required_checks") == Int(required)
            && Get(d, "evidence") == Arr(evidence)
    ensures StateText(status) == "success" <==> status == Success
  {
  }

  lemma GateStateIffAllMet(g: GateSpec, sha: string, snap: Snapshot)
    requires WellFormed(snap)
    ensures GateStateOf(g, sha, snap) == Success <==> AllMet(g, sha, snap)
  {
    var rs := g.requirements;
    StatesPointwise(rs, sha, snap);
    CombinedIsConjunction(States(rs, sha, snap));
    forall i | 0 <= i < |rs| ensures States(rs, sha, snap)[i] == Success <==> Met(rs[i], sha, snap) {
      SelectedPassesIffMet(rs[i], sha, snap);
    }
  }

  /** A gate reported as successful has all its requirements met, whatever the records look like. */
  lemma GateSuccessMeansMet(g: GateSpec, sha: string, snap: Snapshot)
    requires GateStateOf(g, sha, snap) == Success
    ensures AllMet(g, sha, snap)
  {
    var rs := g.requirements;
    StatesPointwise(rs, sha, snap);
    CombinedIsConjunction(States(rs, sha, snap));
    forall i | 0 <= i < |rs| ensures Met(rs[i], sha, snap) {
      assert States(rs, sha, snap)[i] == Success;
      SelectedPassMeansMet(rs[i], sha, snap);
    }
  }

  function SelectedPair(r: Requirement, sha: string, snap: Snapshot): (Rec, Rec)
  {
    var sel := Selected(r, sha, snap);
    if sel.Some? then sel.value else (map[], map[])
  }

  function SelectedPairs(rs: seq<Requirement>, sha: string, snap: Snapshot): seq<(Rec, Rec)>
  {
    seq(|rs|, i requires 0 <= i < |rs| => SelectedPair(rs[i], sha, snap))
  }

  lemma MetIsSelected(r: Requirement, sha: string, snap: Snapshot)
    requires WellFormed(snap) && ProperRequirement(r) && Met(r, sha, snap)
    ensures var p := SelectedPair(r, sha, snap);
            Selected(r, sha, snap) == Some(p) && ValidItem(EvidenceItem(p.0, p.1), sha)
  {
    SelectedPassesIffMet(r, sha, snap);
    PassedEvidenceIsValid(r, sha, snap);
  }

  /** A gate whose requirements are all met also carries evidence the evaluator accepts. */
  lemma MetGateHasValidEvidence(g: GateSpec, sha: string, snap: Snapshot)
    requires WellFormed(snap) && AllMet(g, sha, snap) && g.requirements != []
    requires forall j :: 0 <= j < |g.requirements| ==> ProperRequirement(g.requirements[j])
    ensures ValidGateEvidence(GateReport(g, sha, snap), sha)
  {
    var rs := g.requirements;
    var sels := SelectedPairs(rs, sha, snap);
    forall i | 0 <= i < |rs|
      ensures Selected(rs[i], sha, snap) == Some(sels[i]) && ValidItem(EvidenceItem(sels[i].0, sels[i].1), sha)
    {
      assert Met(rs[i], sha, snap);
      MetIsSelected(rs[i], sha, snap);
    }
    EvidencePointwise(rs, sha, snap, sels);
    GateStateIffAllMet(g, sha, snap);
    ValidGate(GateStateOf(g, sha, snap), Evidence(rs, sha, snap), sha);
  }

  lemma ValidGate(status: GateState, evidence: seq<Json>, sha: string)
    requires status == Success && evidence != [] && forall i :: 0 <= i < |evidence| ==> ValidItem(evidence[i], sha)
    ensures ValidGateEvidence(GateJson(status, |evidence|, evidence), sha)
  {
    GateJsonEntries(status, |evidence|, evidence);
  }

  // ---------------------------------------------------------------- the report

  lemma {:induction false} ReportedGate(gs: seq<GateSpec>, sha: string, snap: Snapshot, i: nat)
    requires i < |gs| && forall i, j :: 0 <= i < j < |gs| ==> gs[i].name != gs[j].name
    ensures gs[i].name in GateReports(gs, sha, snap)
    ensures GateReports(gs, sha, snap)[gs[i].name] == GateReport(gs[i], sha, snap)
  {
    if i < |gs| - 1 { ReportedGate(gs[..|gs| - 1], sha, snap, i); }
  }

  lemma ReportEntries(sha: string, runId: int, gates: Rec)
    ensures var d := ReportJson(sha, runId, gates);
            && (ValidEnvelope(d) <==> |sha| == 40)
            && Reported(d) == gates && Get(d, "sha") == Str(sha)
  {
    var d := ReportJson(sha, runId, gates);
    assert Get(d, "schema") == Str("release_gate_evidence.v1") && Get(d, "source") == Str("github_check_runs");
    assert "gates" in d && d["gates"] == Obj(gates);
  }

  lemma GreenIffAllMet(gs: seq<GateSpec>, sha: string, runId: int, snap: Snapshot, i: nat)
    requires WellFormed(snap) && ProperGates(gs) && |sha| == 40 && i < |gs|
    ensures Judge(ReportJson(sha, runId, GateReports(gs, sha, snap)), gs[i].name).IsGreen? <==> AllMet(gs[i], sha, snap)
  {
    var g := gs[i];
    ReportedGate(gs, sha, snap, i);
    ReportEntries(sha, runId, GateReports(gs, sha, snap));
    GateJsonEntries(GateStateOf(g, sha, snap), |g.requirements|, Evidence(g.requirements, sha, snap));
    GateStateIffAllMet(g, sha, snap);
    if AllMet(g, sha, snap) {
      MetGateHasValidEvidence(g, sha, snap);
    }
  }

  /** Every requirement of every gate of the table is met. */
  predicate EveryRequirementMet(gs: seq<GateSpec>, sha: string, snap: Snapshot)
  {
    forall i, j :: 0 <= i < |gs| && 0 <= j < |gs[i].requirements| ==> Met(gs[i].requirements[j], sha, snap)
  }

  lemma EveryGateMet(gs: seq<GateSpec>, sha: string, snap: Snapshot)
    ensures EveryRequirementMet(gs, sha, snap) <==> forall i :: 0 <= i < |gs| ==> AllMet(gs[i], sha, snap)
  {
  }

  predicate SameNames(gs: seq<GateSpec>, required: seq<string>)
  {
    |gs| == |required| && forall i :: 0 <= i < |gs| ==> gs[i].name == required[i]
  }

  lemma ReadyIffAllMet(gs: seq<GateSpec>, required: seq<string>, sha: string, runId: int, snap: Snapshot)
    requires WellFormed(snap) && ProperGates(gs) && SameNames(gs, required) && |sha| == 40
    ensures EvaluateAgainst(ReportJson(sha, runId, GateReports(gs, sha, snap)), required).ready <==> EveryRequirementMet(gs, sha, snap)
  {
    if EveryRequirementMet(gs, sha, snap) {
      MetMeansReady(gs, required, sha, runId, snap);
    } else if EvaluateAgainst(ReportJson(sha, runId, GateReports(gs, sha, snap)), required).ready {
      ReadyMeansMet(gs, required, sha, runId, snap);
    }
  }

  /** The other half: well-formed records with every requirement met are certified. */
  lemma MetMeansReady(gs: seq<GateSpec>, required: seq<string>, sha: string, runId: int, snap: Snapshot)
    requires WellFormed(snap) && ProperGates(gs) && SameNames(gs, required) && |sha| == 40 && EveryRequirementMet(gs, sha, snap)
    ensures EvaluateAgainst(ReportJson(sha, runId, GateReports(gs, sha, snap)), required).ready
  {
    var report := ReportJson(sha, runId, GateReports(gs, sha, snap));
    ReadyIffAllGreen(report, required);
    ReportEntries(sha, runId, GateReports(gs, sha, snap));
    forall g | g in required ensures Judge(report, g).IsGreen? {
      var i :| 0 <= i < |required| && required[i] == g;
      OneGateMet(gs, sha, snap, i);
      GreenIffAllMet(gs, sha, runId, snap, i);
    }
  }

  lemma OneGateMet(gs: seq<GateSpec>, sha: string, snap: Snapshot, i: nat)
    requires i < |gs| && EveryRequirementMet(gs, sha, snap)
    ensures AllMet(gs[i], sha, snap)
  {
  }

  /** The safety half: whatever the records look like, ready means a full commit hash and every requirement met. */
  lemma ReadyMeansMet(gs: seq<GateSpec>, required: seq<string>, sha: string, runId: int, snap: Snapshot)
    requires ProperGates(gs) && SameNames(gs, required)
    requires EvaluateAgainst(ReportJson(sha, runId, GateReports(gs, sha, snap)), required).ready
    ensures |sha| == 40 && EveryRequirementMet(gs, sha, snap)
  {
    EveryGateMet(gs, sha, snap);
    var report := ReportJson(sha, runId, GateReports(gs, sha, snap));
    ReadyIffAllGreen(report, required);
    ReportEntries(sha, runId, GateReports(gs, sha, snap));
    forall i | 0 <= i < |gs| ensures AllMet(gs[i], sha, snap) {
      assert required[i] in required;
      ReportedGate(gs, sha, snap, i);
      GateJsonEntries(GateStateOf(gs[i], sha, snap), |gs[i].requirements|, Evidence(gs[i].requirements, sha, snap));
      GateSuccessMeansMet(gs[i], sha, snap);
    }
  }

  // ---------------------------------------------------------------- the tables agree

  lemma ProperJob(path: string, job: string)
    requires StartsWith(path, ".github/workflows/") && job != "" && Trimmed(job)
    ensures ProperRequirement(Requirement(path, job))
  {
    StripFacts(job);
  }

  predicate ProperGate(g: GateSpec)
  {
    g.requirements != [] && forall j :: 0 <= j < |g.requirements| ==> ProperRequirement(g.requirements[j])
  }

  lemma SingleJob(name: string, path: string, job: string)
    requires StartsWith(path, ".github/workflows/") && job != "" && Trimmed(job)
    ensures ProperGate(GateSpec(name, [Requirement(path, job)]))
  {
    ProperJob(path, job);
  }

  lemma TwoJobs(name: string, path: string, job: string, path': string, job': string)
    requires StartsWith(path, ".github/workflows/") && job != "" && Trimmed(job)
    requires StartsWith(path', ".github/workflows/") && job' != "" && Trimmed(job')
    ensures ProperGate(GateSpec(name, [Requirement(path, job), Requirement(path', job')]))
  {
    ProperJob(path, job);
    ProperJob(path', job');
  }

  lemma GateTableIsProper()
    ensures ProperGates(GATES)
  {
    GateTableNames();
    forall i | 0 <= i < |GATES| ensures ProperGate(GATES[i]) {
      if i < 6 { FirstGates(i); } else { LastGates(i); }
    }
  }

  lemma GateTableNames()
    ensures forall i, j :: 0 <= i < j < |GATES| ==> GATES[i].name != GATES[j].name
  {
  }

  lemma FirstGates(i: nat)
    requires i < 6
    ensures ProperGate(GATES[i])
  {
    SingleJob("pytest-3.11", CI, "test (3.11)");
    SingleJob("pytest-3.12", CI, "test (3.12)");
    SingleJob("coverage-branch", PHASE7, "Branch coverage gate");
    SingleJob("ruff", PHASE7, "Ruff lint");
    SingleJob("bandit", CI, "security");
    SingleJob("dep-audit", CI, "security");
  }

  lemma LastGates(i: nat)
    requires 6 <= i < |GATES|
    ensures ProperGate(GATES[i])
  {
    SingleJob("alembic", CI, "PostgreSQL migration graph");
    SingleJob("merge-gate", ".github/workflows/merge_gate.yml", "merge-gate");
    SingleJob("bwrap", PHASE7, "Integration runner (env-dependent suites)");
    TwoJobs("sdk-proxy", PHASE7, "SDK proxy matrix (stripped)", PHASE7, "SDK proxy matrix (exported)");
    SingleJob("e2e-integration", PHASE7, "Integration runner (env-dependent suites)");
  }

  lemma TablesAgree()
    ensures SameNames(GATES, REQUIRED_GATES)
  {
  }

  // ---------------------------------------------------------------- main results

  /**
   * Soundness and completeness across both programs: a release candidate is ready exactly when, for
   * every requirement of every gate, the highest-numbered check with the right name, commit and
   * workflow completed successfully.
   */
  lemma ReleaseIff(sha: string, runId: int, snap: Snapshot)
    requires WellFormed(snap) && |sha| == 40
    ensures Evaluate(BuildReport(sha, runId, snap)).ready <==> EveryRequirementMet(GATES, sha, snap)
  {
    GateTableIsProper();
    TablesAgree();
    ReadyIffAllMet(GATES, REQUIRED_GATES, sha, runId, snap);
  }

  /** Soundness alone needs nothing of the records: no input whatsoever is certified without the checks. */
  lemma ReleaseSoundness(sha: string, runId: int, snap: Snapshot)
    requires Evaluate(BuildReport(sha, runId, snap)).ready
    ensures |sha| == 40 && EveryRequirementMet(GATES, sha, snap)
  {
    GateTableIsProper();
    TablesAgree();
    ReadyMeansMet(GATES, REQUIRED_GATES, sha, runId, snap);
  }

  lemma {:induction false} ReportsIgnoreOrder(gs: seq<GateSpec>, sha: string, snap: Snapshot, other: Snapshot)
    requires DistinctIds(snap.checks) && multiset(snap.checks) == multiset(other.checks) && snap.runs == other.runs
    ensures GateReports(gs, sha, snap) == GateReports(gs, sha, other)
  {
    if gs != [] {
      ReportsIgnoreOrder(gs[..|gs| - 1], sha, snap, other);
      GateIgnoresOrder(gs[|gs| - 1].requirements, sha, snap, other);
    }
  }

  lemma {:induction false} GateIgnoresOrder(rs: seq<Requirement>, sha: string, snap: Snapshot, other: Snapshot)
    requires DistinctIds(snap.checks) && multiset(snap.checks) == multiset(other.checks) && snap.runs == other.runs
    ensures States(rs, sha, snap) == States(rs, sha, other) && Evidence(rs, sha, snap) == Evidence(rs, sha, other)
  {
    if rs != [] {
      GateIgnoresOrder(rs[..|rs| - 1], sha, snap, other);
      SelectionIgnoresOrder(rs[|rs| - 1], sha, snap.checks, other.checks, snap.runs);
    }
  }

  /** The whole report, and so the verdict, ignores the order in which checks are listed. */
  lemma VerdictIgnoresOrder(sha: string, runId: int, snap: Snapshot, other: Snapshot)
    requires DistinctIds(snap.checks) && multiset(snap.checks) == multiset(other.checks) && snap.runs == other.runs
    ensures BuildReport(sha, runId, snap) == BuildReport(sha, runId, other)
  {
    ReportsIgnoreOrder(GATES, sha, snap, other);
  }
}
