/** What the collector reports of each gate, and when the polling loop stops, read off the records. */
module ReleaseStatus {
  import opened Collections
  import opened CanonicalJson
  import opened PyValues
  import opened PyText
  import opened ReleaseEvidence
  import opened ReleaseCandidate
  import opened ReleaseGate
  import Polling = ReleasePolling

  // ---------------------------------------------------------------- one requirement

  /** The best check is completed with anything but success. */
  predicate Failing(r: Requirement, sha: string, snap: Snapshot)
  {
    exists c :: c in snap.checks && Best(r, sha, snap, c) && Get(c, "status") == Str("completed") && Get(c, "conclusion") != Str("success")
  }

  /** No check counts. */
  predicate Absent(r: Requirement, sha: string, snap: Snapshot) { forall c :: c in snap.checks ==> !Counts(r, sha, c, snap.runs) }

  /** The best check is not completed. */
  predicate Awaited(r: Requirement, sha: string, snap: Snapshot)
  {
    exists c :: c in snap.checks && Best(r, sha, snap, c) && Get(c, "status") != Str("completed")
  }

  lemma RequirementIff(r: Requirement, sha: string, snap: Snapshot)
    requires DistinctIds(snap.checks)
    ensures var s := SelectedState(Selected(r, sha, snap));
            && (s == Failure <==> Failing(r, sha, snap)) && (s == Missing <==> Absent(r, sha, snap))
            && (s == Pending <==> Awaited(r, sha, snap)) && (s == Success <==> Met(r, sha, snap))
  {
    SelectedIsBest(r, sha, snap);
    SelectedPassesIffMet(r, sha, snap);
    var sel := Selected(r, sha, snap);
    if c :| c in snap.checks && Best(r, sha, snap, c) && Get(c, "status") == Str("completed") && Get(c, "conclusion") != Str("success") {
      BestIsSelected(r, sha, snap, c);
    }
    if c :| c in snap.checks && Best(r, sha, snap, c) && Get(c, "status") != Str("completed") {
      BestIsSelected(r, sha, snap, c);
    }
  }

  // ---------------------------------------------------------------- one gate

  predicate SomeFailing(g: GateSpec, sha: string, snap: Snapshot)
  {
    exists i :: 0 <= i < |g.requirements| && Failing(g.requirements[i], sha, snap)
  }

  predicate SomeAbsent(g: GateSpec, sha: string, snap: Snapshot)
  {
    exists i :: 0 <= i < |g.requirements| && Absent(g.requirements[i], sha, snap)
  }

  predicate SomeAwaited(g: GateSpec, sha: string, snap: Snapshot)
  {
    exists i :: 0 <= i < |g.requirements| && Awaited(g.requirements[i], sha, snap)
  }

  /** One failing requirement fails a gate; else one absent is missing; else one awaited is pending. */
  lemma GateStateIff(g: GateSpec, sha: string, snap: Snapshot)
    requires DistinctIds(snap.checks)
    ensures var s, failing, absent, awaited := GateStateOf(g, sha, snap), SomeFailing(g, sha, snap), SomeAbsent(g, sha, snap), SomeAwaited(g, sha, snap);
            && (s == Failure <==> failing) && (s == Missing <==> !failing && absent)
            && (s == Pending <==> !failing && !absent && awaited) && (s == Success <==> AllMet(g, sha, snap))
  {
    var rs, states := g.requirements, States(g.requirements, sha, snap);
    StatesPointwise(rs, sha, snap);
    forall i | 0 <= i < |rs|
      ensures (states[i] == Failure <==> Failing(rs[i], sha, snap)) && (states[i] == Missing <==> Absent(rs[i], sha, snap))
      ensures (states[i] == Pending <==> Awaited(rs[i], sha, snap)) && (states[i] == Success <==> Met(rs[i], sha, snap))
    {
      RequirementIff(rs[i], sha, snap);
    }
    StateInIff(states, Failure);
    StateInIff(states, Missing);
    StateInIff(states, Pending);
    CombinedIsConjunction(states);
  }

  lemma StateInIff(states: seq<GateState>, s: GateState)
    ensures s in states <==> exists i :: 0 <= i < |states| && states[i] == s
  {
  }

  /** The status text of one gate in a report. */
  function ReportedStatus(report: Rec, gate: string): Json
  {
    var gates := Get(report, "gates");
    if gates.Obj? && Get(gates.fields, gate).Obj? then Get(Get(gates.fields, gate).fields, "status") else Null
  }

  lemma StatusIsReported(gs: seq<GateSpec>, sha: string, runId: int, snap: Snapshot, i: nat)
    requires ProperGates(gs) && i < |gs|
    ensures ReportedStatus(ReportJson(sha, runId, GateReports(gs, sha, snap)), gs[i].name) == Str(StateText(GateStateOf(gs[i], sha, snap)))
  {
    ReportedGate(gs, sha, snap, i);
    ReportEntries(sha, runId, GateReports(gs, sha, snap));
    GateJsonEntries(GateStateOf(gs[i], sha, snap), |gs[i].requirements|, Evidence(gs[i].requirements, sha, snap));
    assert Get(ReportJson(sha, runId, GateReports(gs, sha, snap)), "gates") == Obj(GateReports(gs, sha, snap));
  }

  /** The report's word for a gate, exactly by what the records say. */
  lemma StatusIff(gs: seq<GateSpec>, sha: string, runId: int, snap: Snapshot, i: nat)
    requires ProperGates(gs) && i < |gs| && DistinctIds(snap.checks)
    ensures var word, g := ReportedStatus(ReportJson(sha, runId, GateReports(gs, sha, snap)), gs[i].name), gs[i];
            && (word == Str("failure") <==> SomeFailing(g, sha, snap))
            && (word == Str("missing") <==> !SomeFailing(g, sha, snap) && SomeAbsent(g, sha, snap))
            && (word == Str("pending") <==> !SomeFailing(g, sha, snap) && !SomeAbsent(g, sha, snap) && SomeAwaited(g, sha, snap))
            && (word == Str("success") <==> AllMet(g, sha, snap))
  {
    StatusIsReported(gs, sha, runId, snap, i);
    GateStateIff(gs[i], sha, snap);
    WordsDiffer(GateStateOf(gs[i], sha, snap));
  }

  // ---------------------------------------------------------------- the evidence of a gate

  /** The entry repeats the workflow run. */
  predicate OfRun(d: Rec, w: Rec)
  {
    Get(d, "workflow") == Get(w, "name") && Get(d, "workflow_path") == Get(w, "path") && Get(d, "run_id") == Get(w, "id")
  }

  /** And the check. */
  predicate OfCheck(d: Rec, c: Rec)
  {
    && Get(d, "job") == Get(c, "name") && Get(d, "check_run_id") == Get(c, "id") && Get(d, "sha") == Get(c, "head_sha")
    && Get(d, "status") == Get(c, "status") && Get(d, "conclusion") == Get(c, "conclusion")
    && Get(d, "completed_at") == Get(c, "completed_at") && Get(d, "details_url") == Get(c, "details_url")
  }

  /** The entry repeats the check and the workflow run its details URL names, field by field. */
  predicate About(e: Json, c: Rec, runs: map<int, Rec>)
  {
    && e.Obj? && WorkflowRunId(c).Some? && WorkflowRunId(c).value in runs
    && OfRun(e.fields, runs[WorkflowRunId(c).value]) && OfCheck(e.fields, c)
  }

  lemma ItemOfRun(c: Rec, w: Rec)
    ensures OfRun(EvidenceItem(c, w).fields, w)
  {
  }

  lemma ItemOfCheck(c: Rec, w: Rec)
    ensures OfCheck(EvidenceItem(c, w).fields, c)
  {
  }

  lemma SelectedIsAbout(r: Requirement, sha: string, snap: Snapshot)
    requires Selected(r, sha, snap).Some?
    ensures var sel := Selected(r, sha, snap).value;
            Best(r, sha, snap, sel.0) && About(EvidenceItem(sel.0, sel.1), sel.0, snap.runs)
  {
    SelectedIsBest(r, sha, snap);
    SelectionIsBest(r, sha, snap.checks, snap.runs);
    ItemOfRun(Selected(r, sha, snap).value.0, Selected(r, sha, snap).value.1);
    ItemOfCheck(Selected(r, sha, snap).value.0, Selected(r, sha, snap).value.1);
  }

  /** In the order of the requirements, one entry about the best check of each that has one. */
  ghost predicate Shows(rs: seq<Requirement>, sha: string, snap: Snapshot, es: seq<Json>)
  {
    if rs == [] then es == []
    else if Absent(rs[|rs| - 1], sha, snap) then Shows(rs[..|rs| - 1], sha, snap, es)
    else && es != [] && Shows(rs[..|rs| - 1], sha, snap, es[..|es| - 1])
         && exists c :: c in snap.checks && Best(rs[|rs| - 1], sha, snap, c) && About(es[|es| - 1], c, snap.runs)
  }

  lemma {:induction false} EvidenceShows(rs: seq<Requirement>, sha: string, snap: Snapshot)
    ensures Shows(rs, sha, snap, Evidence(rs, sha, snap))
  {
    if rs != [] {
      var r, init := rs[|rs| - 1], rs[..|rs| - 1];
      EvidenceShows(init, sha, snap);
      SelectedIsBest(r, sha, snap);
      var sel := Selected(r, sha, snap);
      if sel.Some? {
        SelectedIsAbout(r, sha, snap);
        var es := Evidence(rs, sha, snap);
        assert es[..|es| - 1] == Evidence(init, sha, snap);
      } else {
        assert Evidence(rs, sha, snap) == Evidence(init, sha, snap);
      }
    }
  }

  /** What the report shows under a gate: its requirements counted, and the evidence of their best checks in order. */
  lemma EvidenceIsReported(gs: seq<GateSpec>, sha: string, runId: int, snap: Snapshot, i: nat)
    requires ProperGates(gs) && i < |gs|
    ensures var gates := Get(ReportJson(sha, runId, GateReports(gs, sha, snap)), "gates");
            && gates.Obj? && Get(gates.fields, gs[i].name).Obj?
            && var d := Get(gates.fields, gs[i].name).fields;
            && Get(d, "required_checks") == Int(|gs[i].requirements|)
            && Get(d, "evidence").Arr? && Shows(gs[i].requirements, sha, snap, Get(d, "evidence").items)
  {
    ReportedGate(gs, sha, snap, i);
    ReportEntries(sha, runId, GateReports(gs, sha, snap));
    GateJsonEntries(GateStateOf(gs[i], sha, snap), |gs[i].requirements|, Evidence(gs[i].requirements, sha, snap));
    assert Get(ReportJson(sha, runId, GateReports(gs, sha, snap)), "gates") == Obj(GateReports(gs, sha, snap));
    EvidenceShows(gs[i].requirements, sha, snap);
  }

  lemma WordsDiffer(s: GateState)
    ensures (StateText(s) == "failure" <==> s == Failure) && (StateText(s) == "missing" <==> s == Missing)
    ensures (StateText(s) == "pending" <==> s == Pending) && (StateText(s) == "success" <==> s == Success)
  {
  }

  /** So for the table of the release gate. */
  lemma ReportSays(sha: string, runId: int, snap: Snapshot, i: nat)
    requires i < |GATES| && DistinctIds(snap.checks)
    ensures var word, g := ReportedStatus(BuildReport(sha, runId, snap), GATES[i].name), GATES[i];
            && (word == Str("failure") <==> SomeFailing(g, sha, snap))
            && (word == Str("missing") <==> !SomeFailing(g, sha, snap) && SomeAbsent(g, sha, snap))
            && (word == Str("pending") <==> !SomeFailing(g, sha, snap) && !SomeAbsent(g, sha, snap) && SomeAwaited(g, sha, snap))
            && (word == Str("success") <==> AllMet(g, sha, snap))
  {
    GateTableIsProper();
    StatusIff(GATES, sha, runId, snap, i);
  }

  // ---------------------------------------------------------------- when polling stops

  predicate AnyFailing(gs: seq<GateSpec>, sha: string, snap: Snapshot) { exists i :: 0 <= i < |gs| && SomeFailing(gs[i], sha, snap) }

  lemma {:induction false} StatesOfGates(gs: seq<GateSpec>, sha: string, snap: Snapshot, s: GateState)
    ensures s in Polling.GateStates(gs, sha, snap) <==> exists i :: 0 <= i < |gs| && GateStateOf(gs[i], sha, snap) == s
  {
    if gs != [] {
      StatesOfGates(gs[1..], sha, snap, s);
      var rest := gs[1..];
      if i :| 0 <= i < |gs| && GateStateOf(gs[i], sha, snap) == s {
        if i > 0 { assert rest[i - 1] == gs[i]; }
      }
      if j :| 0 <= j < |rest| && GateStateOf(rest[j], sha, snap) == s { assert gs[j + 1] == rest[j]; }
    }
  }

  /** A snapshot settles the matter exactly when some best check failed or every requirement is met. */
  lemma SettledIff(gs: seq<GateSpec>, sha: string, snap: Snapshot)
    requires DistinctIds(snap.checks)
    ensures Polling.Settled(Polling.GateStates(gs, sha, snap)) <==> AnyFailing(gs, sha, snap) || EveryRequirementMet(gs, sha, snap)
  {
    var states := Polling.GateStates(gs, sha, snap);
    EveryGateMet(gs, sha, snap);
    forall i | 0 <= i < |gs|
      ensures GateStateOf(gs[i], sha, snap) == Failure <==> SomeFailing(gs[i], sha, snap)
      ensures GateStateOf(gs[i], sha, snap) == Success <==> AllMet(gs[i], sha, snap)
    {
      GateStateIff(gs[i], sha, snap);
    }
    forall s ensures s in states <==> exists i :: 0 <= i < |gs| && GateStateOf(gs[i], sha, snap) == s {
      StatesOfGates(gs, sha, snap, s);
    }
    if Failure !in states && !EveryRequirementMet(gs, sha, snap) {
      var i :| 0 <= i < |gs| && !AllMet(gs[i], sha, snap);
      assert GateStateOf(gs[i], sha, snap) in states;
    }
  }

  /** The loop goes on past no snapshot with a failed check, nor past one with everything met, and stops early at nothing else. */
  lemma PollingStops(sha: string, runId: int, timeout: nat, poll: nat, w: Polling.World, o: Polling.Outcome, k: nat)
    requires poll > 0 && k <= o.last && DistinctIds(w.snapshot(k).checks)
    requires Polling.Promised(Polling.Judge(sha), Polling.Builder(sha, runId), timeout, poll, w, o)
    ensures k < o.last ==> !AnyFailing(GATES, sha, w.snapshot(k)) && !EveryRequirementMet(GATES, sha, w.snapshot(k))
    ensures k == o.last && o.observedAt < w.start + timeout as real ==>
            AnyFailing(GATES, sha, w.snapshot(k)) || EveryRequirementMet(GATES, sha, w.snapshot(k))
    ensures o.report == BuildReport(sha, runId, w.snapshot(o.last))
  {
    SettledIff(GATES, sha, w.snapshot(k));
    assert Polling.Judge(sha)(w.snapshot(k)) == Polling.Decided(sha, w.snapshot(k));
  }

  // ---------------------------------------------------------------- the run id in a URL

  lemma {:induction false} LeftmostRun(before: string, t: string)
    requires forall i :: 0 <= i < |before| ==> RunIdHere((before + t)[i..]).None?
    ensures RunIdIn(before + t) == RunIdIn(t)
  {
    var all := before + t;
    if before == "" {
      assert all == t;
    } else {
      assert all[0..] == all && all[1..] == before[1..] + t;
      forall i | 0 <= i < |before[1..]| ensures RunIdHere((before[1..] + t)[i..]).None? {
        assert (before[1..] + t)[i..] == all[i + 1..];
      }
      LeftmostRun(before[1..], t);
    }
  }

  /** A details URL names the run whose digits stand between `/actions/runs/` and the next slash or the end. */
  lemma UrlNamesRun(before: string, n: nat, rest: string)
    requires rest == "" || rest[0] == '/'
    requires forall i :: 0 <= i < |before| ==> RunIdHere((before + (RUNS + (NatText(n) + rest)))[i..]).None?
    ensures RunIdIn(before + ("/actions/runs/" + (NatText(n) + rest))) == Some(n)
  {
    var t := RUNS + (NatText(n) + rest);
    LeftmostRun(before, t);
    NatRoundTrip(n, rest);
    assert t[|RUNS|..] == NatText(n) + rest;
    assert RunIdHere(t) == Some(n);
  }

  // ---------------------------------------------------------------- the evaluator on any file

  /** One item of evidence that proves a completed success for a commit. */
  predicate ItemProves(d: Rec, sha: string)
  {
    && Get(d, "sha") == Str(sha) && Get(d, "status") == Str("completed") && Get(d, "conclusion") == Str("success")
    && Get(d, "workflow").Str? && !Blank(Get(d, "workflow").s) && Get(d, "job").Str? && !Blank(Get(d, "job").s)
    && Get(d, "workflow_path").Str? && ".github/workflows/" <= Get(d, "workflow_path").s
    && Get(d, "run_id").Int? && Get(d, "run_id").n >= 1 && Get(d, "check_run_id").Int? && Get(d, "check_run_id").n >= 1
    && Get(d, "completed_at").Str? && !Blank(Get(d, "completed_at").s)
  }

  predicate GateProves(gate: Json, sha: string)
  {
    && gate.Obj? && Get(gate.fields, "status") == Str("success")
    && Get(gate.fields, "required_checks").Int? && Get(gate.fields, "required_checks").n >= 1
    && Get(gate.fields, "evidence").Arr? && |Get(gate.fields, "evidence").items| == Get(gate.fields, "required_checks").n
    && forall i :: 0 <= i < |Get(gate.fields, "evidence").items| ==>
         Get(gate.fields, "evidence").items[i].Obj? && ItemProves(Get(gate.fields, "evidence").items[i].fields, sha)
  }

  predicate EnvelopeProves(report: Rec)
  {
    && Get(report, "schema") == Str("release_gate_evidence.v1") && Get(report, "source") == Str("github_check_runs")
    && Get(report, "sha").Str? && |Get(report, "sha").s| == 40 && ("gates" in report ==> report["gates"].Obj?)
  }

  lemma ItemIff(item: Json, sha: string)
    ensures ValidItem(item, sha) <==> item.Obj? && ItemProves(item.fields, sha)
  {
    if item.Obj? {
      var d := item.fields;
      if Get(d, "workflow").Str? { StripFacts(Get(d, "workflow").s); }
      if Get(d, "job").Str? { StripFacts(Get(d, "job").s); }
      if Get(d, "completed_at").Str? { StripFacts(Get(d, "completed_at").s); }
    }
  }

  lemma GateIff(gate: Json, sha: string)
    ensures ValidGateEvidence(gate, sha) <==> GateProves(gate, sha)
  {
    if gate.Obj? && Get(gate.fields, "evidence").Arr? {
      var items := Get(gate.fields, "evidence").items;
      forall i | 0 <= i < |items| ensures ValidItem(items[i], sha) <==> items[i].Obj? && ItemProves(items[i].fields, sha) {
        ItemIff(items[i], sha);
      }
    }
  }

  /** The report holds a gate that proves itself for the report's commit. */
  predicate GateShown(report: Rec, gate: string)
  {
    && Get(report, "gates").Obj? && gate in Get(report, "gates").fields && Get(report, "sha").Str?
    && GateProves(Get(report, "gates").fields[gate], Get(report, "sha").s)
  }

  lemma EnvelopeIff(report: Rec)
    ensures ValidEnvelope(report) <==> EnvelopeProves(report)
  {
  }

  lemma ReportedIs(report: Rec)
    ensures Reported(report) == if Get(report, "gates").Obj? then Get(report, "gates").fields else map[]
  {
  }

  lemma GreenIff(report: Rec, gate: string)
    requires ValidEnvelope(report)
    ensures Judge(report, gate).IsGreen? <==> GateShown(report, gate)
  {
    ReportedIs(report);
    if gate in Reported(report) { GateIff(Reported(report)[gate], Get(report, "sha").s); }
  }

  lemma CertifiedAgainstIff(report: Rec, required: seq<string>)
    ensures EvaluateAgainst(report, required).ready <==> EnvelopeProves(report) && forall g :: g in required ==> GateShown(report, g)
  {
    ReadyIffAllGreen(report, required);
    EnvelopeIff(report);
    if ValidEnvelope(report) {
      forall g ensures Judge(report, g).IsGreen? <==> GateShown(report, g) {
        GreenIff(report, g);
      }
    }
  }

  /** A file is certified exactly when its envelope and every one of the eleven required gates prove themselves. */
  lemma CertifiedIff(report: Rec)
    ensures Evaluate(report).ready <==> EnvelopeProves(report) && forall g :: g in REQUIRED_GATES ==> GateShown(report, g)
  {
    CertifiedAgainstIff(report, REQUIRED_GATES);
  }
}
