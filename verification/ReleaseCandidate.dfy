/** The fail-closed evaluation of a gate report. The report is whatever JSON object was read from the file. */
module ReleaseCandidate {
  import opened CanonicalJson
  import opened PyValues
  import opened PyText
  import opened Orders
  import opened StableSort
  import opened ReleaseEvidence

  const REQUIRED_GATES: seq<string> := [
    "pytest-3.11", "pytest-3.12", "coverage-branch", "ruff", "bandit", "dep-audit", "alembic", "merge-gate", "bwrap",
    "sdk-proxy", "e2e-integration"]

  predicate NonBlankText(v: Json) { v.Str? && Strip(v.s) != "" }

  predicate PositiveInt(v: Json) { v.Int? && v.n >= 1 }

  predicate ValidItem(item: Json, sha: string)
  {
    && item.Obj?
    && var d := item.fields;
       && Get(d, "sha") == Str(sha)
       && Get(d, "status") == Str("completed") && Get(d, "conclusion") == Str("success")
       && NonBlankText(Get(d, "workflow"))
       && Get(d, "workflow_path").Str? && StartsWith(Get(d, "workflow_path").s, ".github/workflows/")
       && NonBlankText(Get(d, "job"))
       && PositiveInt(Get(d, "run_id"))
       && PositiveInt(Get(d, "check_run_id"))
       && NonBlankText(Get(d, "completed_at"))
  }

  predicate GateSucceeded(gate: Json) { gate.Obj? && Get(gate.fields, "status") == Str("success") }

  predicate ValidGateEvidence(gate: Json, sha: string)
  {
    && GateSucceeded(gate)
    && var required := Get(gate.fields, "required_checks");
       var evidence := Get(gate.fields, "evidence");
       && PositiveInt(required)
       && evidence.Arr? && |evidence.items| == required.n
       && forall i :: 0 <= i < |evidence.items| ==> ValidItem(evidence.items[i], sha)
  }

  datatype Verdict = IsMissing | IsFailed | IsUnproven | IsGreen

  /** The gates the report speaks of; a report without an object there speaks of none. */
  function Reported(report: Rec): Rec
  {
    var g := if "gates" in report then report["gates"] else Obj(map[]);
    if g.Obj? then g.fields else map[]
  }

  predicate ValidEnvelope(report: Rec)
  {
    && Get(report, "schema") == Str("release_gate_evidence.v1")
    && Get(report, "source") == Str("github_check_runs")
    && Get(report, "sha").Str? && |Get(report, "sha").s| == 40
    && ("gates" in report ==> report["gates"].Obj?)
  }

  /** What the loop of `evaluate` decides about one gate. */
  function Judge(report: Rec, gate: string): Verdict
  {
    if gate !in Reported(report) then IsMissing
    else if !GateSucceeded(Reported(report)[gate]) then IsFailed
    else if !ValidEnvelope(report) || !ValidGateEvidence(Reported(report)[gate], Get(report, "sha").s) then IsUnproven
    else IsGreen
  }

  function With(report: Rec, v: Verdict): string -> bool { g => Judge(report, g) == v }

  /** `dict.fromkeys`: the first occurrence of each element. */
  function Dedup(s: seq<string>): seq<string>
  {
    if s == [] then []
    else if s[|s| - 1] in s[..|s| - 1] then Dedup(s[..|s| - 1])
    else Dedup(s[..|s| - 1]) + [s[|s| - 1]]
  }

  datatype Candidate = Candidate(ready: bool, green: seq<string>, blocking: seq<string>, unproven: seq<string>)

  function Blocked(report: Rec, required: seq<string>): seq<string>
  {
    Dedup(Filter(With(report, IsMissing), required) + Filter(With(report, IsFailed), required)
          + Filter(With(report, IsUnproven), required))
  }

  function NotIn(s: seq<string>): string -> bool { g => g !in s }

  /** The evaluation against any list of required gates. */
  function EvaluateAgainst(report: Rec, required: seq<string>): Candidate
  {
    var blocked := Blocked(report, required);
    Candidate(blocked == [] && ValidEnvelope(report), Filter(NotIn(blocked), required), blocked,
              Filter(With(report, IsUnproven), required))
  }

  function Evaluate(report: Rec): Candidate { EvaluateAgainst(report, REQUIRED_GATES) }

  /** `evaluate` as written: one pass that appends to the lists of failed and unproven gates. */
  method EvaluateCandidate(report: Rec) returns (c: Candidate)
    ensures c == Evaluate(report)
  {
    var required := REQUIRED_GATES;
    var missing, failed, unproven := Sift(report, required);
    var blocked := Dedup(missing + failed + unproven);
    c := Candidate(blocked == [] && ValidEnvelope(report), Filter(NotIn(blocked), required), blocked, unproven);
  }

  method Sift(report: Rec, gates: seq<string>) returns (missing: seq<string>, failed: seq<string>, unproven: seq<string>)
    ensures missing == Filter(With(report, IsMissing), gates)
    ensures failed == Filter(With(report, IsFailed), gates)
    ensures unproven == Filter(With(report, IsUnproven), gates)
  {
    missing, failed, unproven := [], [], [];
    var i := 0;
    while i < |gates|
      invariant i <= |gates|
      invariant missing == Filter(With(report, IsMissing), gates[..i])
      invariant failed == Filter(With(report, IsFailed), gates[..i])
      invariant unproven == Filter(With(report, IsUnproven), gates[..i])
    {
      var g := gates[i];
      FilterSnoc(With(report, IsMissing), gates, i);
      FilterSnoc(With(report, IsFailed), gates, i);
      FilterSnoc(With(report, IsUnproven), gates, i);
      if g !in Reported(report) {
        missing := missing + [g];
      } else if !GateSucceeded(Reported(report)[g]) {
        failed := failed + [g];
      } else if !ValidEnvelope(report) || !ValidGateEvidence(Reported(report)[g], Get(report, "sha").s) {
        unproven := unproven + [g];
      }
      i := i + 1;
    }
    assert gates[..i] == gates;
  }

  // ---------------------------------------------------------------- partition of the required gates

  lemma {:induction false} DedupKeepsMembers(s: seq<string>)
    ensures Distinct(Dedup(s))
    ensures forall x :: x in Dedup(s) <==> x in s
  {
    if s != [] {
      var init := s[..|s| - 1];
      DedupKeepsMembers(init);
      assert s == init + [s[|s| - 1]];
    }
  }

  lemma {:induction false} FilterKeepsDistinct(p: string -> bool, s: seq<string>)
    requires Distinct(s)
    ensures Distinct(Filter(p, s))
  {
    if s != [] {
      DistinctCons(s);
      FilterKeepsDistinct(p, s[1..]);
      FilterMember(p, s[1..], s[0]);
      if p(s[0]) {
        assert Filter(p, s)[1..] == Filter(p, s[1..]);
        DistinctCons(Filter(p, s));
      }
    }
  }

  /** The required gates are listed once each. */
  lemma RequiredAreDistinct()
    ensures Distinct(REQUIRED_GATES)
  {
  }

  lemma BlockedIff(report: Rec, required: seq<string>, gate: string)
    ensures gate in Blocked(report, required) <==> gate in required && !Judge(report, gate).IsGreen?
  {
    var a := Filter(With(report, IsMissing), required);
    var b := Filter(With(report, IsFailed), required);
    var c := Filter(With(report, IsUnproven), required);
    DedupKeepsMembers(a + b + c);
    FilterMember(With(report, IsMissing), required, gate);
    FilterMember(With(report, IsFailed), required, gate);
    FilterMember(With(report, IsUnproven), required, gate);
  }

  /** Green and blocking gates partition the required ones, for every input whatsoever. */
  lemma GatesArePartitioned(report: Rec, required: seq<string>, gate: string)
    ensures var c := EvaluateAgainst(report, required);
            && (gate in required <==> gate in c.green || gate in c.blocking)
            && !(gate in c.green && gate in c.blocking)
            && (gate in c.green <==> gate in required && Judge(report, gate).IsGreen?)
            && Distinct(c.blocking) && (Distinct(required) ==> Distinct(c.green))
  {
    if Distinct(required) { FilterKeepsDistinct(NotIn(Blocked(report, required)), required); }
    FilterMember(NotIn(Blocked(report, required)), required, gate);
    BlockedIff(report, required, gate);
    DedupKeepsMembers(Filter(With(report, IsMissing), required) + Filter(With(report, IsFailed), required)
                      + Filter(With(report, IsUnproven), required));
  }

  /** Against a list without repetition the two lists hold each required gate once. */
  lemma PartitionIsExact(report: Rec, required: seq<string>)
    requires Distinct(required)
    ensures var c := EvaluateAgainst(report, required);
            Distinct(c.green) && Distinct(c.blocking) && |c.green| + |c.blocking| == |required|
  {
    var c := EvaluateAgainst(report, required);
    forall g ensures g in required <==> g in c.green || g in c.blocking
             ensures !(g in c.green && g in c.blocking)
             ensures Distinct(c.green) && Distinct(c.blocking) {
      GatesArePartitioned(report, required, g);
    }
    SetSize(c.green);
    SetSize(c.blocking);
    SetSize(required);
    assert Elements(required) == Elements(c.green) + Elements(c.blocking);
    assert Elements(c.green) !! Elements(c.blocking);
  }

  /** So every evaluation accounts for each of the required gates exactly once. */
  lemma EveryGateOnce(report: Rec)
    ensures |Evaluate(report).green| + |Evaluate(report).blocking| == |REQUIRED_GATES|
  {
    RequiredAreDistinct();
    PartitionIsExact(report, REQUIRED_GATES);
  }

  /** A candidate is ready exactly when the envelope is valid and every required gate is green. */
  lemma ReadyIffAllGreen(report: Rec, required: seq<string>)
    ensures EvaluateAgainst(report, required).ready <==>
            ValidEnvelope(report) && forall g :: g in required ==> Judge(report, g).IsGreen?
  {
    forall g ensures g in Blocked(report, required) <==> g in required && !Judge(report, g).IsGreen? {
      BlockedIff(report, required, g);
    }
    if Blocked(report, required) != [] {
      assert Blocked(report, required)[0] in Blocked(report, required);
    }
  }

  /** An invalid envelope leaves no gate green and blocks every one. */
  lemma BadEnvelopeBlocksAll(report: Rec, required: seq<string>)
    requires !ValidEnvelope(report)
    ensures EvaluateAgainst(report, required).green == [] && !EvaluateAgainst(report, required).ready
    ensures forall g :: g in required ==> g in EvaluateAgainst(report, required).blocking
  {
    var green := EvaluateAgainst(report, required).green;
    assert green != [] ==> green[0] in green;
    forall g ensures g !in green
             ensures g in required ==> g in EvaluateAgainst(report, required).blocking {
      GatesArePartitioned(report, required, g);
    }
  }
}
