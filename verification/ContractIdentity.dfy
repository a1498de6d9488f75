/** What reloading, approval and fingerprints guarantee about a contract. */
module ContractIdentity {
  import opened Collections
  import opened CanonicalJson
  import opened PyText
  import opened PyValues
  import opened Contract
  import opened ContractRoundTrip

  // ---------------------------------------------------------------- reloading as a normaliser

  lemma MapSeqTwice<T>(f: T -> T, xs: seq<T>)
    requires forall i :: 0 <= i < |xs| ==> f(f(xs[i])) == f(xs[i])
    ensures MapSeq(f, MapSeq(f, xs)) == MapSeq(f, xs)
  {
  }

  lemma TrimIdempotent(c: Contract)
    ensures Trim(Trim(c)) == Trim(c)
  {
    StripFactsAll();
    MapSeqTwice(TrimLayer, c.layers);
    MapSeqTwice(TrimRule, c.rules);
    MapSeqTwice(TrimGate, c.gates);
    MapSeqTwice(TrimConstraint, c.constraints);
    MapSeqTwice(TrimDecision, c.decisions);
    MapSeqTwice(TrimTrace, c.traceability);
    MapSeqTwice(TrimWaiver, c.waivers);
  }

  lemma StripFactsAll()
    ensures forall s: string :: Strip(Strip(s)) == Strip(s)
  {
    forall s: string ensures Strip(Strip(s)) == Strip(s) { StripFacts(s); }
  }

  /** A contract whose required strings are stripped survives saving and reloading unchanged, unless a timeout has the wrong type. */
  lemma RoundTrip(env: Env, c: Contract)
    requires Faithful(env) && ValidContract(env, c) && Trim(c) == c
    ensures FromDict(env, ToDict(env, c)) == Ok(c) <==> WellTyped(c)
    ensures FromDict(env, ToDict(env, c)).Ok? <==> WellTyped(c)
  {
    ReloadIsTrim(env, c);
  }

  /** What reloading returns, it returns again: saving and loading is an idempotent normaliser. */
  lemma ReloadIsIdempotent(env: Env, c: Contract)
    requires Faithful(env) && ValidContract(env, c)
    requires FromDict(env, ToDict(env, c)).Ok?
    ensures var c' := FromDict(env, ToDict(env, c)).value;
            c' == Trim(c) && FromDict(env, ToDict(env, c')) == Ok(c')
  {
    ReloadIsTrim(env, c);
    TrimIdempotent(c);
    TrimWellTyped(c);
    RoundTrip(env, Trim(c));
  }

  lemma TrimWellTyped(c: Contract)
    requires WellTyped(c)
    ensures WellTyped(Trim(c))
  {
    forall i | 0 <= i < |Trim(c).gates| ensures IsTimeout(Trim(c).gates[i].timeout) {
      assert Trim(c).gates[i] == TrimGate(c.gates[i]);
    }
  }

  // ---------------------------------------------------------------- approval

  /** The fingerprint covers the architecture, not the approval workflow. */
  lemma FingerprintIgnoresWorkflow(env: Env, c: Contract, status: string, a: Approval)
    ensures CanonicalDict(env, c.(status := status, approval := a)) == CanonicalDict(env, c)
    ensures Fingerprint(env, c.(status := status, approval := a)) == Fingerprint(env, c)
  {
    var d := c.(status := status, approval := a);
    assert ProjectDict(d) == ProjectDict(c);
  }

  /**
   * Approving a valid contract fails only for a wrong status or a blank approver; it changes
   * nothing but the workflow fields and keeps the fingerprint.
   */
  lemma ApproveIff(env: Env, c: Contract, approver: Json, at: Time)
    requires Faithful(env) && ValidContract(env, c)
    ensures Approve(env, c, approver, at).Ok? <==>
            c.status in {"draft", "review"} && approver.Str? && !Blank(approver.s)
    ensures Approve(env, c, approver, at).Ok? ==>
            var a := Approve(env, c, approver, at).value;
            && a == c.(status := "approved", approval := a.approval)
            && a.approval.status == "approved" && a.approval.validationResult == Str("schema_and_invariants_ok")
            && a.approval.contractId == Str(c.contractId) && a.approval.version == Str(c.version)
            && a.approval.contentFingerprint == Str(Fingerprint(env, c))
            && a.approval.approverId == Str(Strip(approver.s)) && a.approval.approvedAt == Some(at)
            && Fingerprint(env, a) == Fingerprint(env, c)
            && ValidContract(env, a)
  {
    if approver.Str? { StripFacts(approver.s); }
    if c.status in {"draft", "review"} && Require(approver, ContractError).Ok? {
      var who := Strip(approver.s);
      var a := Approval("approved", Str(c.contractId), Str(c.version), Str(Fingerprint(env, c)), Str(who), Some(at),
                        Str("schema_and_invariants_ok"));
      FingerprintIgnoresWorkflow(env, c, "approved", a);
      assert Fingerprint(env, c) != "";
      ApprovedIsValid(env, c, a);
    }
  }

  lemma ApprovedIsValid(env: Env, c: Contract, a: Approval)
    requires ValidContract(env, c) && ValidApproval(a) && a.status == "approved"
    requires a.contentFingerprint == Str(Fingerprint(env, c))
    requires Fingerprint(env, c.(status := "approved", approval := a)) == Fingerprint(env, c)
    ensures ValidContract(env, c.(status := "approved", approval := a))
  {
    var r := c.(status := "approved", approval := a);
    assert LayersKnown(r) by {
      forall i | 0 <= i < |r.rules|
        ensures KnownLayer(r, r.rules[i].source)
        ensures forall j :: 0 <= j < |r.rules[i].mayDependOn| ==> KnownLayer(r, r.rules[i].mayDependOn[j])
      {
        assert KnownLayer(c, c.rules[i].source);
        forall j | 0 <= j < |r.rules[i].mayDependOn| ensures KnownLayer(r, r.rules[i].mayDependOn[j]) {
          assert KnownLayer(c, c.rules[i].mayDependOn[j]);
        }
      }
    }
  }

  /** An approved contract with stripped strings survives saving and reloading, approval included. */
  lemma ApprovalSurvives(env: Env, c: Contract, approver: string, at: Time)
    requires Faithful(env) && ValidContract(env, c) && Trim(c) == c
    requires c.status in {"draft", "review"} && !Blank(approver)
    ensures var a := Approve(env, c, Str(approver), at);
            a.Ok? && (FromDict(env, ToDict(env, a.value)) == Ok(a.value) <==> WellTyped(c))
    ensures FromDict(env, ToDict(env, Approve(env, c, Str(approver), at).value)).Ok? <==> WellTyped(c)
  {
    ApproveIff(env, c, Str(approver), at);
    var a := Approve(env, c, Str(approver), at).value;
    StatusWord("approved");
    ApprovalReload(env, a.approval);
    assert Trim(a) == a;
    RoundTrip(env, a);
  }

  // ---------------------------------------------------------------- what a fingerprint pins down

  lemma ObjsInjective<T>(xs: seq<T>, ys: seq<T>, f: T -> map<string, Json>)
    requires Objs(xs, f) == Objs(ys, f)
    requires forall i :: 0 <= i < |xs| && i < |ys| && f(xs[i]) == f(ys[i]) ==> xs[i] == ys[i]
    ensures xs == ys
  {
    var a, b := Objs(xs, f).items, Objs(ys, f).items;
    assert |a| == |xs| && |b| == |ys|;
    forall i | 0 <= i < |xs| ensures xs[i] == ys[i] {
      assert a[i] == Obj(f(xs[i])) && b[i] == Obj(f(ys[i]));
    }
  }

  lemma StrsInjective(xs: seq<string>, ys: seq<string>)
    requires Strs(xs) == Strs(ys)
    ensures xs == ys
  {
    TextsOfStrs(xs);
    TextsOfStrs(ys);
  }

  lemma LayerDictInjective(a: Layer, b: Layer)
    requires LayerDict(a) == LayerDict(b)
    ensures a == b
  {
    LayerEntries(a);
    LayerEntries(b);
  }

  lemma LayerEntries(l: Layer)
    ensures var d := LayerDict(l);
            && Get(d, "id") == Str(l.id) && Get(d, "path") == Str(l.path)
            && TextOr(d, "description", "") == l.description
            && Get(d, "framework_independent") == l.frameworkIndependent
  {
  }

  lemma RuleDictInjective(a: Rule, b: Rule)
    requires RuleDict(a) == RuleDict(b) && ValidRule(a) && ValidRule(b)
    ensures a == b
  {
    RuleEntries(a);
    RuleEntries(b);
    StrsInjective(a.mayDependOn, b.mayDependOn);
  }

  lemma ConstraintDictInjective(a: Constraint, b: Constraint)
    requires ConstraintDict(a) == ConstraintDict(b) && a.severity != "" && b.severity != ""
    ensures a == b
  {
    ConstraintEntries(a);
    ConstraintEntries(b);
    StrsInjective(a.scope, b.scope);
  }

  lemma GateDictInjective(a: Gate, b: Gate)
    requires GateDict(a) == GateDict(b)
    ensures a == b
  {
    GateEntries(a);
    GateEntries(b);
  }

  lemma DecisionEntries(x: Decision)
    ensures var d := DecisionDict(x);
            && Get(d, "id") == Str(x.id) && Get(d, "decision") == Str(x.decision) && Get(d, "rationale") == Str(x.rationale)
            && GetOr(d, "constraints", Arr([])) == Arr(Strs(x.constraints))
            && GetOr(d, "requirement_ids", Arr([])) == Arr(Strs(x.requirementIds))
  {
  }

  lemma DecisionDictInjective(a: Decision, b: Decision)
    requires DecisionDict(a) == DecisionDict(b)
    ensures a == b
  {
    DecisionEntries(a);
    DecisionEntries(b);
    StrsInjective(a.constraints, b.constraints);
    StrsInjective(a.requirementIds, b.requirementIds);
  }

  lemma TraceDictInjective(a: Trace, b: Trace)
    requires TraceDict(a) == TraceDict(b)
    ensures a == b
  {
    assert TraceDict(a)["source_id"] == TraceDict(b)["source_id"];
    assert TraceDict(a)["target_id"] == TraceDict(b)["target_id"];
    assert TraceDict(a)["relation"] == TraceDict(b)["relation"];
  }

  lemma WaiverDictInjective(env: Env, a: Waiver, b: Waiver)
    requires Faithful(env) && WaiverDict(env, a) == WaiverDict(env, b)
    ensures a == b
  {
    WaiverEntries(env, a);
    WaiverEntries(env, b);
  }

  lemma RulePartsPinned(env: Env, c: Contract, d: Contract, mark: string)
    requires Labelled(env, c, mark) == Labelled(env, d, mark) && ValidParts(c) && ValidParts(d)
    ensures c.layers == d.layers && c.rules == d.rules && c.constraints == d.constraints && c.gates == d.gates
  {
    RuleListEntries(env, c, mark);
    RuleListEntries(env, d, mark);
    forall i | 0 <= i < |c.layers| && i < |d.layers| && LayerDict(c.layers[i]) == LayerDict(d.layers[i])
      ensures c.layers[i] == d.layers[i] { LayerDictInjective(c.layers[i], d.layers[i]); }
    ObjsInjective(c.layers, d.layers, LayerDict);
    forall i | 0 <= i < |c.rules| && i < |d.rules| && RuleDict(c.rules[i]) == RuleDict(d.rules[i])
      ensures c.rules[i] == d.rules[i] { RuleDictInjective(c.rules[i], d.rules[i]); }
    ObjsInjective(c.rules, d.rules, RuleDict);
    ConstraintsPinned(c.constraints, d.constraints);
    forall i | 0 <= i < |c.gates| && i < |d.gates| && GateDict(c.gates[i]) == GateDict(d.gates[i])
      ensures c.gates[i] == d.gates[i] { GateDictInjective(c.gates[i], d.gates[i]); }
    ObjsInjective(c.gates, d.gates, GateDict);
  }

  lemma ConstraintsPinned(xs: seq<Constraint>, ys: seq<Constraint>)
    requires AllOk(xs, ValidConstraint) && AllOk(ys, ValidConstraint)
    requires Objs(xs, ConstraintDict) == Objs(ys, ConstraintDict)
    ensures xs == ys
  {
    forall i | 0 <= i < |xs| && i < |ys| && ConstraintDict(xs[i]) == ConstraintDict(ys[i]) ensures xs[i] == ys[i] {
      assert ValidConstraint(xs[i]) && ValidConstraint(ys[i]);
      ConstraintDictInjective(xs[i], ys[i]);
    }
    ObjsInjective(xs, ys, ConstraintDict);
  }

  lemma RecordPartsPinned(env: Env, c: Contract, d: Contract, mark: string)
    requires Faithful(env) && Labelled(env, c, mark) == Labelled(env, d, mark)
    ensures c.decisions == d.decisions && c.traceability == d.traceability && c.waivers == d.waivers
  {
    RecordListEntries(env, c, mark);
    RecordListEntries(env, d, mark);
    forall i | 0 <= i < |c.decisions| && i < |d.decisions| && DecisionDict(c.decisions[i]) == DecisionDict(d.decisions[i])
      ensures c.decisions[i] == d.decisions[i] { DecisionDictInjective(c.decisions[i], d.decisions[i]); }
    ObjsInjective(c.decisions, d.decisions, DecisionDict);
    forall i | 0 <= i < |c.traceability| && i < |d.traceability| && TraceDict(c.traceability[i]) == TraceDict(d.traceability[i])
      ensures c.traceability[i] == d.traceability[i] { TraceDictInjective(c.traceability[i], d.traceability[i]); }
    ObjsInjective(c.traceability, d.traceability, TraceDict);
    forall i | 0 <= i < |c.waivers| && i < |d.waivers| && WaiverWriter(env)(c.waivers[i]) == WaiverWriter(env)(d.waivers[i])
      ensures c.waivers[i] == d.waivers[i] { WaiverDictInjective(env, c.waivers[i], d.waivers[i]); }
    ObjsInjective(c.waivers, d.waivers, WaiverWriter(env));
  }

  lemma TextsPinned(env: Env, c: Contract, d: Contract, mark: string)
    requires Labelled(env, c, mark) == Labelled(env, d, mark)
    ensures c.schemaVersion == d.schemaVersion && c.contractId == d.contractId && c.version == d.version
    ensures c.style == d.style && c.projectName == d.projectName && c.language == d.language && c.runtime == d.runtime
    ensures c.technology == d.technology
  {
    TextEntries(env, c, mark);
    TextEntries(env, d, mark);
    ObjectEntries(env, c, mark);
    ObjectEntries(env, d, mark);
    ProjectEntries(c);
    ProjectEntries(d);
    StrsInjective(c.technology, d.technology);
  }

  /** Two contracts with the same canonical text differ at most in the approval workflow. */
  lemma TextPinsContent(env: Env, c: Contract, d: Contract)
    requires Faithful(env) && ValidParts(c) && ValidParts(d)
    ensures CanonicalText(env, c) == CanonicalText(env, d) <==> c.(status := d.status, approval := d.approval) == d
  {
    var e := c.(status := d.status, approval := d.approval);
    FingerprintIgnoresWorkflow(env, c, d.status, d.approval);
    if CanonicalText(env, c) == CanonicalText(env, d) {
      PrintInjective(Obj(CanonicalDict(env, c)), Obj(CanonicalDict(env, d)));
      SameContent(env, e, d);
    }
  }

  lemma SameContent(env: Env, e: Contract, d: Contract)
    requires Faithful(env) && ValidParts(e) && ValidParts(d) && CanonicalDict(env, e) == CanonicalDict(env, d)
    requires e.status == d.status && e.approval == d.approval
    ensures e == d
  {
    assert Labelled(env, e, "") == Labelled(env, d, "");
    TextsPinned(env, e, d, "");
    RulePartsPinned(env, e, d, "");
    RecordPartsPinned(env, e, d, "");
  }

  /** No two different texts among these two have one digest. */
  predicate NoCollision(env: Env, s: string, t: string) { env.sha256(s) == env.sha256(t) ==> s == t }

  /** Without a digest collision, equal fingerprints mean equal architecture content. */
  lemma FingerprintPinsContent(env: Env, c: Contract, d: Contract)
    requires Faithful(env) && ValidParts(c) && ValidParts(d)
    requires NoCollision(env, CanonicalText(env, c), CanonicalText(env, d))
    ensures Fingerprint(env, c) == Fingerprint(env, d) <==> c.(status := d.status, approval := d.approval) == d
  {
    TextPinsContent(env, c, d);
  }

  /** An approved contract that stripping would alter cannot be reloaded at all. */
  lemma PaddedApprovalIsRefused(env: Env, c: Contract)
    requires Faithful(env) && ValidContract(env, c) && c.status == "approved" && Trim(c) != c
    requires NoCollision(env, CanonicalText(env, c), CanonicalText(env, Trim(c)))
    ensures FromDict(env, ToDict(env, c)).Err?
  {
    ReloadIsTrim(env, c);
    if ValidContract(env, Trim(c)) {
      StatusWord(c.status);
      ApprovalReload(env, c.approval);
      FingerprintPinsContent(env, c, Trim(c));
    }
  }

  /** Stripping an approved contract strips its content and leaves the approval alone. */
  lemma TrimKeepsApproval(env: Env, c: Contract, a: Contract)
    requires Faithful(env) && ValidContract(env, a) && a == c.(status := "approved", approval := a.approval)
    ensures Trim(a) == Trim(c).(status := "approved", approval := a.approval)
  {
    StatusWord("approved");
    ApprovalReload(env, a.approval);
  }

  /** An approved draft can be reloaded exactly when its timeouts have their type and its required strings carry no outer blanks. */
  lemma ApprovedReloadsIff(env: Env, c: Contract, approver: string, at: Time)
    requires Faithful(env) && ValidContract(env, c)
    requires c.status in {"draft", "review"} && !Blank(approver)
    requires NoCollision(env, CanonicalText(env, c), CanonicalText(env, Trim(c)))
    ensures Approve(env, c, Str(approver), at).Ok?
    ensures var a := Approve(env, c, Str(approver), at).value;
            FromDict(env, ToDict(env, a)).Ok? <==> WellTyped(c) && Trim(c) == c
  {
    ApproveIff(env, c, Str(approver), at);
    var a := Approve(env, c, Str(approver), at).value;
    if Trim(c) == c {
      ApprovalSurvives(env, c, approver, at);
    } else {
      TrimKeepsApproval(env, c, a);
      FingerprintIgnoresWorkflow(env, c, "approved", a.approval);
      FingerprintIgnoresWorkflow(env, Trim(c), "approved", a.approval);
      StatusWord(c.status);
      ApprovalReload(env, c.approval);
      DifferentContent(c, a);
      PaddedApprovalIsRefused(env, a);
    }
  }

  lemma DifferentContent(c: Contract, a: Contract)
    requires Trim(c) != c && a == c.(status := "approved", approval := a.approval)
    requires Trim(a) == Trim(c).(status := "approved", approval := a.approval)
    requires Trim(c).status == c.status && Trim(c).approval == c.approval
    ensures Trim(a) != a
  {
  }

  // ---------------------------------------------------------------- a draft that cannot be approved and kept

  /** A draft whose id starts with a blank. */
  function PaddedDraft(): Contract
  {
    Contract("1.0", " C-1", "1", "draft", "demo", "layered",
      [Layer("core", "src", "", Null)], [Rule("DEP-1", "core", [], "block", "")], [Gate("lint", "custom", true, Null, Null, "")],
      [], [], [], [], [], Null, Null, Approval("pending", Null, Null, Null, Null, None, Null))
  }

  lemma Word(s: string)
    requires s != "" && Trimmed(s)
    ensures NonBlank(s)
  {
    StripFacts(s);
  }

  /** A path without dots or a leading slash is repository-relative. */
  lemma DotlessIsRelative(path: string)
    requires '.' !in path && !StartsWith(path, "/")
    ensures RepoRelative(path)
  {
    var up := "../";
    assert up[0] == '.';
    forall i | 0 <= i <= |path| ensures !(up <= path[i..]) {
      if i < |path| { assert path[i..][0] == path[i]; }
    }
  }

  lemma PaddedParts()
    ensures ValidParts(PaddedDraft())
  {
    Word("core");
    Word("src");
    Word("DEP-1");
    Word("lint");
    DotlessIsRelative("src");
    assert ValidLayer(Layer("core", "src", "", Null));
    assert ValidRule(Rule("DEP-1", "core", [], "block", ""));
    assert ValidGate(Gate("lint", "custom", true, Null, Null, ""));
    assert ValidApproval(Approval("pending", Null, Null, Null, Null, None, Null));
  }

  lemma PaddedId()
    ensures NonBlank(" C-1") && Strip(" C-1") != " C-1"
  {
    var s := " C-1";
    StripFacts(s);
    assert !IsSpace(s[1]) && !Trimmed(s);
  }

  lemma PaddedReferences()
    ensures UniqueIds(PaddedDraft()) && LayersKnown(PaddedDraft())
  {
    var c := PaddedDraft();
    assert c.layers[0].id == "core";
    assert KnownLayer(c, "core");
  }

  lemma PaddedDraftIsValid(env: Env)
    ensures ValidContract(env, PaddedDraft()) && Trim(PaddedDraft()) != PaddedDraft()
  {
    PaddedParts();
    PaddedReferences();
    PaddedId();
    Word("1");
    Word("demo");
    assert Trim(PaddedDraft()).contractId != PaddedDraft().contractId;
  }

  /** It is a valid draft and approving it succeeds, yet what is saved cannot be loaded. */
  lemma PaddedDraftIsLost(env: Env, approver: string, at: Time)
    requires Faithful(env) && !Blank(approver)
    requires NoCollision(env, CanonicalText(env, PaddedDraft()), CanonicalText(env, Trim(PaddedDraft())))
    ensures Approve(env, PaddedDraft(), Str(approver), at).Ok?
    ensures FromDict(env, ToDict(env, Approve(env, PaddedDraft(), Str(approver), at).value)).Err?
  {
    PaddedDraftIsValid(env);
    ApprovedReloadsIff(env, PaddedDraft(), approver, at);
  }
}
