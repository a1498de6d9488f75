/** What saving and reloading a contract does, exactly; what approval keeps; what a fingerprint pins down. */
module ContractRoundTrip {
  import opened Collections
  import opened CanonicalJson
  import opened PyText
  import opened PyValues
  import opened Contract

  // ---------------------------------------------------------------- trimming

  function TrimLayer(l: Layer): Layer { l.(id := Strip(l.id), path := Strip(l.path)) }
  function TrimRule(r: Rule): Rule { r.(id := Strip(r.id), source := Strip(r.source)) }
  function TrimConstraint(c: Constraint): Constraint { c.(id := Strip(c.id), kind := Strip(c.kind)) }
  function TrimGate(g: Gate): Gate { g.(id := Strip(g.id), kind := Strip(g.kind)) }
  function TrimDecision(d: Decision): Decision
  {
    d.(id := Strip(d.id), decision := Strip(d.decision), rationale := Strip(d.rationale))
  }
  function TrimTrace(t: Trace): Trace
  {
    Trace(Strip(t.sourceId), Strip(t.targetId), Strip(t.relation))
  }
  function TrimWaiver(w: Waiver): Waiver
  {
    Waiver(Strip(w.id), Strip(w.ruleId), Strip(w.path), Strip(w.reason), Strip(w.approvedBy), w.expiresAt)
  }
  function TrimApproval(a: Approval): Approval { a.(status := Strip(a.status)) }

  function MapSeq<A, B>(f: A -> B, xs: seq<A>): seq<B>
  {
    seq(|xs|, i requires 0 <= i < |xs| => f(xs[i]))
  }

  /** The contract with every required string stripped. */
  function Trim(c: Contract): Contract
  {
    c.(contractId := Strip(c.contractId), version := Strip(c.version), status := Strip(c.status),
       projectName := Strip(c.projectName), style := Strip(c.style),
       layers := MapSeq(TrimLayer, c.layers), rules := MapSeq(TrimRule, c.rules),
       gates := MapSeq(TrimGate, c.gates), constraints := MapSeq(TrimConstraint, c.constraints),
       decisions := MapSeq(TrimDecision, c.decisions), traceability := MapSeq(TrimTrace, c.traceability),
       waivers := MapSeq(TrimWaiver, c.waivers), approval := TrimApproval(c.approval))
  }

  /** The one annotation that loading checks and construction does not: a timeout is an integer or absent. */
  predicate WellTyped(c: Contract)
  {
    forall i :: 0 <= i < |c.gates| ==> IsTimeout(c.gates[i].timeout)
  }

  // ---------------------------------------------------------------- reading single entries

  lemma RequireText(s: string, e: Error)
    ensures Require(Str(s), e) == if NonBlank(s) then Ok(Strip(s)) else Err(e)
    ensures NonBlank(Strip(s)) <==> NonBlank(s)
  {
    StripFacts(s);
  }

  lemma TextItemsOfStrs(ts: seq<string>)
    ensures TextItems(Arr(Strs(ts))) == Ok(ts)
  {
    TextsOfStrs(ts);
  }

  /** The closed vocabularies hold no blank and no padded words. */
  lemma VocabularyWord(s: string)
    requires s != "" && Trimmed(s)
    ensures NonBlank(s) && Strip(s) == s
  {
    StripFacts(s);
  }

  lemma ConstraintKindWord(s: string)
    requires s in CONSTRAINT_KINDS
    ensures NonBlank(s) && Strip(s) == s
  {
    VocabularyWord(s);
  }

  lemma GateKindWord(s: string)
    requires s in GATE_KINDS
    ensures NonBlank(s) && Strip(s) == s
  {
    VocabularyWord(s);
  }

  lemma StatusWord(s: string)
    requires s in STATUSES
    ensures NonBlank(s) && Strip(s) == s
  {
    VocabularyWord(s);
  }

  lemma StyleWord(s: string)
    requires s in STYLES
    ensures NonBlank(s) && Strip(s) == s
  {
    VocabularyWord(s);
  }

  // ---------------------------------------------------------------- the parts
  //
  // For each part: what its dictionary holds under each key, and what loading makes of any
  // dictionary that holds those entries.

  lemma LayerReload(l: Layer)
    requires ValidLayer(l)
    ensures LayerFrom(Obj(LayerDict(l))) == Checked(ValidLayer(TrimLayer(l)), TrimLayer(l), ContractError)
  {
    RequireText(l.id, ContractError);
    RequireText(l.path, ContractError);
  }

  lemma RuleEntries(r: Rule)
    requires r.severity != ""
    ensures var d := RuleDict(r);
            && Get(d, "id") == Str(r.id) && Get(d, "source") == Str(r.source)
            && GetOr(d, "may_depend_on", Arr([])) == Arr(Strs(r.mayDependOn))
            && TextOr(d, "severity", "block") == r.severity && TextOr(d, "description", "") == r.description
  {
  }

  lemma RuleReload(r: Rule)
    requires ValidRule(r)
    ensures RuleFrom(Obj(RuleDict(r))) == Checked(ValidRule(TrimRule(r)), TrimRule(r), ContractError)
  {
    RuleEntries(r);
    RequireText(r.id, ContractError);
    RequireText(r.source, ContractError);
    TextsOfStrs(r.mayDependOn);
  }

  lemma ConstraintEntries(c: Constraint)
    requires c.severity != ""
    ensures var d := ConstraintDict(c);
            && Get(d, "id") == Str(c.id) && Get(d, "type") == Str(c.kind)
            && TextOr(d, "severity", "block") == c.severity && TextOr(d, "description", "") == c.description
            && Get(d, "pattern") == c.pattern
            && GetOr(d, "scope", Arr([])) == Arr(Strs(c.scope))
            && GetOr(d, "params", Obj(map[])) == Obj(c.params)
  {
  }

  lemma ConstraintLoads(d: map<string, Json>, c: Constraint)
    requires NonBlank(c.id) && NonBlank(c.kind)
    requires Get(d, "id") == Str(c.id) && Get(d, "type") == Str(c.kind)
    requires TextOr(d, "severity", "block") == c.severity && TextOr(d, "description", "") == c.description
    requires Get(d, "pattern") == c.pattern
    requires GetOr(d, "scope", Arr([])) == Arr(Strs(c.scope))
    requires GetOr(d, "params", Obj(map[])) == Obj(c.params)
    ensures ConstraintFrom(Obj(d)) == Checked(ValidConstraint(TrimConstraint(c)), TrimConstraint(c), ContractError)
  {
    TextsOfStrs(c.scope);
  }

  lemma ConstraintReload(c: Constraint)
    requires ValidConstraint(c)
    ensures ConstraintFrom(Obj(ConstraintDict(c))) ==
            Checked(ValidConstraint(TrimConstraint(c)), TrimConstraint(c), ContractError)
  {
    ConstraintEntries(c);
    ConstraintKindWord(c.kind);
    ConstraintLoads(ConstraintDict(c), c);
  }

  lemma GateEntries(g: Gate)
    ensures var d := GateDict(g);
            && Get(d, "id") == Str(g.id) && Get(d, "type") == Str(g.kind)
            && "required" in d && d["required"] == Bool(g.required)
            && Get(d, "command") == g.command && Get(d, "timeout_seconds") == g.timeout
            && TextOr(d, "description", "") == g.description
  {
  }

  lemma GateReload(g: Gate)
    requires ValidGate(g)
    ensures GateFrom(Obj(GateDict(g))) ==
            if IsTimeout(g.timeout) then Checked(ValidGate(TrimGate(g)), TrimGate(g), ContractError) else Err(ContractError)
  {
    GateEntries(g);
    GateKindWord(g.kind);
    if IsTimeout(g.timeout) { GateLoads(GateDict(g), g); }
  }

  lemma GateLoads(d: map<string, Json>, g: Gate)
    requires NonBlank(g.id) && NonBlank(g.kind) && IsTimeout(g.timeout)
    requires Get(d, "id") == Str(g.id) && Get(d, "type") == Str(g.kind)
    requires "required" in d && d["required"] == Bool(g.required)
    requires Get(d, "command") == g.command && Get(d, "timeout_seconds") == g.timeout
    requires TextOr(d, "description", "") == g.description
    ensures GateFrom(Obj(d)) == Checked(ValidGate(TrimGate(g)), TrimGate(g), ContractError)
  {
  }

  lemma DecisionReload(d: Decision)
    requires ValidDecision(d)
    ensures DecisionFrom(Obj(DecisionDict(d))) == Checked(ValidDecision(TrimDecision(d)), TrimDecision(d), ContractError)
  {
    RequireText(d.id, ContractError);
    RequireText(d.decision, ContractError);
    RequireText(d.rationale, ContractError);
    TextItemsOfStrs(d.constraints);
    TextItemsOfStrs(d.requirementIds);
  }

  lemma TraceReload(t: Trace)
    requires ValidTrace(t)
    ensures TraceFrom(Obj(TraceDict(t))) == Checked(ValidTrace(TrimTrace(t)), TrimTrace(t), ContractError)
  {
    RequireText(t.sourceId, ContractError);
    RequireText(t.targetId, ContractError);
    VocabularyWord(t.relation);
  }

  lemma WaiverEntries(env: Env, w: Waiver)
    requires Faithful(env)
    ensures var d := WaiverDict(env, w);
            && Get(d, "id") == Str(w.id) && Get(d, "rule_id") == Str(w.ruleId) && Get(d, "path") == Str(w.path)
            && Get(d, "reason") == Str(w.reason) && Get(d, "approved_by") == Str(w.approvedBy)
            && TimeFrom(env, Get(d, "expires_at")) == Ok(w.expiresAt)
  {
  }

  lemma WaiverLoads(env: Env, d: map<string, Json>, w: Waiver)
    requires NonBlank(w.id) && NonBlank(w.ruleId) && NonBlank(w.path) && NonBlank(w.reason) && NonBlank(w.approvedBy)
    requires Get(d, "id") == Str(w.id) && Get(d, "rule_id") == Str(w.ruleId) && Get(d, "path") == Str(w.path)
    requires Get(d, "reason") == Str(w.reason) && Get(d, "approved_by") == Str(w.approvedBy)
    requires TimeFrom(env, Get(d, "expires_at")) == Ok(w.expiresAt)
    ensures WaiverFrom(env, Obj(d)) == Checked(ValidWaiver(TrimWaiver(w)), TrimWaiver(w), ExceptionError)
  {
  }

  lemma WaiverReload(env: Env, w: Waiver)
    requires Faithful(env) && ValidWaiver(w)
    ensures WaiverFrom(env, Obj(WaiverDict(env, w))) ==
            Checked(ValidWaiver(TrimWaiver(w)), TrimWaiver(w), ExceptionError)
  {
    WaiverEntries(env, w);
    WaiverLoads(env, WaiverDict(env, w), w);
  }

  lemma ApprovalEntries(env: Env, a: Approval)
    requires Faithful(env)
    ensures var d := ApprovalDict(env, a);
            && TimeFrom(env, Get(d, "approved_at")) == Ok(a.approvedAt)
            && Get(d, "status") == Str(a.status)
            && Get(d, "contract_id") == a.contractId && Get(d, "version") == a.version
            && Get(d, "content_fingerprint") == a.contentFingerprint && Get(d, "approver_id") == a.approverId
            && Get(d, "validation_result") == a.validationResult
  {
    var d := ApprovalDict(env, a);
    assert Get(d, "approved_at") == if a.approvedAt.Some? then Str(env.iso(a.approvedAt.value)) else Null;
  }

  lemma ApprovalLoads(env: Env, d: map<string, Json>, a: Approval)
    requires NonBlank(a.status) && Strip(a.status) == a.status && ValidApproval(a)
    requires TimeFrom(env, Get(d, "approved_at")) == Ok(a.approvedAt)
    requires Get(d, "status") == Str(a.status)
    requires Get(d, "contract_id") == a.contractId && Get(d, "version") == a.version
    requires Get(d, "content_fingerprint") == a.contentFingerprint && Get(d, "approver_id") == a.approverId
    requires Get(d, "validation_result") == a.validationResult
    ensures ApprovalFrom(env, Obj(d)) == Ok(a)
  {
  }

  lemma ApprovalReload(env: Env, a: Approval)
    requires Faithful(env) && ValidApproval(a)
    ensures ApprovalFrom(env, Obj(ApprovalDict(env, a))) == Ok(a) && TrimApproval(a) == a
  {
    ApprovalEntries(env, a);
    VocabularyWord(a.status);
    ApprovalLoads(env, ApprovalDict(env, a), a);
  }

  // ---------------------------------------------------------------- lists of parts

  /** Loading one item gives `y` when `ok`, and fails otherwise. */
  predicate Loads<T(==)>(r: Result<T, Error>, ok: bool, y: T) { if ok then r == Ok(y) else r.Err? }

  lemma {:induction false} LoadItemsPointwise<T>(items: seq<Json>, g: Json -> Result<T, Error>, ys: seq<T>, ok: T -> bool)
    requires |items| == |ys|
    requires forall i :: 0 <= i < |items| ==> Loads(g(items[i]), ok(ys[i]), ys[i])
    ensures Loads(LoadItems(items, g), AllOk(ys, ok), ys)
  {
    if items != [] {
      forall i | 0 <= i < |items[1..]| ensures Loads(g(items[1..][i]), ok(ys[1..][i]), ys[1..][i]) {
        assert Loads(g(items[i + 1]), ok(ys[i + 1]), ys[i + 1]);
      }
      LoadItemsPointwise(items[1..], g, ys[1..], ok);
      assert Loads(g(items[0]), ok(ys[0]), ys[0]);
      assert ys == [ys[0]] + ys[1..];
      if AllOk(ys, ok) {
        assert AllOk(ys[1..], ok);
      } else {
        var i :| 0 <= i < |ys| && !ok(ys[i]);
        if i > 0 { assert !ok(ys[1..][i - 1]); }
      }
    } else {
      assert ys == [];
    }
  }

  /** Saving and reloading a list of parts, given what it does to each. */
  lemma ListReload<T>(xs: seq<T>, dict: T -> map<string, Json>, from: Json -> Result<T, Error>, trim: T -> T, ok: T -> bool)
    requires forall i :: 0 <= i < |xs| ==> Loads(from(Obj(dict(xs[i]))), ok(trim(xs[i])), trim(xs[i]))
    ensures Loads(LoadAll(Objs(xs, dict), from),
                  AllOk(MapSeq(trim, xs), ok), MapSeq(trim, xs))
  {
    var items := Objs(xs, dict).items;
    forall i | 0 <= i < |items| ensures Loads(from(items[i]), ok(MapSeq(trim, xs)[i]), MapSeq(trim, xs)[i]) {
      assert items[i] == Obj(dict(xs[i]));
    }
    LoadItemsPointwise(items, from, MapSeq(trim, xs), ok);
    if xs == [] {
      assert MapSeq(trim, xs) == [];
    }
  }

  // ---------------------------------------------------------------- the whole contract

  /** The labels do not cover the content. */
  lemma ContentEntry(env: Env, c: Contract, mark: string, key: string)
    requires key != "status" && key != "approval" && key != "content_fingerprint"
    ensures Get(Labelled(env, c, mark), key) == Get(CanonicalDict(env, c), key)
  {
  }

  lemma CanonicalTexts(env: Env, c: Contract)
    ensures var d := CanonicalDict(env, c);
            && Get(d, "schema_version") == Str(c.schemaVersion) && Get(d, "contract_id") == Str(c.contractId)
            && Get(d, "version") == Str(c.version) && Get(d, "style") == Str(c.style)
  {
  }

  lemma TextEntries(env: Env, c: Contract, mark: string)
    ensures var d := Labelled(env, c, mark);
            && Get(d, "schema_version") == Str(c.schemaVersion) && Get(d, "contract_id") == Str(c.contractId)
            && Get(d, "version") == Str(c.version) && Get(d, "style") == Str(c.style)
  {
    CanonicalTexts(env, c);
    ContentEntry(env, c, mark, "schema_version");
    ContentEntry(env, c, mark, "contract_id");
    ContentEntry(env, c, mark, "version");
    ContentEntry(env, c, mark, "style");
  }

  lemma ObjectEntries(env: Env, c: Contract, mark: string)
    ensures var d := Labelled(env, c, mark);
            && Get(d, "status") == Str(c.status) && Get(d, "project") == Obj(ProjectDict(c))
            && Get(d, "approval") == Obj(ApprovalDict(env, c.approval))
            && Get(d, "technology_constraints") == Arr(Strs(c.technology))
  {
  }

  lemma RuleListEntries(env: Env, c: Contract, mark: string)
    ensures var d := Labelled(env, c, mark);
            && Get(d, "layers") == Objs(c.layers, LayerDict)
            && Get(d, "dependency_rules") == Objs(c.rules, RuleDict)
            && Get(d, "constraints") == Objs(c.constraints, ConstraintDict)
            && Get(d, "quality_gates") == Objs(c.gates, GateDict)
  {
    CanonicalRules(env, c);
    ContentEntry(env, c, mark, "layers");
    ContentEntry(env, c, mark, "dependency_rules");
    ContentEntry(env, c, mark, "constraints");
    ContentEntry(env, c, mark, "quality_gates");
  }

  lemma CanonicalRules(env: Env, c: Contract)
    ensures var d := CanonicalDict(env, c);
            && Get(d, "layers") == Objs(c.layers, LayerDict)
            && Get(d, "dependency_rules") == Objs(c.rules, RuleDict)
            && Get(d, "constraints") == Objs(c.constraints, ConstraintDict)
            && Get(d, "quality_gates") == Objs(c.gates, GateDict)
  {
  }

  lemma RecordListEntries(env: Env, c: Contract, mark: string)
    ensures var d := Labelled(env, c, mark);
            && Get(d, "decisions") == Objs(c.decisions, DecisionDict)
            && Get(d, "exceptions") == Objs(c.waivers, WaiverWriter(env))
            && Get(d, "traceability") == Objs(c.traceability, TraceDict)
  {
  }

  /** The lists of `d` load to those of `t`, each failing exactly when `t` has an invalid part of its kind. */
  predicate ListsLoad(env: Env, d: map<string, Json>, t: Contract)
  {
    && Loads(LoadAll(Get(d, "layers"), LayerFrom), AllOk(t.layers, ValidLayer), t.layers)
    && Loads(LoadAll(Get(d, "dependency_rules"), RuleFrom), AllOk(t.rules, ValidRule), t.rules)
    && Loads(LoadAll(Get(d, "constraints"), ConstraintFrom),
             AllOk(t.constraints, ValidConstraint), t.constraints)
    && Loads(LoadAll(Get(d, "quality_gates"), GateFrom), AllOk(t.gates, ValidGate), t.gates)
    && Loads(LoadAll(Get(d, "decisions"), DecisionFrom),
             AllOk(t.decisions, ValidDecision), t.decisions)
    && Loads(LoadAll(Get(d, "traceability"), TraceFrom),
             AllOk(t.traceability, ValidTrace), t.traceability)
    && Loads(LoadAll(Get(d, "exceptions"), WaiverLoader(env)),
             AllOk(t.waivers, ValidWaiver), t.waivers)
  }

  lemma LayersReload(xs: seq<Layer>)
    requires AllOk(xs, ValidLayer)
    ensures var ys := MapSeq(TrimLayer, xs);
            Loads(LoadAll(Objs(xs, LayerDict), LayerFrom), AllOk(ys, ValidLayer), ys)
  {
    forall i | 0 <= i < |xs| ensures Loads(LayerFrom(Obj(LayerDict(xs[i]))), ValidLayer(TrimLayer(xs[i])), TrimLayer(xs[i])) {
      LayerReload(xs[i]);
    }
    ListReload(xs, LayerDict, LayerFrom, TrimLayer, ValidLayer);
  }

  lemma RulesReload(xs: seq<Rule>)
    requires AllOk(xs, ValidRule)
    ensures var ys := MapSeq(TrimRule, xs);
            Loads(LoadAll(Objs(xs, RuleDict), RuleFrom), AllOk(ys, ValidRule), ys)
  {
    forall i | 0 <= i < |xs| ensures Loads(RuleFrom(Obj(RuleDict(xs[i]))), ValidRule(TrimRule(xs[i])), TrimRule(xs[i])) {
      RuleReload(xs[i]);
    }
    ListReload(xs, RuleDict, RuleFrom, TrimRule, ValidRule);
  }

  lemma ConstraintsReload(xs: seq<Constraint>)
    requires AllOk(xs, ValidConstraint)
    ensures var ys := MapSeq(TrimConstraint, xs);
            Loads(LoadAll(Objs(xs, ConstraintDict), ConstraintFrom), AllOk(ys, ValidConstraint), ys)
  {
    forall i | 0 <= i < |xs| ensures Loads(ConstraintFrom(Obj(ConstraintDict(xs[i]))), ValidConstraint(TrimConstraint(xs[i])), TrimConstraint(xs[i])) {
      ConstraintReload(xs[i]);
    }
    ListReload(xs, ConstraintDict, ConstraintFrom, TrimConstraint, ValidConstraint);
  }

  lemma DecisionsReload(xs: seq<Decision>)
    requires AllOk(xs, ValidDecision)
    ensures var ys := MapSeq(TrimDecision, xs);
            Loads(LoadAll(Objs(xs, DecisionDict), DecisionFrom), AllOk(ys, ValidDecision), ys)
  {
    forall i | 0 <= i < |xs| ensures Loads(DecisionFrom(Obj(DecisionDict(xs[i]))), ValidDecision(TrimDecision(xs[i])), TrimDecision(xs[i])) {
      DecisionReload(xs[i]);
    }
    ListReload(xs, DecisionDict, DecisionFrom, TrimDecision, ValidDecision);
  }

  lemma TracesReload(xs: seq<Trace>)
    requires AllOk(xs, ValidTrace)
    ensures var ys := MapSeq(TrimTrace, xs);
            Loads(LoadAll(Objs(xs, TraceDict), TraceFrom), AllOk(ys, ValidTrace), ys)
  {
    forall i | 0 <= i < |xs| ensures Loads(TraceFrom(Obj(TraceDict(xs[i]))), ValidTrace(TrimTrace(xs[i])), TrimTrace(xs[i])) {
      TraceReload(xs[i]);
    }
    ListReload(xs, TraceDict, TraceFrom, TrimTrace, ValidTrace);
  }

  lemma GatesReload(xs: seq<Gate>)
    requires AllOk(xs, ValidGate) && forall i :: 0 <= i < |xs| ==> IsTimeout(xs[i].timeout)
    ensures var ys := MapSeq(TrimGate, xs);
            Loads(LoadAll(Objs(xs, GateDict), GateFrom), AllOk(ys, ValidGate), ys)
  {
    forall i | 0 <= i < |xs| ensures Loads(GateFrom(Obj(GateDict(xs[i]))), ValidGate(TrimGate(xs[i])), TrimGate(xs[i])) {
      GateReload(xs[i]);
    }
    ListReload(xs, GateDict, GateFrom, TrimGate, ValidGate);
  }

  lemma WaiversReload(env: Env, xs: seq<Waiver>)
    requires Faithful(env) && AllOk(xs, ValidWaiver)
    ensures var ys := MapSeq(TrimWaiver, xs);
            Loads(LoadAll(Objs(xs, WaiverWriter(env)), WaiverLoader(env)), AllOk(ys, ValidWaiver), ys)
  {
    forall i | 0 <= i < |xs|
      ensures Loads(WaiverLoader(env)(Obj(WaiverWriter(env)(xs[i]))), ValidWaiver(TrimWaiver(xs[i])), TrimWaiver(xs[i])) {
      WaiverReload(env, xs[i]);
    }
    ListReload(xs, WaiverWriter(env), WaiverLoader(env), TrimWaiver, ValidWaiver);
  }

  lemma ListsReload(env: Env, c: Contract, mark: string)
    requires Faithful(env) && ValidParts(c) && WellTyped(c)
    ensures ListsLoad(env, Labelled(env, c, mark), Trim(c))
  {
    RuleListEntries(env, c, mark);
    RecordListEntries(env, c, mark);
    LayersReload(c.layers);
    RulesReload(c.rules);
    ConstraintsReload(c.constraints);
    GatesReload(c.gates);
    DecisionsReload(c.decisions);
    TracesReload(c.traceability);
    WaiversReload(env, c.waivers);
  }

  lemma PartsLoad(env: Env, d: map<string, Json>, t: Contract)
    requires ListsLoad(env, d, t) && ValidApproval(t.approval)
    requires TextItems(Get(d, "technology_constraints")) == Ok(t.technology)
    requires ApprovalFrom(env, GetOr(d, "approval", Obj(map["status" := Str("pending")]))) == Ok(t.approval)
    ensures Loads(PartsFrom(env, d), ValidParts(t), PartsOf(t))
  {
  }

  lemma ApprovalDictNonEmpty(env: Env, a: Approval)
    ensures Truthy(Obj(ApprovalDict(env, a)))
  {
    assert "status" in ApprovalDict(env, a);
  }

  lemma PartsReload(env: Env, c: Contract, mark: string)
    requires Faithful(env) && ValidParts(c) && WellTyped(c)
    ensures Loads(PartsFrom(env, Labelled(env, c, mark)), ValidParts(Trim(c)), PartsOf(Trim(c)))
  {
    ListsReload(env, c, mark);
    ObjectEntries(env, c, mark);
    TextItemsOfStrs(c.technology);
    ApprovalReload(env, c.approval);
    ApprovalDictNonEmpty(env, c.approval);
    PartsLoad(env, Labelled(env, c, mark), Trim(c));
  }

  lemma ProjectEntries(c: Contract)
    ensures var p := ProjectDict(c);
            p != map[] && Get(p, "name") == Str(c.projectName) && Get(p, "language") == c.language && Get(p, "runtime") == c.runtime
  {
    assert "name" in ProjectDict(c);
  }

  /** The head of the dictionary gives the stripped texts. */
  lemma HeadLoads(env: Env, d: map<string, Json>, project: map<string, Json>, c: Contract, p: Parts)
    requires NonBlank(c.contractId) && NonBlank(c.version) && NonBlank(c.status) && NonBlank(c.projectName)
    requires NonBlank(c.style) && c.schemaVersion != ""
    requires Get(d, "schema_version") == Str(c.schemaVersion) && Get(d, "contract_id") == Str(c.contractId)
    requires Get(d, "version") == Str(c.version) && Get(d, "style") == Str(c.style) && Get(d, "status") == Str(c.status)
    requires GetOr(d, "project", Obj(map[])) == Obj(project) && Get(project, "name") == Str(c.projectName)
    requires PartsFrom(env, d) == Ok(p)
    ensures FromDict(env, d) ==
            var r := Assemble(c.schemaVersion, Strip(c.contractId), Strip(c.version), Strip(c.status), Strip(c.projectName),
                              Strip(c.style), p, Get(project, "language"), Get(project, "runtime"));
            Checked(ValidContract(env, r), r, ContractError)
  {
  }

  lemma AssembledIsTrim(c: Contract)
    ensures Assemble(c.schemaVersion, Strip(c.contractId), Strip(c.version), Strip(c.status), Strip(c.projectName),
                     Strip(c.style), PartsOf(Trim(c)), c.language, c.runtime) == Trim(c)
  {
  }

  lemma NoParts(env: Env, d: map<string, Json>)
    requires PartsFrom(env, d).Err?
    ensures FromDict(env, d).Err?
  {
  }

  lemma ContractLoads(env: Env, d: map<string, Json>, project: map<string, Json>, c: Contract)
    requires NonBlank(c.contractId) && NonBlank(c.version) && NonBlank(c.status) && NonBlank(c.projectName)
    requires NonBlank(c.style) && c.schemaVersion != ""
    requires Get(d, "schema_version") == Str(c.schemaVersion) && Get(d, "contract_id") == Str(c.contractId)
    requires Get(d, "version") == Str(c.version) && Get(d, "style") == Str(c.style) && Get(d, "status") == Str(c.status)
    requires GetOr(d, "project", Obj(map[])) == Obj(project)
    requires Get(project, "name") == Str(c.projectName)
    requires Get(project, "language") == c.language && Get(project, "runtime") == c.runtime
    requires Loads(PartsFrom(env, d), ValidParts(Trim(c)), PartsOf(Trim(c)))
    ensures Loads(FromDict(env, d), ValidContract(env, Trim(c)), Trim(c))
  {
    if ValidParts(Trim(c)) {
      HeadLoads(env, d, project, c, PartsOf(Trim(c)));
      AssembledIsTrim(c);
    } else {
      NoParts(env, d);
    }
  }

  lemma {:induction false} OneBadItem<T>(items: seq<Json>, f: Json -> Result<T, Error>, i: nat)
    requires i < |items| && f(items[i]).Err?
    ensures LoadItems(items, f).Err?
  {
    if i > 0 && f(items[0]).Ok? { OneBadItem(items[1..], f, i - 1); }
  }

  lemma NoGates(env: Env, d: map<string, Json>)
    requires LoadAll(Get(d, "quality_gates"), GateFrom).Err?
    ensures PartsFrom(env, d).Err?
  {
  }

  lemma BadGateBlocksList(gates: seq<Gate>, i: nat)
    requires i < |gates| && ValidGate(gates[i]) && !IsTimeout(gates[i].timeout)
    ensures LoadAll(Objs(gates, GateDict), GateFrom).Err?
  {
    var items := Objs(gates, GateDict).items;
    assert items[i] == Obj(GateDict(gates[i]));
    GateReload(gates[i]);
    OneBadItem(items, GateFrom, i);
  }

  lemma BadGatesBlockLoading(env: Env, d: map<string, Json>, gates: Json)
    requires Get(d, "quality_gates") == gates && LoadAll(gates, GateFrom).Err?
    ensures FromDict(env, d).Err?
  {
    NoGates(env, d);
    NoParts(env, d);
  }

  /** A timeout of another type is written and then refused. */
  lemma IllTypedIsRefused(env: Env, c: Contract, mark: string)
    requires AllOk(c.gates, ValidGate) && !WellTyped(c)
    ensures FromDict(env, Labelled(env, c, mark)).Err?
  {
    var i :| 0 <= i < |c.gates| && !IsTimeout(c.gates[i].timeout);
    BadGateBlocksList(c.gates, i);
    RuleListEntries(env, c, mark);
    BadGatesBlockLoading(env, Labelled(env, c, mark), Objs(c.gates, GateDict));
  }

  /**
   * Saving a contract and loading it again succeeds exactly when its timeouts are integers or absent
   * and the contract with its required strings stripped is valid, and then yields that contract.
   */
  lemma ReloadIsTrim(env: Env, c: Contract)
    requires Faithful(env) && ValidContract(env, c)
    ensures Loads(FromDict(env, ToDict(env, c)), WellTyped(c) && ValidContract(env, Trim(c)), Trim(c))
  {
    var mark := Fingerprint(env, c);
    if WellTyped(c) {
      PartsReload(env, c, mark);
      HeadEntries(env, c, mark);
      ContractLoads(env, Labelled(env, c, mark), ProjectDict(c), c);
    } else {
      IllTypedIsRefused(env, c, mark);
    }
  }

  lemma HeadEntries(env: Env, c: Contract, mark: string)
    requires ValidContent(c)
    ensures NonBlank(c.status) && NonBlank(c.style)
    ensures var d := Labelled(env, c, mark);
            && Get(d, "schema_version") == Str(c.schemaVersion) && Get(d, "contract_id") == Str(c.contractId)
            && Get(d, "version") == Str(c.version) && Get(d, "style") == Str(c.style) && Get(d, "status") == Str(c.status)
            && GetOr(d, "project", Obj(map[])) == Obj(ProjectDict(c))
    ensures var p := ProjectDict(c);
            Get(p, "name") == Str(c.projectName) && Get(p, "language") == c.language && Get(p, "runtime") == c.runtime
  {
    TextEntries(env, c, mark);
    ObjectEntries(env, c, mark);
    ProjectEntries(c);
    StatusWord(c.status);
    StyleWord(c.style);
  }
}
