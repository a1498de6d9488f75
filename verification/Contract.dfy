/**
 * Architecture contract v1: its parts, their dictionary forms, validation, approval and
 * fingerprint. A field the source leaves unchecked (`Any`) is a `Json` value, `Null` for `None`.
 */
module Contract {
  import opened Collections
  import opened Orders
  import opened CanonicalJson
  import opened PyText
  import opened PyValues

  datatype Error = ContractError | ExceptionError | TypeError

  datatype Time = Time(instant: int, aware: bool)

  /** What the environment supplies: the digest and the ISO text of a timestamp. */
  datatype Env = Env(sha256: string -> string, iso: Time -> string, parseIso: string -> Option<Time>)

  /** `fromisoformat` undoes `isoformat`, and a hex digest has 64 characters. */
  ghost predicate Faithful(env: Env)
  {
    && (forall t: Time :: env.iso(t) != "" && env.parseIso(env.iso(t)) == Some(t))
    && (forall s: string :: |env.sha256(s)| == 64)
  }

  // ---------------------------------------------------------------- Python values

  /** `str(d.get(k) or default)`. */
  function TextOr(d: map<string, Json>, k: string, default: string): string
  {
    if Truthy(Get(d, k)) then PyStr(Get(d, k)) else default
  }

  /** `_require_nonempty_str`: the stripped text of a non-blank string. */
  function Require(v: Json, e: Error): Result<string, Error>
  {
    if v.Str? && Strip(v.s) != "" then Ok(Strip(v.s)) else Err(e)
  }

  predicate NonBlank(s: string) { Strip(s) != "" }

  /** What `for x in (v or [])` runs over, each element turned into text. */
  function TextItems(v: Json): Result<seq<string>, Error>
  {
    if !Truthy(v) then Ok([])
    else
      match v
      case Arr(items) => Ok(Texts(items))
      case Str(s) => Ok(seq(|s|, i requires 0 <= i < |s| => [s[i]]))
      case Obj(fields) => Ok(SortedKeys(fields.Keys))
      case _ => Err(TypeError)
  }

  /** Adds a key only when its guard holds, as the `to_dict` methods do. */
  function PutIf(d: map<string, Json>, guard: bool, k: string, v: Json): map<string, Json>
  {
    if guard then d[k := v] else d
  }

  // ---------------------------------------------------------------- the parts of a contract

  datatype Layer = Layer(id: string, path: string, description: string, frameworkIndependent: Json)

  datatype Rule = Rule(id: string, source: string, mayDependOn: seq<string>, severity: string, description: string)

  datatype Constraint = Constraint(
    id: string, kind: string, severity: string, description: string,
    pattern: Json, scope: seq<string>, params: map<string, Json>)

  datatype Gate = Gate(id: string, kind: string, required: bool, command: Json, timeout: Json, description: string)

  datatype Decision = Decision(
    id: string, decision: string, rationale: string, constraints: seq<string>, requirementIds: seq<string>)

  datatype Trace = Trace(sourceId: string, targetId: string, relation: string)

  datatype Waiver = Waiver(
    id: string, ruleId: string, path: string, reason: string, approvedBy: string, expiresAt: Option<Time>)

  datatype Approval = Approval(
    status: string, contractId: Json, version: Json, contentFingerprint: Json,
    approverId: Json, approvedAt: Option<Time>, validationResult: Json)

  datatype Contract = Contract(
    schemaVersion: string, contractId: string, version: string, status: string, projectName: string, style: string,
    layers: seq<Layer>, rules: seq<Rule>, gates: seq<Gate>, constraints: seq<Constraint>,
    decisions: seq<Decision>, traceability: seq<Trace>, technology: seq<string>, waivers: seq<Waiver>,
    language: Json, runtime: Json, approval: Approval)

  const STATUSES: set<string> := {"draft", "review", "approved", "superseded", "rejected"}
  const STYLES: set<string> := {"hexagonal", "clean", "modular_monolith", "microservices", "layered", "other"}
  const SEVERITIES: set<string> := {"block", "warn", "info"}
  const LANGUAGES: set<string> := {"python", "typescript", "go", "java", "csharp", "other"}
  const CONSTRAINT_KINDS: set<string> := {
    "forbid_pattern", "require_pattern", "forbid_call", "require_auth_on_routes", "no_path_traversal_writes",
    "no_cross_module_db_access", "max_module_fanout", "allowlisted_dependencies_only", "custom"}
  const GATE_KINDS: set<string> := {
    "command", "architecture_tests", "openapi_conformance", "event_schema_conformance", "dependency_rules",
    "security_scan", "custom"}
  const RELATIONS: set<string> := {"implements", "constrains", "satisfies", "derived_from", "verifies"}

  // ---------------------------------------------------------------- validation (`__post_init__`)

  predicate RepoRelative(path: string) { !Contains(path, "../") && !StartsWith(path, "/") }

  predicate ValidLayer(l: Layer) { NonBlank(l.id) && NonBlank(l.path) && RepoRelative(l.path) }

  predicate ValidRule(r: Rule)
  {
    NonBlank(r.id) && NonBlank(r.source) && r.severity in SEVERITIES && StartsWith(r.id, "DEP-")
  }

  predicate ValidConstraint(c: Constraint)
  {
    && NonBlank(c.id) && c.kind in CONSTRAINT_KINDS && c.severity in SEVERITIES
    && (c.kind == "forbid_pattern" || c.kind == "require_pattern" ==> Truthy(c.pattern))
    && (c.kind == "forbid_call" ==> Get(c.params, "callee").Str? && NonBlank(Get(c.params, "callee").s))
  }

  predicate ValidGate(g: Gate)
  {
    NonBlank(g.id) && g.kind in GATE_KINDS && (g.kind == "command" ==> Truthy(g.command))
  }

  predicate ValidDecision(d: Decision) { NonBlank(d.id) && NonBlank(d.decision) && NonBlank(d.rationale) }

  predicate ValidTrace(t: Trace) { NonBlank(t.sourceId) && NonBlank(t.targetId) && t.relation in RELATIONS }

  predicate ValidWaiver(w: Waiver)
  {
    && NonBlank(w.id) && NonBlank(w.ruleId) && NonBlank(w.path) && NonBlank(w.reason) && NonBlank(w.approvedBy)
    && StartsWith(w.id, "EXC-") && RepoRelative(w.path)
    && (w.expiresAt.Some? ==> w.expiresAt.value.aware)
  }

  predicate ValidApproval(a: Approval)
  {
    && a.status in {"pending", "approved", "rejected"}
    && (a.status == "approved" ==> Truthy(a.approverId) && a.approvedAt.Some? && Truthy(a.contentFingerprint))
  }

  predicate AllOk<T>(xs: seq<T>, ok: T -> bool) { forall i :: 0 <= i < |xs| ==> ok(xs[i]) }

  predicate ValidParts(c: Contract)
  {
    && AllOk(c.layers, ValidLayer)
    && AllOk(c.rules, ValidRule)
    && AllOk(c.constraints, ValidConstraint)
    && AllOk(c.gates, ValidGate)
    && AllOk(c.decisions, ValidDecision)
    && AllOk(c.traceability, ValidTrace)
    && AllOk(c.waivers, ValidWaiver)
    && ValidApproval(c.approval)
  }

  predicate KnownLayer(c: Contract, id: string) { exists i :: 0 <= i < |c.layers| && c.layers[i].id == id }

  predicate LayersKnown(c: Contract)
  {
    forall i :: 0 <= i < |c.rules| ==>
      && KnownLayer(c, c.rules[i].source)
      && forall j :: 0 <= j < |c.rules[i].mayDependOn| ==> KnownLayer(c, c.rules[i].mayDependOn[j])
  }

  predicate UniqueIds(c: Contract)
  {
    && (forall i, j :: 0 <= i < j < |c.layers| ==> c.layers[i].id != c.layers[j].id)
    && (forall i, j :: 0 <= i < j < |c.rules| ==> c.rules[i].id != c.rules[j].id)
    && (forall i, j :: 0 <= i < j < |c.waivers| ==> c.waivers[i].id != c.waivers[j].id)
  }

  /** The checks that do not look at approval. */
  predicate ValidContent(c: Contract)
  {
    && c.schemaVersion == "1.0"
    && NonBlank(c.contractId) && NonBlank(c.version) && NonBlank(c.projectName)
    && c.status in STATUSES && c.style in STYLES
    && c.layers != [] && c.rules != [] && c.gates != []
    && UniqueIds(c) && LayersKnown(c)
    && (c.language.Null? || (c.language.Str? && c.language.s in LANGUAGES))
  }

  predicate ValidContract(env: Env, c: Contract)
  {
    && ValidParts(c) && ValidContent(c)
    && (c.status == "approved" ==>
          c.approval.status == "approved" && c.approval.contentFingerprint == Str(Fingerprint(env, c)))
  }

  /** Construction runs `__post_init__` and fails when a check does. */
  function Checked<T>(ok: bool, v: T, e: Error): Result<T, Error> { if ok then Ok(v) else Err(e) }

  // ---------------------------------------------------------------- dictionary forms

  function LayerDict(l: Layer): map<string, Json>
  {
    PutIf(PutIf(map["id" := Str(l.id), "path" := Str(l.path)],
                l.description != "", "description", Str(l.description)),
          !l.frameworkIndependent.Null?, "framework_independent", l.frameworkIndependent)
  }

  function RuleDict(r: Rule): map<string, Json>
  {
    PutIf(map["id" := Str(r.id), "source" := Str(r.source), "may_depend_on" := Arr(Strs(r.mayDependOn)),
              "severity" := Str(r.severity)],
          r.description != "", "description", Str(r.description))
  }

  function ConstraintDict(c: Constraint): map<string, Json>
  {
    var d0 := map["id" := Str(c.id), "type" := Str(c.kind), "severity" := Str(c.severity)];
    var d1 := PutIf(d0, c.description != "", "description", Str(c.description));
    var d2 := PutIf(d1, !c.pattern.Null?, "pattern", c.pattern);
    var d3 := PutIf(d2, c.scope != [], "scope", Arr(Strs(c.scope)));
    PutIf(d3, c.params != map[], "params", Obj(c.params))
  }

  function GateDict(g: Gate): map<string, Json>
  {
    var d0 := map["id" := Str(g.id), "type" := Str(g.kind), "required" := Bool(g.required)];
    var d1 := PutIf(d0, !g.command.Null?, "command", g.command);
    var d2 := PutIf(d1, !g.timeout.Null?, "timeout_seconds", g.timeout);
    PutIf(d2, g.description != "", "description", Str(g.description))
  }

  function DecisionDict(d: Decision): map<string, Json>
  {
    var d0 := map["id" := Str(d.id), "decision" := Str(d.decision), "rationale" := Str(d.rationale)];
    var d1 := PutIf(d0, d.constraints != [], "constraints", Arr(Strs(d.constraints)));
    PutIf(d1, d.requirementIds != [], "requirement_ids", Arr(Strs(d.requirementIds)))
  }

  function TraceDict(t: Trace): map<string, Json>
  {
    map["source_id" := Str(t.sourceId), "target_id" := Str(t.targetId), "relation" := Str(t.relation)]
  }

  function WaiverDict(env: Env, w: Waiver): map<string, Json>
  {
    var d0 := map["id" := Str(w.id), "rule_id" := Str(w.ruleId), "path" := Str(w.path), "reason" := Str(w.reason),
                  "approved_by" := Str(w.approvedBy)];
    if w.expiresAt.Some? then d0["expires_at" := Str(env.iso(w.expiresAt.value))] else d0
  }

  function WaiverWriter(env: Env): Waiver -> map<string, Json> { (w: Waiver) => WaiverDict(env, w) }

  function ApprovalDict(env: Env, a: Approval): map<string, Json>
  {
    var d0 := map["status" := Str(a.status)];
    var d1 := PutIf(d0, !a.contractId.Null?, "contract_id", a.contractId);
    var d2 := PutIf(d1, !a.version.Null?, "version", a.version);
    var d3 := PutIf(d2, !a.contentFingerprint.Null?, "content_fingerprint", a.contentFingerprint);
    var d4 := PutIf(d3, !a.approverId.Null?, "approver_id", a.approverId);
    var d5 := if a.approvedAt.Some? then d4["approved_at" := Str(env.iso(a.approvedAt.value))] else d4;
    PutIf(d5, !a.validationResult.Null?, "validation_result", a.validationResult)
  }

  function ProjectDict(c: Contract): map<string, Json>
  {
    PutIf(PutIf(map["name" := Str(c.projectName)], !c.language.Null?, "language", c.language),
          !c.runtime.Null?, "runtime", c.runtime)
  }

  /** `[x.to_dict() for x in xs]`. */
  function Objs<T>(xs: seq<T>, f: T -> map<string, Json>): Json
  {
    Arr(seq(|xs|, i requires 0 <= i < |xs| => Obj(f(xs[i]))))
  }

  /** The architecture content, without the approval workflow. */
  function CanonicalDict(env: Env, c: Contract): map<string, Json>
  {
    map["schema_version" := Str(c.schemaVersion),
        "contract_id" := Str(c.contractId),
        "version" := Str(c.version),
        "project" := Obj(ProjectDict(c)),
        "style" := Str(c.style),
        "layers" := Objs(c.layers, LayerDict),
        "dependency_rules" := Objs(c.rules, RuleDict),
        "constraints" := Objs(c.constraints, ConstraintDict),
        "quality_gates" := Objs(c.gates, GateDict),
        "decisions" := Objs(c.decisions, DecisionDict),
        "technology_constraints" := Arr(Strs(c.technology)),
        "exceptions" := Objs(c.waivers, WaiverWriter(env)),
        "traceability" := Objs(c.traceability, TraceDict)]
  }

  function CanonicalText(env: Env, c: Contract): string { Print(Obj(CanonicalDict(env, c))) }

  function Fingerprint(env: Env, c: Contract): string { env.sha256(CanonicalText(env, c)) }

  function ToDict(env: Env, c: Contract): map<string, Json> { Labelled(env, c, Fingerprint(env, c)) }

  /** The content, the workflow state, and a fingerprint label. */
  function Labelled(env: Env, c: Contract, mark: string): map<string, Json>
  {
    CanonicalDict(env, c)["status" := Str(c.status)]["approval" := Obj(ApprovalDict(env, c.approval))]
      ["content_fingerprint" := Str(mark)]
  }

  // ---------------------------------------------------------------- loading

  /** `d.get(k) or default`. */
  function GetOr(d: map<string, Json>, k: string, default: Json): Json
  {
    if Truthy(Get(d, k)) then Get(d, k) else default
  }

  function LayerFrom(v: Json): Result<Layer, Error>
  {
    if !v.Obj? then Err(TypeError)
    else
      var d := v.fields;
      var id :- Require(Get(d, "id"), ContractError);
      var path :- Require(Get(d, "path"), ContractError);
      var l := Layer(id, path, TextOr(d, "description", ""), Get(d, "framework_independent"));
      Checked(ValidLayer(l), l, ContractError)
  }

  function RuleFrom(v: Json): Result<Rule, Error>
  {
    if !v.Obj? then Err(TypeError)
    else
      var d := v.fields;
      var targets := GetOr(d, "may_depend_on", Arr([]));
      if !targets.Arr? then Err(ContractError)
      else
        var id :- Require(Get(d, "id"), ContractError);
        var source :- Require(Get(d, "source"), ContractError);
        var r := Rule(id, source, Texts(targets.items), TextOr(d, "severity", "block"), TextOr(d, "description", ""));
        Checked(ValidRule(r), r, ContractError)
  }

  function ConstraintFrom(v: Json): Result<Constraint, Error>
  {
    if !v.Obj? then Err(TypeError)
    else
      var d := v.fields;
      var scope := GetOr(d, "scope", Arr([]));
      var params := GetOr(d, "params", Obj(map[]));
      if !scope.Arr? || !params.Obj? then Err(ContractError)
      else
        var id :- Require(Get(d, "id"), ContractError);
        var kind :- Require(Get(d, "type"), ContractError);
        var c := Constraint(id, kind, TextOr(d, "severity", "block"), TextOr(d, "description", ""),
                            Get(d, "pattern"), Texts(scope.items), params.fields);
        Checked(ValidConstraint(c), c, ContractError)
  }

  predicate IsTimeout(v: Json) { v.Null? || v.Int? || v.Bool? }

  function GateFrom(v: Json): Result<Gate, Error>
  {
    if !v.Obj? then Err(TypeError)
    else
      var d := v.fields;
      if !IsTimeout(Get(d, "timeout_seconds")) then Err(ContractError)
      else
        var id :- Require(Get(d, "id"), ContractError);
        var kind :- Require(Get(d, "type"), ContractError);
        var g := Gate(id, kind, if "required" in d then Truthy(d["required"]) else true, Get(d, "command"),
                      Get(d, "timeout_seconds"), TextOr(d, "description", ""));
        Checked(ValidGate(g), g, ContractError)
  }

  function DecisionFrom(v: Json): Result<Decision, Error>
  {
    if !v.Obj? then Err(TypeError)
    else
      var d := v.fields;
      var id :- Require(Get(d, "id"), ContractError);
      var decision :- Require(Get(d, "decision"), ContractError);
      var rationale :- Require(Get(d, "rationale"), ContractError);
      var constraints :- TextItems(Get(d, "constraints"));
      var requirements :- TextItems(Get(d, "requirement_ids"));
      var r := Decision(id, decision, rationale, constraints, requirements);
      Checked(ValidDecision(r), r, ContractError)
  }

  function TraceFrom(v: Json): Result<Trace, Error>
  {
    if !v.Obj? then Err(TypeError)
    else
      var d := v.fields;
      var source :- Require(Get(d, "source_id"), ContractError);
      var target :- Require(Get(d, "target_id"), ContractError);
      var relation :- Require(Get(d, "relation"), ContractError);
      var t := Trace(source, target, relation);
      Checked(ValidTrace(t), t, ContractError)
  }

  /** An absent or empty timestamp is `None`; otherwise the text must parse. */
  function TimeFrom(env: Env, v: Json): Result<Option<Time>, Error>
  {
    if !Truthy(v) then Ok(None)
    else
      match env.parseIso(PyStr(v))
      case None => Err(TypeError)
      case Some(t) => Ok(Some(t))
  }

  function WaiverFrom(env: Env, v: Json): Result<Waiver, Error>
  {
    if !v.Obj? then Err(TypeError)
    else
      var d := v.fields;
      var expires :- TimeFrom(env, Get(d, "expires_at"));
      var id :- Require(Get(d, "id"), ExceptionError);
      var rule :- Require(Get(d, "rule_id"), ExceptionError);
      var path :- Require(Get(d, "path"), ExceptionError);
      var reason :- Require(Get(d, "reason"), ExceptionError);
      var who :- Require(Get(d, "approved_by"), ExceptionError);
      var w := Waiver(id, rule, path, reason, who, expires);
      Checked(ValidWaiver(w), w, ExceptionError)
  }

  function WaiverLoader(env: Env): Json -> Result<Waiver, Error> { v => WaiverFrom(env, v) }

  function ApprovalFrom(env: Env, v: Json): Result<Approval, Error>
  {
    if !v.Obj? then Err(TypeError)
    else
      var d := v.fields;
      var at :- TimeFrom(env, Get(d, "approved_at"));
      var status :- Require(Get(d, "status"), ContractError);
      var a := Approval(status, Get(d, "contract_id"), Get(d, "version"), Get(d, "content_fingerprint"),
                        Get(d, "approver_id"), at, Get(d, "validation_result"));
      Checked(ValidApproval(a), a, ContractError)
  }

  /** `tuple(f(x) for x in (v or []))` for parts that must be objects. */
  function LoadAll<T>(v: Json, f: Json -> Result<T, Error>): Result<seq<T>, Error>
  {
    if !Truthy(v) then Ok([]) else if !v.Arr? then Err(TypeError) else LoadItems(v.items, f)
  }

  function LoadItems<T>(items: seq<Json>, f: Json -> Result<T, Error>): Result<seq<T>, Error>
  {
    if items == [] then Ok([])
    else
      var x :- f(items[0]);
      var xs :- LoadItems(items[1..], f);
      Ok([x] + xs)
  }

  datatype Parts = Parts(
    layers: seq<Layer>, rules: seq<Rule>, constraints: seq<Constraint>, gates: seq<Gate>, decisions: seq<Decision>,
    traces: seq<Trace>, waivers: seq<Waiver>, technology: seq<string>, approval: Approval)

  function PartsOf(c: Contract): Parts
  {
    Parts(c.layers, c.rules, c.constraints, c.gates, c.decisions, c.traceability, c.waivers, c.technology, c.approval)
  }

  function PartsFrom(env: Env, d: map<string, Json>): Result<Parts, Error>
  {
    var layers :- LoadAll(Get(d, "layers"), LayerFrom);
    var rules :- LoadAll(Get(d, "dependency_rules"), RuleFrom);
    var constraints :- LoadAll(Get(d, "constraints"), ConstraintFrom);
    var gates :- LoadAll(Get(d, "quality_gates"), GateFrom);
    var decisions :- LoadAll(Get(d, "decisions"), DecisionFrom);
    var traces :- LoadAll(Get(d, "traceability"), TraceFrom);
    var waivers :- LoadAll(Get(d, "exceptions"), WaiverLoader(env));
    var technology :- TextItems(Get(d, "technology_constraints"));
    var approval :- ApprovalFrom(env, GetOr(d, "approval", Obj(map["status" := Str("pending")])));
    Ok(Parts(layers, rules, constraints, gates, decisions, traces, waivers, technology, approval))
  }

  function FromDict(env: Env, d: map<string, Json>): Result<Contract, Error>
  {
    var project := GetOr(d, "project", Obj(map[]));
    if !project.Obj? then Err(ContractError)
    else
      var p :- PartsFrom(env, d);
      var id :- Require(Get(d, "contract_id"), ContractError);
      var version :- Require(Get(d, "version"), ContractError);
      var status :- Require(Get(d, "status"), ContractError);
      var name :- Require(Get(project.fields, "name"), ContractError);
      var style :- Require(Get(d, "style"), ContractError);
      var c := Assemble(TextOr(d, "schema_version", ""), id, version, status, name, style, p,
                        Get(project.fields, "language"), Get(project.fields, "runtime"));
      Checked(ValidContract(env, c), c, ContractError)
  }

  function Assemble(schemaVersion: string, id: string, version: string, status: string, name: string, style: string,
                    p: Parts, language: Json, runtime: Json): Contract
  {
    Contract(schemaVersion, id, version, status, name, style,
             p.layers, p.rules, p.gates, p.constraints, p.decisions, p.traces, p.technology, p.waivers,
             language, runtime, p.approval)
  }

  // ---------------------------------------------------------------- approval

  function Approve(env: Env, c: Contract, approver: Json, at: Time): Result<Contract, Error>
  {
    if c.status !in {"draft", "review"} then Err(ContractError)
    else
      var who :- Require(approver, ContractError);
      var a := Approval("approved", Str(c.contractId), Str(c.version), Str(Fingerprint(env, c)), Str(who), Some(at),
                        Str("schema_and_invariants_ok"));
      if !ValidApproval(a) then Err(ContractError)
      else
        var r := c.(status := "approved", approval := a);
        Checked(ValidContract(env, r), r, ContractError)
  }
}
