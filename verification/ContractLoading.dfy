/**
 * Loading a contract from any dictionary, not only from one that `to_dict` wrote: for every part, the
 * condition on the raw entries under which it loads and the value of each field it then has.
 */
module ContractLoading {
  import opened Collections
  import opened Orders
  import opened CanonicalJson
  import opened Contract
  import opened PyText
  import opened PyValues

  // ---------------------------------------------------------------- raw entries

  /** The entry is text that reads `t` once the white space around it is taken away, and `t` is not empty. */
  ghost predicate Says(v: Json, t: string)
  {
    && v.Str? && t != "" && Trimmed(t)
    && exists i, j :: 0 <= i <= j <= |v.s| && Blank(v.s[..i]) && v.s[i..j] == t && Blank(v.s[j..])
  }

  /** The values Python takes for false. */
  predicate Falsy(v: Json)
  {
    v == Null || v == Bool(false) || v == Int(0) || v == Str("") || v == Arr([]) || v == Obj(map[])
  }

  /** `t` is the entry's text, or `default` when the entry is absent or falsy. */
  predicate Reads(v: Json, default: string, t: string) { if Falsy(v) then t == default else t == PyStr(v) }

  /** The entry is a list whose elements read `ts`; an absent or falsy entry is the empty list. */
  predicate ListReads(v: Json, ts: seq<string>)
  {
    if Falsy(v) then ts == []
    else v.Arr? && |ts| == |v.items| && forall i :: 0 <= i < |ts| ==> ts[i] == PyStr(v.items[i])
  }

  /** No segment climbs out of the repository and the path is not absolute. */
  predicate StaysInside(path: string)
  {
    && (path == "" || path[0] != '/')
    && forall i :: 0 <= i && i + 2 < |path| ==> !(path[i] == '.' && path[i + 1] == '.' && path[i + 2] == '/')
  }

  lemma TruthyIff(v: Json)
    ensures Truthy(v) <==> !Falsy(v)
  {
  }

  /** Blank text before, `m` in the middle, blank text after: cut in two steps, from the left and from the right. */
  lemma Window(s: string, l: string, m: string)
    requires |m| <= |l| <= |s| && s[|s| - |l|..] == l && m == l[..|m|]
    requires (forall k :: 0 <= k < |s| - |l| ==> IsSpace(s[k])) && (forall k :: |m| <= k < |l| ==> IsSpace(l[k]))
    ensures var i := |s| - |l|;
            Blank(s[..i]) && s[i..i + |m|] == m && Blank(s[i + |m|..])
  {
    var i := |s| - |l|;
    assert forall k :: i <= k < |s| ==> s[k] == l[k - i];
  }

  lemma StripWindow(s: string)
    ensures var l := LStrip(s);
            var i := |s| - |l|;
            var j := i + |RStrip(l)|;
            0 <= i <= j <= |s| && Blank(s[..i]) && s[i..j] == Strip(s) && Blank(s[j..])
  {
    LStripFacts(s);
    RStripFacts(LStrip(s));
    Window(s, LStrip(s), RStrip(LStrip(s)));
  }

  /** Trimmed text is found in one place only between blanks. */
  lemma WindowIsStrip(s: string, i: nat, j: nat, t: string)
    requires i <= j <= |s| && Blank(s[..i]) && s[i..j] == t && Blank(s[j..]) && t != "" && Trimmed(t)
    ensures Strip(s) == t
  {
    StripWindow(s);
    StripFacts(s);
    var l := LStrip(s);
    var a := |s| - |l|;
    var b := a + |RStrip(l)|;
    assert t[0] == s[i] && t[|t| - 1] == s[j - 1];
    assert forall k :: 0 <= k < a ==> s[..a][k] == s[k];
    assert forall k :: b <= k < |s| ==> s[b..][k - b] == s[k];
    assert a <= i && j <= b;
    assert Strip(s)[0] == s[a] && Strip(s)[b - a - 1] == s[b - 1];
    assert forall k :: 0 <= k < i ==> s[..i][k] == s[k];
    assert forall k :: j <= k < |s| ==> s[j..][k - j] == s[k];
    assert i <= a && b <= j;
  }

  lemma RequireIff(v: Json, e: Error, t: string)
    ensures Require(v, e) == Ok(t) <==> Says(v, t)
  {
    if v.Str? {
      StripWindow(v.s);
      StripFacts(v.s);
      if Says(v, t) {
        var i, j :| 0 <= i <= j <= |v.s| && Blank(v.s[..i]) && v.s[i..j] == t && Blank(v.s[j..]);
        WindowIsStrip(v.s, i, j, t);
      }
    }
  }

  /** A required text is as the entry says, and it is not blank. */
  lemma RequiredText(v: Json, e: Error, t: string)
    ensures Require(v, e) == Ok(t) <==> Says(v, t)
    ensures Says(v, t) ==> NonBlank(t)
  {
    RequireIff(v, e, t);
    if Says(v, t) { StripFacts(v.s); }
  }

  lemma ReadsIff(d: Rec, k: string, default: string, t: string)
    ensures TextOr(d, k, default) == t <==> Reads(Get(d, k), default, t)
  {
    TruthyIff(Get(d, k));
  }

  lemma ListReadsIff(d: Rec, k: string, ts: seq<string>)
    ensures var v := GetOr(d, k, Arr([]));
            v.Arr? && Texts(v.items) == ts <==> ListReads(Get(d, k), ts)
  {
    TruthyIff(Get(d, k));
    var v := GetOr(d, k, Arr([]));
    if v.Arr? && ListReads(Get(d, k), ts) { assert Texts(v.items) == ts; }
  }

  lemma RepoRelativeIff(path: string)
    ensures RepoRelative(path) <==> StaysInside(path)
  {
    if Contains(path, "../") {
      var i :| 0 <= i <= |path| && "../" <= path[i..];
      assert path[i..][0] == '.' && path[i..][1] == '.' && path[i..][2] == '/';
    }
    if i :| 0 <= i && i + 2 < |path| && path[i] == '.' && path[i + 1] == '.' && path[i + 2] == '/' {
      assert path[i..][..3] == "../";
    }
  }

  // ---------------------------------------------------------------- the parts

  ghost predicate LayerSays(d: Rec, l: Layer)
  {
    && Says(Get(d, "id"), l.id) && Says(Get(d, "path"), l.path) && StaysInside(l.path)
    && Reads(Get(d, "description"), "", l.description)
    && l.frameworkIndependent == Get(d, "framework_independent")
  }

  lemma LayerIff(v: Json, l: Layer)
    ensures LayerFrom(v) == Ok(l) <==> v.Obj? && LayerSays(v.fields, l)
  {
    if v.Obj? {
      var d := v.fields;
      ReadsIff(d, "description", "", l.description);
      RequiredText(Get(d, "id"), ContractError, l.id);
      RequiredText(Get(d, "path"), ContractError, l.path);
      RepoRelativeIff(l.path);
    }
  }

  ghost predicate RuleSays(d: Rec, r: Rule)
  {
    && Says(Get(d, "id"), r.id) && "DEP-" <= r.id && Says(Get(d, "source"), r.source)
    && ListReads(Get(d, "may_depend_on"), r.mayDependOn)
    && Reads(Get(d, "severity"), "block", r.severity) && r.severity in {"block", "warn", "info"}
    && Reads(Get(d, "description"), "", r.description)
  }

  /** What `from_dict` and `__post_init__` ask of a rule together. */
  lemma RuleLoaded(d: Rec, r: Rule)
    ensures RuleFrom(Obj(d)) == Ok(r) <==>
            && (var targets := GetOr(d, "may_depend_on", Arr([]));
                targets.Arr? && Texts(targets.items) == r.mayDependOn)
            && Require(Get(d, "id"), ContractError) == Ok(r.id)
            && Require(Get(d, "source"), ContractError) == Ok(r.source)
            && TextOr(d, "severity", "block") == r.severity && TextOr(d, "description", "") == r.description
            && ValidRule(r)
  {
  }

  lemma RuleValid(r: Rule)
    requires NonBlank(r.id) && NonBlank(r.source)
    ensures ValidRule(r) <==> "DEP-" <= r.id && r.severity in {"block", "warn", "info"}
  {
  }

  lemma RuleIff(v: Json, r: Rule)
    ensures RuleFrom(v) == Ok(r) <==> v.Obj? && RuleSays(v.fields, r)
  {
    if v.Obj? {
      var d := v.fields;
      RuleLoaded(d, r);
      ReadsIff(d, "description", "", r.description);
      ReadsIff(d, "severity", "block", r.severity);
      ListReadsIff(d, "may_depend_on", r.mayDependOn);
      RequiredText(Get(d, "id"), ContractError, r.id);
      RequiredText(Get(d, "source"), ContractError, r.source);
      if NonBlank(r.id) && NonBlank(r.source) { RuleValid(r); }
    }
  }

  ghost predicate ConstraintSays(d: Rec, c: Constraint)
  {
    && Says(Get(d, "id"), c.id) && Says(Get(d, "type"), c.kind)
    && ConstraintKind(c.kind)
    && Reads(Get(d, "severity"), "block", c.severity) && c.severity in {"block", "warn", "info"}
    && Reads(Get(d, "description"), "", c.description)
    && c.pattern == Get(d, "pattern") && ListReads(Get(d, "scope"), c.scope)
    && (if Falsy(Get(d, "params")) then c.params == map[] else Get(d, "params") == Obj(c.params))
    && (c.kind == "forbid_pattern" || c.kind == "require_pattern" ==> !Falsy(c.pattern))
    && (c.kind == "forbid_call" ==> "callee" in c.params && exists t :: Says(c.params["callee"], t))
  }

  lemma CalleeIff(v: Json)
    ensures v.Str? && NonBlank(v.s) <==> exists t :: Says(v, t)
  {
    if v.Str? && NonBlank(v.s) { RequireIff(v, ContractError, Strip(v.s)); }
    if t :| Says(v, t) { RequireIff(v, ContractError, t); }
  }

  lemma ConstraintLoaded(d: Rec, c: Constraint)
    ensures ConstraintFrom(Obj(d)) == Ok(c) <==>
            && (var scope := GetOr(d, "scope", Arr([]));
                scope.Arr? && Texts(scope.items) == c.scope)
            && GetOr(d, "params", Obj(map[])) == Obj(c.params)
            && Require(Get(d, "id"), ContractError) == Ok(c.id)
            && Require(Get(d, "type"), ContractError) == Ok(c.kind)
            && TextOr(d, "severity", "block") == c.severity && TextOr(d, "description", "") == c.description
            && Get(d, "pattern") == c.pattern
            && ValidConstraint(c)
  {
  }

  predicate ConstraintKind(k: string)
  {
    k in {"forbid_pattern", "require_pattern", "forbid_call", "require_auth_on_routes", "no_path_traversal_writes",
          "no_cross_module_db_access", "max_module_fanout", "allowlisted_dependencies_only", "custom"}
  }

  lemma ConstraintValid(c: Constraint)
    requires NonBlank(c.id)
    ensures ValidConstraint(c) <==>
            && ConstraintKind(c.kind) && c.severity in {"block", "warn", "info"}
            && (c.kind == "forbid_pattern" || c.kind == "require_pattern" ==> !Falsy(c.pattern))
            && (c.kind == "forbid_call" ==> "callee" in c.params && exists t :: Says(c.params["callee"], t))
  {
    TruthyIff(c.pattern);
    CalleeIff(Get(c.params, "callee"));
  }

  lemma ConstraintIff(v: Json, c: Constraint)
    ensures ConstraintFrom(v) == Ok(c) <==> v.Obj? && ConstraintSays(v.fields, c)
  {
    if v.Obj? {
      var d := v.fields;
      ConstraintLoaded(d, c);
      ReadsIff(d, "description", "", c.description);
      ReadsIff(d, "severity", "block", c.severity);
      ListReadsIff(d, "scope", c.scope);
      TruthyIff(Get(d, "params"));
      RequiredText(Get(d, "id"), ContractError, c.id);
      RequiredText(Get(d, "type"), ContractError, c.kind);
      if NonBlank(c.id) { ConstraintValid(c); }
    }
  }

  ghost predicate GateSays(d: Rec, g: Gate)
  {
    && Says(Get(d, "id"), g.id) && Says(Get(d, "type"), g.kind)
    && g.kind in {"command", "architecture_tests", "openapi_conformance", "event_schema_conformance",
                  "dependency_rules", "security_scan", "custom"}
    && (g.required <==> "required" !in d || !Falsy(d["required"]))
    && g.command == Get(d, "command") && (g.kind == "command" ==> !Falsy(g.command))
    && g.timeout == Get(d, "timeout_seconds") && (g.timeout.Null? || g.timeout.Int? || g.timeout.Bool?)
    && Reads(Get(d, "description"), "", g.description)
  }

  lemma GateLoaded(d: Rec, g: Gate)
    ensures GateFrom(Obj(d)) == Ok(g) <==>
            && IsTimeout(g.timeout) && g.timeout == Get(d, "timeout_seconds")
            && Require(Get(d, "id"), ContractError) == Ok(g.id)
            && Require(Get(d, "type"), ContractError) == Ok(g.kind)
            && g.required == (if "required" in d then Truthy(d["required"]) else true)
            && g.command == Get(d, "command") && TextOr(d, "description", "") == g.description
            && ValidGate(g)
  {
  }

  lemma GateIff(v: Json, g: Gate)
    ensures GateFrom(v) == Ok(g) <==> v.Obj? && GateSays(v.fields, g)
  {
    if v.Obj? {
      var d := v.fields;
      GateLoaded(d, g);
      ReadsIff(d, "description", "", g.description);
      TruthyIff(Get(d, "required"));
      TruthyIff(g.command);
      RequiredText(Get(d, "id"), ContractError, g.id);
      RequiredText(Get(d, "type"), ContractError, g.kind);
    }
  }

  /** Text items: a list gives the text of its elements, a string its characters, an object its keys. */
  predicate ItemsRead(v: Json, ts: seq<string>)
  {
    if v.Str? then |ts| == |v.s| && forall i :: 0 <= i < |ts| ==> ts[i] == [v.s[i]]
    else if v.Obj? then ts == SortedKeys(v.fields.Keys)
    else ListReads(v, ts)
  }

  lemma ItemsIff(v: Json, ts: seq<string>)
    ensures TextItems(v) == Ok(ts) <==> ItemsRead(v, ts)
  {
    TruthyIff(v);
    match v
    case Str(s) => if ItemsRead(v, ts) { assert ts == seq(|s|, i requires 0 <= i < |s| => [s[i]]); }
    case Arr(items) => if ItemsRead(v, ts) { assert ts == Texts(items); }
    case Obj(fields) => if fields == map[] { assert SortedKeys(fields.Keys) == []; }
    case _ =>
  }

  ghost predicate DecisionSays(d: Rec, r: Decision)
  {
    && Says(Get(d, "id"), r.id) && Says(Get(d, "decision"), r.decision) && Says(Get(d, "rationale"), r.rationale)
    && ItemsRead(Get(d, "constraints"), r.constraints) && ItemsRead(Get(d, "requirement_ids"), r.requirementIds)
  }

  lemma DecisionIff(v: Json, r: Decision)
    ensures DecisionFrom(v) == Ok(r) <==> v.Obj? && DecisionSays(v.fields, r)
  {
    if v.Obj? {
      var d := v.fields;
      RequiredText(Get(d, "id"), ContractError, r.id);
      RequiredText(Get(d, "decision"), ContractError, r.decision);
      RequiredText(Get(d, "rationale"), ContractError, r.rationale);
      ItemsIff(Get(d, "constraints"), r.constraints);
      ItemsIff(Get(d, "requirement_ids"), r.requirementIds);
    }
  }

  ghost predicate TraceSays(d: Rec, t: Trace)
  {
    && Says(Get(d, "source_id"), t.sourceId) && Says(Get(d, "target_id"), t.targetId)
    && Says(Get(d, "relation"), t.relation)
    && t.relation in {"implements", "constrains", "satisfies", "derived_from", "verifies"}
  }

  lemma TraceLoaded(d: Rec, t: Trace)
    ensures TraceFrom(Obj(d)) == Ok(t) <==>
            && Require(Get(d, "source_id"), ContractError) == Ok(t.sourceId)
            && Require(Get(d, "target_id"), ContractError) == Ok(t.targetId)
            && Require(Get(d, "relation"), ContractError) == Ok(t.relation)
            && ValidTrace(t)
  {
  }

  lemma TraceIff(v: Json, t: Trace)
    ensures TraceFrom(v) == Ok(t) <==> v.Obj? && TraceSays(v.fields, t)
  {
    if v.Obj? {
      var d := v.fields;
      TraceLoaded(d, t);
      RequiredText(Get(d, "source_id"), ContractError, t.sourceId);
      RequiredText(Get(d, "target_id"), ContractError, t.targetId);
      RequireIff(Get(d, "relation"), ContractError, t.relation);
    }
  }

  /** A falsy timestamp is none; any other must parse. */
  predicate TimeReads(env: Env, v: Json, t: Option<Time>)
  {
    if Falsy(v) then t == None else t.Some? && env.parseIso(PyStr(v)) == t
  }

  lemma TimeIff(env: Env, v: Json, t: Option<Time>)
    ensures TimeFrom(env, v) == Ok(t) <==> TimeReads(env, v, t)
  {
    TruthyIff(v);
  }

  ghost predicate WaiverSays(env: Env, d: Rec, w: Waiver)
  {
    && Says(Get(d, "id"), w.id) && "EXC-" <= w.id
    && Says(Get(d, "rule_id"), w.ruleId) && Says(Get(d, "path"), w.path) && StaysInside(w.path)
    && Says(Get(d, "reason"), w.reason) && Says(Get(d, "approved_by"), w.approvedBy)
    && TimeReads(env, Get(d, "expires_at"), w.expiresAt) && (w.expiresAt.Some? ==> w.expiresAt.value.aware)
  }

  lemma WaiverIff(env: Env, v: Json, w: Waiver)
    ensures WaiverFrom(env, v) == Ok(w) <==> v.Obj? && WaiverSays(env, v.fields, w)
  {
    if v.Obj? {
      var d := v.fields;
      TimeIff(env, Get(d, "expires_at"), w.expiresAt);
      RequiredText(Get(d, "id"), ExceptionError, w.id);
      RequiredText(Get(d, "rule_id"), ExceptionError, w.ruleId);
      RequiredText(Get(d, "path"), ExceptionError, w.path);
      RequiredText(Get(d, "reason"), ExceptionError, w.reason);
      RequiredText(Get(d, "approved_by"), ExceptionError, w.approvedBy);
      RepoRelativeIff(w.path);
    }
  }

  ghost predicate ApprovalSays(env: Env, d: Rec, a: Approval)
  {
    && Says(Get(d, "status"), a.status) && a.status in {"pending", "approved", "rejected"}
    && a.contractId == Get(d, "contract_id") && a.version == Get(d, "version")
    && a.contentFingerprint == Get(d, "content_fingerprint") && a.approverId == Get(d, "approver_id")
    && TimeReads(env, Get(d, "approved_at"), a.approvedAt) && a.validationResult == Get(d, "validation_result")
    && (a.status == "approved" ==>
          !Falsy(a.approverId) && a.approvedAt.Some? && !Falsy(a.contentFingerprint))
  }

  lemma ApprovalIff(env: Env, v: Json, a: Approval)
    ensures ApprovalFrom(env, v) == Ok(a) <==> v.Obj? && ApprovalSays(env, v.fields, a)
  {
    if v.Obj? {
      var d := v.fields;
      TimeIff(env, Get(d, "approved_at"), a.approvedAt);
      RequireIff(Get(d, "status"), ContractError, a.status);
      TruthyIff(a.approverId);
      TruthyIff(a.contentFingerprint);
    }
  }

  // ---------------------------------------------------------------- lists of parts

  /** The entry lists one object per part, in order; an absent or falsy entry lists none. */
  ghost predicate Lists<T>(v: Json, says: (Rec, T) -> bool, xs: seq<T>)
  {
    if Falsy(v) then xs == []
    else v.Arr? && |xs| == |v.items| && forall i :: 0 <= i < |xs| ==> v.items[i].Obj? && says(v.items[i].fields, xs[i])
  }

  lemma {:induction false} LoadItemsIff<T>(items: seq<Json>, f: Json -> Result<T, Error>, xs: seq<T>)
    ensures LoadItems(items, f) == Ok(xs) <==>
            |xs| == |items| && forall i :: 0 <= i < |items| ==> f(items[i]) == Ok(xs[i])
  {
    if items != [] {
      var head, tail := f(items[0]), LoadItems(items[1..], f);
      if xs != [] {
        LoadItemsIff(items[1..], f, xs[1..]);
        assert xs == [xs[0]] + xs[1..];
        assert forall i :: 0 < i < |items| ==> items[i] == items[1..][i - 1];
        if LoadItems(items, f) == Ok(xs) {
          assert ([head.value] + tail.value)[1..] == tail.value;
          assert forall i :: 0 < i < |xs| ==> xs[i] == xs[1..][i - 1];
        }
      }
    }
  }

  lemma ListsIff<T>(v: Json, f: Json -> Result<T, Error>, says: (Rec, T) -> bool, xs: seq<T>)
    requires forall e, x :: f(e) == Ok(x) <==> e.Obj? && says(e.fields, x)
    ensures LoadAll(v, f) == Ok(xs) <==> Lists(v, says, xs)
  {
    TruthyIff(v);
    if v.Arr? { LoadItemsIff(v.items, f, xs); }
  }

  ghost function WaiverReading(env: Env): (Rec, Waiver) -> bool { (d: Rec, w: Waiver) => WaiverSays(env, d, w) }

  /** An absent approval is a pending one with no other field. */
  ghost predicate ApprovalReads(env: Env, v: Json, a: Approval)
  {
    if Falsy(v) then a == Approval("pending", Null, Null, Null, Null, None, Null)
    else v.Obj? && ApprovalSays(env, v.fields, a)
  }

  ghost predicate PartsSay(env: Env, d: Rec, p: Parts)
  {
    && Lists(Get(d, "layers"), LayerSays, p.layers)
    && Lists(Get(d, "dependency_rules"), RuleSays, p.rules)
    && Lists(Get(d, "constraints"), ConstraintSays, p.constraints)
    && Lists(Get(d, "quality_gates"), GateSays, p.gates)
    && Lists(Get(d, "decisions"), DecisionSays, p.decisions)
    && Lists(Get(d, "traceability"), TraceSays, p.traces)
    && Lists(Get(d, "exceptions"), WaiverReading(env), p.waivers)
    && ItemsRead(Get(d, "technology_constraints"), p.technology)
    && ApprovalReads(env, Get(d, "approval"), p.approval)
  }

  lemma PendingText()
    ensures Require(Str("pending"), ContractError) == Ok("pending")
  {
    assert Trimmed("pending");
    StripFacts("pending");
  }

  lemma DefaultApproval(env: Env, a: Approval)
    ensures ApprovalFrom(env, Obj(map["status" := Str("pending")])) == Ok(a) <==>
            a == Approval("pending", Null, Null, Null, Null, None, Null)
  {
    PendingText();
  }

  lemma ApprovalReadsIff(env: Env, d: Rec, a: Approval)
    ensures ApprovalFrom(env, GetOr(d, "approval", Obj(map["status" := Str("pending")]))) == Ok(a) <==>
            ApprovalReads(env, Get(d, "approval"), a)
  {
    var v := Get(d, "approval");
    TruthyIff(v);
    if Falsy(v) { DefaultApproval(env, a); } else { ApprovalIff(env, v, a); }
  }

  ghost predicate EveryPartLoads(env: Env, d: Rec, p: Parts)
  {
    && LoadAll(Get(d, "layers"), LayerFrom) == Ok(p.layers)
    && LoadAll(Get(d, "dependency_rules"), RuleFrom) == Ok(p.rules)
    && LoadAll(Get(d, "constraints"), ConstraintFrom) == Ok(p.constraints)
    && LoadAll(Get(d, "quality_gates"), GateFrom) == Ok(p.gates)
    && LoadAll(Get(d, "decisions"), DecisionFrom) == Ok(p.decisions)
    && LoadAll(Get(d, "traceability"), TraceFrom) == Ok(p.traces)
    && LoadAll(Get(d, "exceptions"), WaiverLoader(env)) == Ok(p.waivers)
    && TextItems(Get(d, "technology_constraints")) == Ok(p.technology)
    && ApprovalFrom(env, GetOr(d, "approval", Obj(map["status" := Str("pending")]))) == Ok(p.approval)
  }

  lemma LoadedEveryPart(env: Env, d: Rec, p: Parts)
    requires PartsFrom(env, d) == Ok(p)
    ensures EveryPartLoads(env, d, p)
  {
  }

  lemma PartsLoaded(env: Env, d: Rec, p: Parts)
    ensures PartsFrom(env, d) == Ok(p) <==> EveryPartLoads(env, d, p)
  {
    if PartsFrom(env, d) == Ok(p) { LoadedEveryPart(env, d, p); }
  }

  lemma StructureIff(d: Rec, p: Parts)
    ensures LoadAll(Get(d, "layers"), LayerFrom) == Ok(p.layers) <==> Lists(Get(d, "layers"), LayerSays, p.layers)
    ensures LoadAll(Get(d, "dependency_rules"), RuleFrom) == Ok(p.rules) <==>
            Lists(Get(d, "dependency_rules"), RuleSays, p.rules)
    ensures LoadAll(Get(d, "constraints"), ConstraintFrom) == Ok(p.constraints) <==>
            Lists(Get(d, "constraints"), ConstraintSays, p.constraints)
    ensures LoadAll(Get(d, "quality_gates"), GateFrom) == Ok(p.gates) <==>
            Lists(Get(d, "quality_gates"), GateSays, p.gates)
  {
    forall e, x ensures LayerFrom(e) == Ok(x) <==> e.Obj? && LayerSays(e.fields, x) { LayerIff(e, x); }
    forall e, x ensures RuleFrom(e) == Ok(x) <==> e.Obj? && RuleSays(e.fields, x) { RuleIff(e, x); }
    forall e, x ensures ConstraintFrom(e) == Ok(x) <==> e.Obj? && ConstraintSays(e.fields, x) { ConstraintIff(e, x); }
    forall e, x ensures GateFrom(e) == Ok(x) <==> e.Obj? && GateSays(e.fields, x) { GateIff(e, x); }
    ListsIff(Get(d, "layers"), LayerFrom, LayerSays, p.layers);
    ListsIff(Get(d, "dependency_rules"), RuleFrom, RuleSays, p.rules);
    ListsIff(Get(d, "constraints"), ConstraintFrom, ConstraintSays, p.constraints);
    ListsIff(Get(d, "quality_gates"), GateFrom, GateSays, p.gates);
  }

  lemma RecordsIff(env: Env, d: Rec, p: Parts)
    ensures LoadAll(Get(d, "decisions"), DecisionFrom) == Ok(p.decisions) <==>
            Lists(Get(d, "decisions"), DecisionSays, p.decisions)
    ensures LoadAll(Get(d, "traceability"), TraceFrom) == Ok(p.traces) <==>
            Lists(Get(d, "traceability"), TraceSays, p.traces)
    ensures LoadAll(Get(d, "exceptions"), WaiverLoader(env)) == Ok(p.waivers) <==>
            Lists(Get(d, "exceptions"), WaiverReading(env), p.waivers)
  {
    forall e, x ensures DecisionFrom(e) == Ok(x) <==> e.Obj? && DecisionSays(e.fields, x) { DecisionIff(e, x); }
    forall e, x ensures TraceFrom(e) == Ok(x) <==> e.Obj? && TraceSays(e.fields, x) { TraceIff(e, x); }
    forall e, x ensures WaiverLoader(env)(e) == Ok(x) <==> e.Obj? && WaiverReading(env)(e.fields, x) {
      WaiverIff(env, e, x);
    }
    ListsIff(Get(d, "decisions"), DecisionFrom, DecisionSays, p.decisions);
    ListsIff(Get(d, "traceability"), TraceFrom, TraceSays, p.traces);
    ListsIff(Get(d, "exceptions"), WaiverLoader(env), WaiverReading(env), p.waivers);
  }

  lemma PartsIff(env: Env, d: Rec, p: Parts)
    ensures PartsFrom(env, d) == Ok(p) <==> PartsSay(env, d, p)
  {
    PartsLoaded(env, d, p);
    StructureIff(d, p);
    RecordsIff(env, d, p);
    ItemsIff(Get(d, "technology_constraints"), p.technology);
    ApprovalReadsIff(env, d, p.approval);
  }

  // ---------------------------------------------------------------- the whole contract

  ghost predicate HeaderSays(d: Rec, project: Rec, c: Contract)
  {
    && Reads(Get(d, "schema_version"), "", c.schemaVersion)
    && Says(Get(d, "contract_id"), c.contractId) && Says(Get(d, "version"), c.version)
    && Says(Get(d, "status"), c.status) && Says(Get(d, "style"), c.style)
    && Says(Get(project, "name"), c.projectName)
    && c.language == Get(project, "language") && c.runtime == Get(project, "runtime")
  }

  /** No two layers, no two rules and no two exceptions share an id. */
  predicate IdsDiffer(c: Contract)
  {
    && (forall i, j :: 0 <= i < |c.layers| && 0 <= j < |c.layers| && c.layers[i].id == c.layers[j].id ==> i == j)
    && (forall i, j :: 0 <= i < |c.rules| && 0 <= j < |c.rules| && c.rules[i].id == c.rules[j].id ==> i == j)
    && (forall i, j :: 0 <= i < |c.waivers| && 0 <= j < |c.waivers| && c.waivers[i].id == c.waivers[j].id ==> i == j)
  }

  predicate NamesLayer(c: Contract, id: string) { exists l :: l in c.layers && l.id == id }

  predicate RuleNames(c: Contract, r: Rule)
  {
    NamesLayer(c, r.source) && forall t :: t in r.mayDependOn ==> NamesLayer(c, t)
  }

  /** The source and every target of every rule is the id of some layer. */
  predicate RulesNameLayers(c: Contract) { forall i :: 0 <= i < |c.rules| ==> RuleNames(c, c.rules[i]) }

  lemma NamesLayerIff(c: Contract, id: string)
    ensures KnownLayer(c, id) <==> NamesLayer(c, id)
  {
    if l :| l in c.layers && l.id == id {
      var i :| 0 <= i < |c.layers| && c.layers[i] == l;
    }
  }

  lemma RuleNamesIff(c: Contract, r: Rule)
    ensures KnownLayer(c, r.source) && (forall j :: 0 <= j < |r.mayDependOn| ==> KnownLayer(c, r.mayDependOn[j])) <==>
            RuleNames(c, r)
  {
    forall id ensures KnownLayer(c, id) <==> NamesLayer(c, id) { NamesLayerIff(c, id); }
  }

  lemma ReferencesIff(c: Contract)
    ensures UniqueIds(c) <==> IdsDiffer(c)
    ensures LayersKnown(c) <==> RulesNameLayers(c)
  {
    forall i | 0 <= i < |c.rules|
      ensures KnownLayer(c, c.rules[i].source)
              && (forall j :: 0 <= j < |c.rules[i].mayDependOn| ==> KnownLayer(c, c.rules[i].mayDependOn[j])) <==>
              RuleNames(c, c.rules[i])
    {
      RuleNamesIff(c, c.rules[i]);
    }
  }

  /** The invariants of a contract on its own fields, vocabularies spelled out. */
  ghost predicate Sound(env: Env, c: Contract)
  {
    && c.schemaVersion == "1.0"
    && c.status in {"draft", "review", "approved", "superseded", "rejected"}
    && c.style in {"hexagonal", "clean", "modular_monolith", "microservices", "layered", "other"}
    && (c.language == Null ||
        c.language in {Str("python"), Str("typescript"), Str("go"), Str("java"), Str("csharp"), Str("other")})
    && c.layers != [] && c.rules != [] && c.gates != [] && IdsDiffer(c) && RulesNameLayers(c)
    && (c.status == "approved" ==>
          c.approval.status == "approved" && c.approval.contentFingerprint == Str(Fingerprint(env, c)))
  }

  lemma LanguageIff(v: Json)
    ensures v.Null? || (v.Str? && v.s in LANGUAGES) <==>
            v == Null || v in {Str("python"), Str("typescript"), Str("go"), Str("java"), Str("csharp"), Str("other")}
  {
  }

  lemma SoundIff(env: Env, c: Contract)
    requires ValidParts(c) && NonBlank(c.contractId) && NonBlank(c.version) && NonBlank(c.projectName)
    ensures ValidContract(env, c) <==> Sound(env, c)
  {
    LanguageIff(c.language);
    ReferencesIff(c);
  }

  lemma LoadedAreOk<T>(v: Json, f: Json -> Result<T, Error>, ok: T -> bool, xs: seq<T>)
    requires LoadAll(v, f) == Ok(xs) && forall e, x :: f(e) == Ok(x) ==> ok(x)
    ensures AllOk(xs, ok)
  {
    if Truthy(v) { LoadItemsIff(v.items, f, xs); }
  }

  lemma LoadedStructureIsValid(d: Rec, p: Parts)
    requires LoadAll(Get(d, "layers"), LayerFrom) == Ok(p.layers)
    requires LoadAll(Get(d, "dependency_rules"), RuleFrom) == Ok(p.rules)
    requires LoadAll(Get(d, "constraints"), ConstraintFrom) == Ok(p.constraints)
    requires LoadAll(Get(d, "quality_gates"), GateFrom) == Ok(p.gates)
    ensures AllOk(p.layers, ValidLayer) && AllOk(p.rules, ValidRule)
    ensures AllOk(p.constraints, ValidConstraint) && AllOk(p.gates, ValidGate)
  {
    LoadedAreOk(Get(d, "layers"), LayerFrom, ValidLayer, p.layers);
    LoadedAreOk(Get(d, "dependency_rules"), RuleFrom, ValidRule, p.rules);
    LoadedAreOk(Get(d, "constraints"), ConstraintFrom, ValidConstraint, p.constraints);
    LoadedAreOk(Get(d, "quality_gates"), GateFrom, ValidGate, p.gates);
  }

  lemma LoadedRecordsAreValid(env: Env, d: Rec, p: Parts)
    requires LoadAll(Get(d, "decisions"), DecisionFrom) == Ok(p.decisions)
    requires LoadAll(Get(d, "traceability"), TraceFrom) == Ok(p.traces)
    requires LoadAll(Get(d, "exceptions"), WaiverLoader(env)) == Ok(p.waivers)
    ensures AllOk(p.decisions, ValidDecision) && AllOk(p.traces, ValidTrace) && AllOk(p.waivers, ValidWaiver)
  {
    LoadedAreOk(Get(d, "decisions"), DecisionFrom, ValidDecision, p.decisions);
    LoadedAreOk(Get(d, "traceability"), TraceFrom, ValidTrace, p.traces);
    LoadedAreOk(Get(d, "exceptions"), WaiverLoader(env), ValidWaiver, p.waivers);
  }

  lemma LoadedApprovalIsValid(env: Env, v: Json)
    ensures ApprovalFrom(env, v).Ok? ==> ValidApproval(ApprovalFrom(env, v).value)
  {
  }

  lemma LoadedPartsAreValid(env: Env, d: Rec, c: Contract)
    requires PartsFrom(env, d) == Ok(PartsOf(c))
    ensures ValidParts(c)
  {
    PartsLoaded(env, d, PartsOf(c));
    LoadedStructureIsValid(d, PartsOf(c));
    LoadedRecordsAreValid(env, d, PartsOf(c));
    LoadedApprovalIsValid(env, GetOr(d, "approval", Obj(map["status" := Str("pending")])));
  }

  lemma HeaderIff(d: Rec, project: Rec, c: Contract)
    ensures HeaderSays(d, project, c) <==>
            && TextOr(d, "schema_version", "") == c.schemaVersion
            && Require(Get(d, "contract_id"), ContractError) == Ok(c.contractId)
            && Require(Get(d, "version"), ContractError) == Ok(c.version)
            && Require(Get(d, "status"), ContractError) == Ok(c.status)
            && Require(Get(project, "name"), ContractError) == Ok(c.projectName)
            && Require(Get(d, "style"), ContractError) == Ok(c.style)
            && c.language == Get(project, "language") && c.runtime == Get(project, "runtime")
    ensures HeaderSays(d, project, c) ==> NonBlank(c.contractId) && NonBlank(c.version) && NonBlank(c.projectName)
  {
    ReadsIff(d, "schema_version", "", c.schemaVersion);
    RequiredText(Get(d, "contract_id"), ContractError, c.contractId);
    RequiredText(Get(d, "version"), ContractError, c.version);
    RequiredText(Get(d, "status"), ContractError, c.status);
    RequiredText(Get(project, "name"), ContractError, c.projectName);
    RequiredText(Get(d, "style"), ContractError, c.style);
  }

  lemma ContractLoaded(env: Env, d: Rec, c: Contract)
    ensures FromDict(env, d) == Ok(c) <==>
            var project := GetOr(d, "project", Obj(map[]));
            && project.Obj? && PartsFrom(env, d) == Ok(PartsOf(c))
            && TextOr(d, "schema_version", "") == c.schemaVersion
            && Require(Get(d, "contract_id"), ContractError) == Ok(c.contractId)
            && Require(Get(d, "version"), ContractError) == Ok(c.version)
            && Require(Get(d, "status"), ContractError) == Ok(c.status)
            && Require(Get(project.fields, "name"), ContractError) == Ok(c.projectName)
            && Require(Get(d, "style"), ContractError) == Ok(c.style)
            && c.language == Get(project.fields, "language") && c.runtime == Get(project.fields, "runtime")
            && ValidContract(env, c)
  {
  }

  /** A dictionary loads exactly when its entries say a sound contract, and loads as that contract. */
  lemma ContractIff(env: Env, d: Rec, c: Contract)
    ensures FromDict(env, d) == Ok(c) <==>
            && (Falsy(Get(d, "project")) || Get(d, "project").Obj?)
            && HeaderSays(d, if Get(d, "project").Obj? then Get(d, "project").fields else map[], c)
            && PartsSay(env, d, PartsOf(c)) && Sound(env, c)
  {
    var v := Get(d, "project");
    TruthyIff(v);
    ContractLoaded(env, d, c);
    PartsIff(env, d, PartsOf(c));
    HeaderIff(d, if v.Obj? then v.fields else map[], c);
    if PartsFrom(env, d) == Ok(PartsOf(c)) { LoadedPartsAreValid(env, d, c); }
    if ValidParts(c) && NonBlank(c.contractId) && NonBlank(c.version) && NonBlank(c.projectName) { SoundIff(env, c); }
  }
}
