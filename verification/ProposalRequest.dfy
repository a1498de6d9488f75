/** The request that asks for an implementation proposal, and its revalidation from its own fields. */
module ProposalRequest {
  import opened Collections
  import opened PyText
  import opened CanonicalJson
  import opened PyValues
  import opened ProposalScope

  datatype Refusal = Refused(what: string)

  /** What the revalidated onboarding, audit and plan chain contributes to the request. */
  datatype Upstream = Upstream(organizationId: string, repository: string, provenance: Json, requirements: Json)

  const MAX_INSTRUCTION_CHARS := 8000

  function CanonicalInstruction(s: string): Result<string, Refusal>
  {
    var t := Strip(s);
    if t == "" || |t| > MAX_INSTRUCTION_CHARS then Err(Refused("instruction")) else Ok(t)
  }

  /** The proposal side strips required text; the apply side demands that it is stripped already. */
  function StrippedText(d: Rec, key: string): Result<string, Refusal>
  {
    var v := Get(d, key);
    if v.Str? && Strip(v.s) != "" then Ok(Strip(v.s)) else Err(Refused(key))
  }

  function RequiredText(d: Rec, key: string): Result<string, Refusal>
  {
    var v := Get(d, key);
    if v.Str? && Strip(v.s) != "" && v.s == Strip(v.s) then Ok(v.s) else Err(Refused(key))
  }

  function PlanContext(plan: Rec): Result<Rec, Refusal>
  {
    var id :- StrippedText(plan, "plan_id");
    var fingerprint :- StrippedText(plan, "request_fingerprint");
    var action :- StrippedText(plan, "action");
    var resource :- StrippedText(plan, "resource");
    var steps := if "steps" in plan then plan["steps"] else Arr([]);
    var rationale := Get(plan, "rationale");
    if !steps.Arr? then Err(Refused("steps"))
    else Ok(map[
      "plan_id" := Str(id), "request_fingerprint" := Str(fingerprint), "action" := Str(action),
      "resource" := Str(resource), "steps" := Arr(Strs(Texts(steps.items))),
      "rationale" := Str(if Truthy(rationale) then PyStr(rationale) else ""),
      "confidence" := Get(plan, "confidence")])
  }

  function ContextItem(key: string, value: Json, provenance: string): Json
  {
    Obj(map[
      "source" := Str("dor.project_planning"), "key" := Str(key), "value" := value,
      "relevance" := Int(1), "provenance" := Str(provenance), "sensitivity" := Str("normal")])
  }

  function ContextItems(up: Upstream, plan: Rec, planId: string): seq<Json>
  {
    var provenance := "plan:" + planId;
    [ContextItem("planning_provenance", up.provenance, provenance),
     ContextItem("requirements", up.requirements, provenance),
     ContextItem("plan_proposal", Obj(plan), provenance)]
  }

  function Payload(up: Upstream, commandId: string, instruction: string, scope: Scope, items: seq<Json>): Rec
  {
    map[
      "organization_id" := Str(up.organizationId),
      "command_id" := Str(commandId),
      "resource" := Str(up.repository),
      "instruction" := Str(instruction),
      "allowed_paths" := Arr(Strs(scope.allowedPaths)),
      "max_files" := Int(scope.maxFiles),
      "max_changed_lines" := Int(scope.maxChangedLines),
      "context_items" := Arr(items)]
  }

  /** `build_proposal_payload`, after the upstream chain has been restored. */
  function BuildPayload(up: Upstream, plan: Rec, instruction: string, scope: Scope, commandId: string): Result<Rec, Refusal>
  {
    var canonical :- CanonicalInstruction(instruction);
    if commandId == "" || commandId != Strip(commandId) then Err(Refused("command_id"))
    else
      var context :- PlanContext(plan);
      var id :- StrippedText(plan, "plan_id");
      Ok(Payload(up, commandId, canonical, scope, ContextItems(up, context, id)))
  }

  function ScopeFromRequest(request: Rec): Result<Scope, Refusal>
  {
    var paths := Get(request, "allowed_paths");
    if !paths.Arr? then Err(Refused("allowed_paths"))
    else match MakeScope(Texts(paths.items), Get(request, "max_files"), Get(request, "max_changed_lines"))
      case Ok(scope) => Ok(scope)
      case Err(_) => Err(Refused("scope"))
  }

  datatype Restored = Restored(scope: Scope, commandId: string)

  /** The request part of `restore_apply_provenance`: rebuild the request from its own fields and compare. */
  function RestoreRequest(up: Upstream, plan: Rec, request: Rec): Result<Restored, Refusal>
  {
    var scope :- ScopeFromRequest(request);
    var commandId :- RequiredText(request, "command_id");
    var instruction :- RequiredText(request, "instruction");
    var expected :- BuildPayload(up, plan, instruction, scope, commandId);
    if request != expected then Err(Refused("request"))
    else if Get(request, "organization_id") != Str(up.organizationId) then Err(Refused("organization_id"))
    else if Get(request, "resource") != Str(up.repository) then Err(Refused("resource"))
    else Ok(Restored(scope, commandId))
  }

  // ---------------------------------------------------------------- the fixed point

  lemma PayloadTexts(up: Upstream, commandId: string, instruction: string, scope: Scope, items: seq<Json>)
    ensures var p := Payload(up, commandId, instruction, scope, items);
            && Get(p, "organization_id") == Str(up.organizationId) && Get(p, "command_id") == Str(commandId)
            && Get(p, "resource") == Str(up.repository) && Get(p, "instruction") == Str(instruction)
  {
  }

  lemma PayloadScope(up: Upstream, commandId: string, instruction: string, scope: Scope, items: seq<Json>)
    ensures var p := Payload(up, commandId, instruction, scope, items);
            && Get(p, "allowed_paths") == Arr(Strs(scope.allowedPaths))
            && Get(p, "max_files") == Int(scope.maxFiles) && Get(p, "max_changed_lines") == Int(scope.maxChangedLines)
            && "project_id" !in p
  {
  }

  lemma ScopeReloads(up: Upstream, commandId: string, instruction: string, scope: Scope, items: seq<Json>)
    requires ValidScope(scope)
    ensures ScopeFromRequest(Payload(up, commandId, instruction, scope, items)) == Ok(scope)
  {
    PayloadScope(up, commandId, instruction, scope, items);
    TextsOfStrs(scope.allowedPaths);
    ScopeIsFixedPoint(scope);
  }

  /** What a successful build amounts to. */
  lemma BuildShape(up: Upstream, plan: Rec, instruction: string, scope: Scope, commandId: string)
    ensures BuildPayload(up, plan, instruction, scope, commandId).Ok? ==>
            && commandId != "" && Strip(commandId) == commandId
            && Strip(instruction) != ""
            && PlanContext(plan).Ok? && StrippedText(plan, "plan_id").Ok?
            && BuildPayload(up, plan, instruction, scope, commandId).value ==
               Payload(up, commandId, Strip(instruction), scope,
                 ContextItems(up, PlanContext(plan).value, StrippedText(plan, "plan_id").value))
    ensures BuildPayload(up, plan, Strip(instruction), scope, commandId) == BuildPayload(up, plan, instruction, scope, commandId)
  {
    StripFacts(instruction);
  }

  /** An emitted request restores to its own scope and command, and rebuilds to itself. */
  lemma RequestIsFixedPoint(up: Upstream, plan: Rec, instruction: string, scope: Scope, commandId: string)
    requires ValidScope(scope) && BuildPayload(up, plan, instruction, scope, commandId).Ok?
    ensures var p := BuildPayload(up, plan, instruction, scope, commandId).value;
            && ScopeFromRequest(p) == Ok(scope)
            && RequiredText(p, "instruction") == Ok(Strip(instruction))
            && BuildPayload(up, plan, Strip(instruction), scope, commandId) == Ok(p)
            && RestoreRequest(up, plan, p) == Ok(Restored(scope, commandId))
  {
    BuildShape(up, plan, instruction, scope, commandId);
    StripFacts(instruction);
    var items := ContextItems(up, PlanContext(plan).value, StrippedText(plan, "plan_id").value);
    ScopeReloads(up, commandId, Strip(instruction), scope, items);
    PayloadTexts(up, commandId, Strip(instruction), scope, items);
  }

  /** Restoring accepts exactly the requests that could have been emitted for this upstream chain. */
  lemma RequestAcceptedIff(up: Upstream, plan: Rec, request: Rec)
    ensures RestoreRequest(up, plan, request).Ok? <==>
            exists instruction, scope, commandId ::
              ValidScope(scope) && BuildPayload(up, plan, instruction, scope, commandId) == Ok(request)
  {
    if RestoreRequest(up, plan, request).Ok? {
      var scope := ScopeFromRequest(request).value;
      var instruction := RequiredText(request, "instruction").value;
      var commandId := RequiredText(request, "command_id").value;
      MadeScopesAreValid(Texts(Get(request, "allowed_paths").items), Get(request, "max_files"), Get(request, "max_changed_lines"));
      assert BuildPayload(up, plan, instruction, scope, commandId) == Ok(request);
    }
    forall instruction, scope, commandId |
      ValidScope(scope) && BuildPayload(up, plan, instruction, scope, commandId) == Ok(request)
      ensures RestoreRequest(up, plan, request).Ok?
    {
      RequestIsFixedPoint(up, plan, instruction, scope, commandId);
    }
  }

  /** The case page adds two keys to an emitted request, which restoring then refuses. */
  lemma CaseRequestIsRefused(up: Upstream, plan: Rec, request: Rec, projectId: string, fingerprint: string)
    requires RestoreRequest(up, plan, request).Ok?
    ensures RestoreRequest(up, plan, request["project_id" := Str(projectId)]["plan_request_fingerprint" := Str(fingerprint)]).Err?
  {
    var extended := request["project_id" := Str(projectId)]["plan_request_fingerprint" := Str(fingerprint)];
    assert "project_id" in extended;
    if RestoreRequest(up, plan, extended).Ok? {
      var scope := ScopeFromRequest(extended).value;
      var instruction := RequiredText(extended, "instruction").value;
      var commandId := RequiredText(extended, "command_id").value;
      BuildShape(up, plan, instruction, scope, commandId);
      var items := ContextItems(up, PlanContext(plan).value, StrippedText(plan, "plan_id").value);
      PayloadScope(up, commandId, Strip(instruction), scope, items);
    }
  }

  // ---------------------------------------------------------------- what a request says

  predicate PlanWord(plan: Rec, key: string) { Get(plan, key).Str? && !Blank(Get(plan, key).s) }

  /** A request is built exactly for a non-blank instruction of at most 8000 characters, a canonical command id and a complete plan. */
  lemma BuiltIff(up: Upstream, plan: Rec, instruction: string, scope: Scope, commandId: string)
    ensures BuildPayload(up, plan, instruction, scope, commandId).Ok? <==>
            && !Blank(instruction) && |Strip(instruction)| <= 8000
            && commandId != "" && Trimmed(commandId)
            && PlanWord(plan, "plan_id") && PlanWord(plan, "request_fingerprint") && PlanWord(plan, "action") && PlanWord(plan, "resource")
            && ("steps" in plan ==> plan["steps"].Arr?)
  {
    StripFacts(instruction);
    StripFacts(commandId);
    ContextIff(plan);
    PlanWordIff(plan, "plan_id");
  }

  lemma PlanWordIff(plan: Rec, key: string)
    ensures StrippedText(plan, key).Ok? <==> PlanWord(plan, key)
    ensures StrippedText(plan, key).Ok? ==> StrippedText(plan, key).value == Strip(Get(plan, key).s)
  {
    if Get(plan, key).Str? { StripFacts(Get(plan, key).s); }
  }

  lemma ContextIff(plan: Rec)
    ensures PlanContext(plan).Ok? <==>
            && PlanWord(plan, "plan_id") && PlanWord(plan, "request_fingerprint") && PlanWord(plan, "action") && PlanWord(plan, "resource")
            && ("steps" in plan ==> plan["steps"].Arr?)
  {
    PlanWordIff(plan, "plan_id");
    PlanWordIff(plan, "request_fingerprint");
    PlanWordIff(plan, "action");
    PlanWordIff(plan, "resource");
  }

  /** The plan's own fields, stripped or turned into text, in the request's context. */
  lemma ContextSays(plan: Rec)
    requires PlanContext(plan).Ok?
    ensures var d := PlanContext(plan).value;
            && Get(plan, "plan_id").Str? && Get(d, "plan_id") == Str(Strip(Get(plan, "plan_id").s))
            && Get(plan, "request_fingerprint").Str? && Get(d, "request_fingerprint") == Str(Strip(Get(plan, "request_fingerprint").s))
            && Get(plan, "action").Str? && Get(d, "action") == Str(Strip(Get(plan, "action").s))
            && Get(plan, "resource").Str? && Get(d, "resource") == Str(Strip(Get(plan, "resource").s))
  {
    ContextIff(plan);
    PlanWordIff(plan, "plan_id");
    PlanWordIff(plan, "request_fingerprint");
    PlanWordIff(plan, "action");
    PlanWordIff(plan, "resource");
  }

  lemma ContextSaysMore(plan: Rec)
    requires PlanContext(plan).Ok?
    ensures var d := PlanContext(plan).value;
            && Get(d, "steps") == Arr(Strs(if "steps" in plan && plan["steps"].Arr? then Texts(plan["steps"].items) else []))
            && Get(d, "rationale") == Str(if Truthy(Get(plan, "rationale")) then PyStr(Get(plan, "rationale")) else "")
            && Get(d, "confidence") == Get(plan, "confidence")
  {
    ContextIff(plan);
    assert Texts([]) == [];
  }

  lemma ItemSays(key: string, value: Json, provenance: string)
    ensures var d := ContextItem(key, value, provenance).fields;
            && Get(d, "key") == Str(key) && Get(d, "value") == value && Get(d, "provenance") == Str(provenance)
            && Get(d, "source") == Str("dor.project_planning") && Get(d, "sensitivity") == Str("normal")
  {
  }

  /** Provenance, requirements and plan, in that order, each under its name and the plan's id. */
  lemma ItemsSay(up: Upstream, plan: Rec, id: string)
    ensures var items := ContextItems(up, plan, id);
            && |items| == 3
            && items[0] == ContextItem("planning_provenance", up.provenance, "plan:" + id)
            && items[1] == ContextItem("requirements", up.requirements, "plan:" + id)
            && items[2] == ContextItem("plan_proposal", Obj(plan), "plan:" + id)
  {
  }
}
