/** The projection of one case: who has to act, and which single action is offered. */
module CaseProjection {
  import opened Collections
  import opened PyText
  import opened CanonicalJson
  import opened PyValues

  /** Unicode case mapping, as library functions. */
  datatype Casing = Casing(lower: string -> string, fold: string -> string)

  datatype Attention =
    | NeedsInput | NeedsDecision | NeedsReview | DorWorking | ReworkInProgress | WaitingExternal
    | Blocked | Failed | ReadyToAct | Completed | Cancelled | Archived | Unknown

  datatype Owner = Human | Dor | External | Nobody

  function OwnerOf(a: Attention): Owner
  {
    match a
    case NeedsInput | NeedsDecision | NeedsReview | ReadyToAct => Human
    case DorWorking | ReworkInProgress => Dor
    case WaitingExternal => External
    case _ => Nobody
  }

  predicate RequiresHumanAction(a: Attention)
  {
    a.NeedsInput? || a.NeedsDecision? || a.NeedsReview? || a.ReadyToAct? || a.Blocked? || a.Failed?
  }

  // ---------------------------------------------------------------- reading snapshots

  /** The first truthy value among the named keys, or null. */
  function FirstOf(d: Rec, keys: seq<string>): Json
  {
    if keys == [] then Null else if Truthy(Get(d, keys[0])) then Get(d, keys[0]) else FirstOf(d, keys[1..])
  }

  function TextOf(v: Json, default: string): string { if Truthy(v) then PyStr(v) else default }

  function Normal(c: Casing, v: Json, default: string): string { c.lower(Strip(TextOf(v, default))) }

  function StateOf(c: Casing, execution: Option<Rec>): string
  {
    if execution.None? then "" else Normal(c, FirstOf(execution.value, ["current_state", "state_name", "state"]), "")
  }

  function StatusOf(c: Casing, project: Rec): string { Normal(c, FirstOf(project, ["status", "state"]), "created") }

  const PIPELINE_STATES: set<string> := {
    "requirements_draft", "requirements_validated", "requirements_approved", "architecture_generating",
    "architecture_generated", "architecture_approved", "contracts_generating", "contracts_generated",
    "contracts_approved", "code_generating", "code_generated", "tests_generating", "tests_generated",
    "tests_running", "tests_passed", "tests_failed", "deploying", "deployed", "release_approved",
    "released", "failed", "cancelled"
  }

  predicate ReworkActive(execution: Rec)
  {
    var rework := Get(execution, "rework");
    || (rework.Obj? && Get(rework.fields, "active") == Bool(true))
    || Get(execution, "rework_state") == Str("active")
  }

  /** What an execution says about who has to act. */
  datatype Signal = Signal(required: string, state: string, rework: bool, error: bool)

  function SignalOf(c: Casing, e: Rec): Signal
  {
    Signal(Normal(c, Get(e, "action_required"), "none"), StateOf(c, Some(e)), ReworkActive(e), Truthy(Get(e, "error")))
  }

  function ExecutionAttention(s: Signal): Attention
  {
    if s.rework || s.required == "rework_active" then ReworkInProgress
    else if s.state == "failed" || s.error then Failed
    else if s.required == "human_decision" then NeedsDecision
    else if s.required == "rejected" then Blocked
    else if s.required == "work_in_progress" then DorWorking
    else if s.required == "terminal" && s.state == "cancelled" then Cancelled
    else if s.required == "terminal" && s.state == "released" then Completed
    else ReadyToAct
  }

  /** `_attention`: a closed project speaks for itself, otherwise the execution does. */
  function AttentionOf(status: string, execution: Option<Signal>): Attention
  {
    if status == "completed" then Completed
    else if status == "cancelled" then Cancelled
    else if status == "archived" then Archived
    else if execution.None? then ReadyToAct
    else ExecutionAttention(execution.value)
  }

  // ---------------------------------------------------------------- actions the backend lists

  function ActionOf(c: Casing, v: Json): string
  {
    Normal(c, if v.Obj? then FirstOf(v.fields, ["id", "action", "name"]) else v, "")
  }

  /** The non-empty actions of a list, each once, in the order of first mention. */
  function Fresh(seen: seq<string>, action: string): seq<string>
  {
    if action == "" || action in seen then seen else seen + [action]
  }

  function ActionsIn(c: Casing, items: seq<Json>): seq<string>
  {
    if items == [] then [] else Fresh(ActionsIn(c, items[..|items| - 1]), ActionOf(c, items[|items| - 1]))
  }

  function NormalizeAllowedActions(c: Casing, v: Json): seq<string>
  {
    if v.Arr? then ActionsIn(c, v.items) else []
  }

  function Merge(values: seq<string>, more: seq<string>): seq<string>
  {
    if more == [] then values else Fresh(Merge(values, more[..|more| - 1]), more[|more| - 1])
  }

  const ACTION_KEYS := ["allowed_actions", "actions", "available_actions"]

  function CollectFrom(c: Casing, values: seq<string>, source: Rec): seq<string>
  {
    Merge(Merge(Merge(values, NormalizeAllowedActions(c, Get(source, "allowed_actions"))),
                NormalizeAllowedActions(c, Get(source, "actions"))),
          NormalizeAllowedActions(c, Get(source, "available_actions")))
  }

  /** `_collect_allowed_actions`. */
  function CollectAllowed(c: Casing, project: Rec, execution: Option<Rec>): seq<string>
  {
    CollectFrom(c, CollectFrom(c, [], project), if execution.Some? then execution.value else map[])
  }

  method NormalizeActions(c: Casing, v: Json) returns (result: seq<string>)
    ensures result == NormalizeAllowedActions(c, v)
  {
    result := [];
    if !v.Arr? { return; }
    for i := 0 to |v.items|
      invariant result == ActionsIn(c, v.items[..i])
    {
      assert v.items[..i + 1][..i] == v.items[..i];
      var action := ActionOf(c, v.items[i]);
      if action != "" && action !in result {
        result := result + [action];
      }
    }
    assert v.items[..|v.items|] == v.items;
  }

  method MergeActions(values: seq<string>, more: seq<string>) returns (result: seq<string>)
    requires "" !in more
    ensures result == Merge(values, more)
  {
    result := values;
    for i := 0 to |more|
      invariant result == Merge(values, more[..i])
    {
      assert more[..i + 1][..i] == more[..i];
      assert more[i] != "";
      if more[i] !in result {
        result := result + [more[i]];
      }
    }
    assert more[..|more|] == more;
  }

  /** The nested loops over both snapshots, their keys and their entries. */
  method CollectAllowedActions(c: Casing, project: Rec, execution: Option<Rec>) returns (values: seq<string>)
    ensures values == CollectAllowed(c, project, execution)
  {
    values := [];
    var sources := [project, if execution.Some? then execution.value else map[]];
    for i := 0 to 2
      invariant values == if i == 0 then [] else if i == 1 then CollectFrom(c, [], project) else CollectAllowed(c, project, execution)
    {
      ghost var before := values;
      for k := 0 to 3
        invariant values == CollectKeys(c, before, sources[i], k)
      {
        var listed := NormalizeActions(c, Get(sources[i], ACTION_KEYS[k]));
        ActionsAreNamed(c, Get(sources[i], ACTION_KEYS[k]));
        values := MergeActions(values, listed);
      }
      KeysInOrder(c, before, sources[i]);
    }
  }

  /** The collection after the first `k` keys of one source. */
  function CollectKeys(c: Casing, values: seq<string>, source: Rec, k: nat): seq<string>
    requires k <= 3
  {
    if k == 0 then values
    else Merge(CollectKeys(c, values, source, k - 1), NormalizeAllowedActions(c, Get(source, ACTION_KEYS[k - 1])))
  }

  lemma KeysInOrder(c: Casing, values: seq<string>, source: Rec)
    ensures CollectKeys(c, values, source, 3) == CollectFrom(c, values, source)
  {
    assert CollectKeys(c, values, source, 1) == Merge(values, NormalizeAllowedActions(c, Get(source, "allowed_actions")));
    assert CollectKeys(c, values, source, 2) ==
           Merge(CollectKeys(c, values, source, 1), NormalizeAllowedActions(c, Get(source, "actions")));
  }

  lemma {:induction false} ActionMember(c: Casing, items: seq<Json>, action: string)
    ensures action in ActionsIn(c, items) <==> action != "" && exists i :: 0 <= i < |items| && ActionOf(c, items[i]) == action
  {
    if items != [] {
      var init := items[..|items| - 1];
      ActionMember(c, init, action);
      assert items == init + [items[|items| - 1]];
      if i :| 0 <= i < |items| && ActionOf(c, items[i]) == action {
        assert i < |init| ==> init[i] == items[i];
      }
    }
  }

  lemma ActionsAreNamed(c: Casing, v: Json)
    ensures "" !in NormalizeAllowedActions(c, v)
  {
    if v.Arr? { ActionMember(c, v.items, ""); }
  }

  lemma {:induction false} MergeMember(values: seq<string>, more: seq<string>, action: string)
    ensures action in Merge(values, more) <==> action in values || (action != "" && action in more)
  {
    if more != [] {
      MergeMember(values, more[..|more| - 1], action);
      assert more == more[..|more| - 1] + [more[|more| - 1]];
    }
  }

  /** An action that a snapshot itself lists under one of the three keys. */
  predicate Listed(c: Casing, source: Rec, action: string)
  {
    || action in NormalizeAllowedActions(c, Get(source, "allowed_actions"))
    || action in NormalizeAllowedActions(c, Get(source, "actions"))
    || action in NormalizeAllowedActions(c, Get(source, "available_actions"))
  }

  lemma CollectFromMember(c: Casing, values: seq<string>, source: Rec, action: string)
    requires action != ""
    ensures action in CollectFrom(c, values, source) <==> action in values || Listed(c, source, action)
  {
    var a, b, d := NormalizeAllowedActions(c, Get(source, "allowed_actions")),
                   NormalizeAllowedActions(c, Get(source, "actions")),
                   NormalizeAllowedActions(c, Get(source, "available_actions"));
    MergeMember(values, a, action);
    MergeMember(Merge(values, a), b, action);
    MergeMember(Merge(Merge(values, a), b), d, action);
  }

  /** Exactly the actions that one of the two backend snapshots lists are collected. */
  lemma CollectedIffListed(c: Casing, project: Rec, execution: Option<Rec>, action: string)
    requires action != ""
    ensures action in CollectAllowed(c, project, execution) <==>
            Listed(c, project, action) || (execution.Some? && Listed(c, execution.value, action))
  {
    CollectFromMember(c, [], project, action);
    CollectFromMember(c, CollectFrom(c, [], project), if execution.Some? then execution.value else map[], action);
  }

  // ---------------------------------------------------------------- the next action

  /** The first candidate that is allowed. */
  function CandidateAction(allowed: seq<string>, candidates: seq<string>): Option<string>
  {
    if candidates == [] then None
    else if candidates[0] in allowed then Some(candidates[0])
    else CandidateAction(allowed, candidates[1..])
  }

  function Preferences(status: string): seq<string>
  {
    if status == "created" then ["launch"]
    else if status == "launch_requested" then ["activate_scope"]
    else if status == "active" then ["advance", "request_completion", "cancel"]
    else if status == "completion_pending" then ["complete", "cancel"]
    else if status == "completed" then ["archive", "continue"]
    else if status == "cancelled" then ["archive"]
    else if status == "archived" then ["continue"]
    else []
  }

  /** `_resolve_next_best_action`, by the id of the action. */
  function NextAction(attention: Attention, allowed: seq<string>, status: string): Option<string>
  {
    if attention.Unknown? || allowed == [] then None
    else if attention.NeedsDecision? && CandidateAction(allowed, ["approve", "gate_approve", "approved"]).Some? then
      CandidateAction(allowed, ["approve", "gate_approve", "approved"])
    else if attention.Blocked? then CandidateAction(allowed, ["rework", "retry"])
    else if attention.DorWorking? || attention.ReworkInProgress? || attention.Completed? || attention.Cancelled? || attention.Archived? then None
    else CandidateAction(allowed, Preferences(status))
  }

  datatype Projection = Projection(
    caseId: string, title: string, attention: Attention, owner: Owner, allowed: seq<string>, next: Option<string>)

  /** `project_case`: an execution in an unrecognised state shows nothing to do. */
  function ProjectCase(c: Casing, caseId: string, project: Rec, execution: Option<Rec>): Projection
  {
    var unknown := execution.Some? && StateOf(c, execution) !in PIPELINE_STATES;
    var attention := if unknown then Unknown else AttentionOf(StatusOf(c, project), if execution.Some? then Some(SignalOf(c, execution.value)) else None);
    var allowed := if unknown then [] else CollectAllowed(c, project, execution);
    Projection(caseId, TextOf(FirstOf(project, ["name", "title"]), "Sag #" + caseId), attention, OwnerOf(attention),
               allowed, NextAction(attention, allowed, StatusOf(c, project)))
  }

  lemma {:induction false} CandidateIsAllowed(allowed: seq<string>, candidates: seq<string>)
    requires "" !in candidates
    ensures CandidateAction(allowed, candidates).Some? ==>
            var a := CandidateAction(allowed, candidates).value; a != "" && a in allowed && a in candidates
    ensures CandidateAction(allowed, candidates).None? ==> forall x :: x in candidates ==> x !in allowed
  {
    if candidates != [] && candidates[0] !in allowed {
      CandidateIsAllowed(allowed, candidates[1..]);
      assert candidates == [candidates[0]] + candidates[1..];
    }
  }

  lemma NextIsAllowed(attention: Attention, allowed: seq<string>, status: string)
    ensures NextAction(attention, allowed, status).Some? ==>
            var a := NextAction(attention, allowed, status).value; a != "" && a in allowed
  {
    CandidateIsAllowed(allowed, ["approve", "gate_approve", "approved"]);
    CandidateIsAllowed(allowed, ["rework", "retry"]);
    CandidateIsAllowed(allowed, Preferences(status));
  }

  /** Whatever is offered was listed by a backend snapshot, and only for a case that asks for a human. */
  lemma NextActionIsListed(c: Casing, caseId: string, project: Rec, execution: Option<Rec>)
    ensures var p := ProjectCase(c, caseId, project, execution);
            p.next.Some? ==>
            && (Listed(c, project, p.next.value) || (execution.Some? && Listed(c, execution.value, p.next.value)))
            && RequiresHumanAction(p.attention)
  {
    var p := ProjectCase(c, caseId, project, execution);
    NextIsAllowed(p.attention, p.allowed, StatusOf(c, project));
    NeverProjected(c, caseId, project, execution);
    if p.next.Some? {
      CollectedIffListed(c, project, execution, p.next.value);
    }
  }

  /** No snapshot is ever projected to these three states, although views and priorities exist for them. */
  lemma NeverProjected(c: Casing, caseId: string, project: Rec, execution: Option<Rec>)
    ensures var a := ProjectCase(c, caseId, project, execution).attention;
            !a.NeedsInput? && !a.NeedsReview? && !a.WaitingExternal?
  {
    AttentionRange(StatusOf(c, project), if execution.Some? then Some(SignalOf(c, execution.value)) else None);
  }

  lemma AttentionRange(status: string, execution: Option<Signal>)
    ensures var a := AttentionOf(status, execution);
            !a.NeedsInput? && !a.NeedsReview? && !a.WaitingExternal? && !a.Unknown?
  {
  }
}
