/** What a case shows, read off the fields of the two snapshots. */
module CaseStates {
  import opened Collections
  import opened PyText
  import opened CanonicalJson
  import opened PyValues
  import opened CaseProjection

  // ---------------------------------------------------------------- the fields

  /** The text of the first truthy of three fields, or a default. */
  function Either(a: Json, b: Json, c: Json, default: string): string
  {
    if Truthy(a) then PyStr(a) else if Truthy(b) then PyStr(b) else if Truthy(c) then PyStr(c) else default
  }

  /** The project's status, as compared. */
  function StatusWord(c: Casing, project: Rec): string
  {
    c.lower(Strip(Either(Get(project, "status"), Get(project, "state"), Null, "created")))
  }

  /** The execution's runtime state, as compared. */
  function StateWord(c: Casing, e: Rec): string
  {
    c.lower(Strip(Either(Get(e, "current_state"), Get(e, "state_name"), Get(e, "state"), "")))
  }

  function RequiredWord(c: Casing, e: Rec): string { c.lower(Strip(Either(Get(e, "action_required"), Null, Null, "none"))) }

  predicate Reworking(c: Casing, e: Rec)
  {
    || (Get(e, "rework").Obj? && Get(Get(e, "rework").fields, "active") == Bool(true))
    || Get(e, "rework_state") == Str("active")
    || RequiredWord(c, e) == "rework_active"
  }

  /** The execution has failed and is not being reworked. */
  predicate Broken(c: Casing, e: Rec) { !Reworking(c, e) && (StateWord(c, e) == "failed" || Truthy(Get(e, "error"))) }

  /** The execution goes on: neither reworked nor failed. */
  predicate Running(c: Casing, e: Rec) { !Reworking(c, e) && !Broken(c, e) }

  predicate Closed(c: Casing, project: Rec) { StatusWord(c, project) in {"completed", "cancelled", "archived"} }

  const KNOWN_STATES: set<string> := {
    "requirements_draft", "requirements_validated", "requirements_approved",
    "architecture_generating", "architecture_generated", "architecture_approved",
    "contracts_generating", "contracts_generated", "contracts_approved", "code_generating", "code_generated",
    "tests_generating", "tests_generated", "tests_running", "tests_passed", "tests_failed",
    "deploying", "deployed", "release_approved", "released", "failed", "cancelled"
  }

  lemma SameStates()
    ensures KNOWN_STATES == PIPELINE_STATES
  {
  }

  /** An execution whose state the dashboard does not know. */
  predicate Unrecognised(c: Casing, execution: Option<Rec>) { execution.Some? && StateWord(c, execution.value) !in KNOWN_STATES }

  lemma UnrecognisedIff(c: Casing, execution: Option<Rec>)
    ensures Unrecognised(c, execution) <==> execution.Some? && StateOf(c, execution) !in PIPELINE_STATES
  {
    SameStates();
    if execution.Some? { StateIsRead(c, execution.value); }
  }

  lemma FieldsAreRead(c: Casing, project: Rec, e: Rec)
    ensures StatusOf(c, project) == StatusWord(c, project)
    ensures StateOf(c, Some(e)) == StateWord(c, e)
    ensures SignalOf(c, e).required == RequiredWord(c, e) && SignalOf(c, e).state == StateWord(c, e)
    ensures SignalOf(c, e).error == Truthy(Get(e, "error"))
    ensures SignalOf(c, e).rework || RequiredWord(c, e) == "rework_active" <==> Reworking(c, e)
  {
    StatusIsRead(c, project);
    StateIsRead(c, e);
  }

  lemma StatusIsRead(c: Casing, project: Rec)
    ensures StatusOf(c, project) == StatusWord(c, project)
  {
    var keys := ["status", "state"];
    assert keys[1..] == ["state"] && ["state"][1..] == [];
    assert FirstOf(project, []) == Null;
    assert FirstOf(project, ["state"]) == if Truthy(Get(project, "state")) then Get(project, "state") else Null;
  }

  lemma StateIsRead(c: Casing, e: Rec)
    ensures StateOf(c, Some(e)) == StateWord(c, e)
  {
    var keys := ["current_state", "state_name", "state"];
    assert keys[1..] == ["state_name", "state"] && ["state_name", "state"][1..] == ["state"] && ["state"][1..] == [];
    assert FirstOf(e, []) == Null;
    assert FirstOf(e, ["state"]) == if Truthy(Get(e, "state")) then Get(e, "state") else Null;
    assert FirstOf(e, ["state_name", "state"]) == if Truthy(Get(e, "state_name")) then Get(e, "state_name") else FirstOf(e, ["state"]);
  }

  // ---------------------------------------------------------------- who has to act

  /** The execution part of the table, on the four things it looks at. */
  lemma SignalIff(s: Signal)
    ensures var a, rework := ExecutionAttention(s), s.rework || s.required == "rework_active";
            var broken := !rework && (s.state == "failed" || s.error);
            var runs := !rework && !broken;
            && (a.ReworkInProgress? <==> rework) && (a.Failed? <==> broken)
            && (a.NeedsDecision? <==> runs && s.required == "human_decision")
            && (a.Blocked? <==> runs && s.required == "rejected")
            && (a.DorWorking? <==> runs && s.required == "work_in_progress")
            && (a.Cancelled? <==> runs && s.required == "terminal" && s.state == "cancelled")
            && (a.Completed? <==> runs && s.required == "terminal" && s.state == "released")
            && (a.ReadyToAct? <==>
                  && runs && s.required != "human_decision" && s.required != "rejected" && s.required != "work_in_progress"
                  && !(s.required == "terminal" && (s.state == "cancelled" || s.state == "released")))
  {
  }

  function SignalFor(c: Casing, execution: Option<Rec>): Option<Signal>
  {
    if execution.Some? then Some(SignalOf(c, execution.value)) else None
  }

  /** What the projection shows, by recognition of the state. */
  lemma Shown(c: Casing, id: string, project: Rec, execution: Option<Rec>)
    ensures ProjectCase(c, id, project, execution).attention ==
            if Unrecognised(c, execution) then Unknown else AttentionOf(StatusWord(c, project), SignalFor(c, execution))
  {
    StatusIsRead(c, project);
    UnrecognisedIff(c, execution);
    ShownBy(c, id, project, execution, execution.Some? && StateOf(c, execution) !in PIPELINE_STATES);
  }

  lemma ShownBy(c: Casing, id: string, project: Rec, execution: Option<Rec>, unknown: bool)
    requires unknown == (execution.Some? && StateOf(c, execution) !in PIPELINE_STATES)
    ensures ProjectCase(c, id, project, execution).attention ==
            if unknown then Unknown else AttentionOf(StatusOf(c, project), SignalFor(c, execution))
  {
  }

  /** How a closed project, and one without an execution, decides by itself. */
  lemma StatusAlone(status: string, execution: Option<Signal>)
    ensures var a := AttentionOf(status, execution);
            && (a.Archived? <==> status == "archived")
            && (status == "completed" ==> a.Completed?) && (status == "cancelled" ==> a.Cancelled?)
            && (execution.None? && status !in {"completed", "cancelled", "archived"} ==> a.ReadyToAct?)
  {
    if execution.Some? { SignalIff(execution.value); }
  }

  /** An open case without an execution is ready; a closed one says how it closed; an unrecognised state says nothing. */
  lemma ClosedAndIdle(c: Casing, id: string, project: Rec, execution: Option<Rec>)
    ensures var a := ProjectCase(c, id, project, execution).attention;
            && (a.Unknown? <==> Unrecognised(c, execution))
            && (a.Archived? <==> !Unrecognised(c, execution) && StatusWord(c, project) == "archived")
            && (!Unrecognised(c, execution) && StatusWord(c, project) == "completed" ==> a.Completed?)
            && (!Unrecognised(c, execution) && StatusWord(c, project) == "cancelled" ==> a.Cancelled?)
            && (execution.None? && !Closed(c, project) ==> a.ReadyToAct?)
  {
    Shown(c, id, project, execution);
    StatusAlone(StatusWord(c, project), SignalFor(c, execution));
    AttentionRange(StatusWord(c, project), SignalFor(c, execution));
  }

  /** An open case with a recognised execution: each state exactly under its own condition on the fields. */
  lemma OpenCaseIff(c: Casing, id: string, project: Rec, e: Rec)
    requires !Closed(c, project) && !Unrecognised(c, Some(e))
    ensures var a := ProjectCase(c, id, project, Some(e)).attention;
            && (a.ReworkInProgress? <==> Reworking(c, e))
            && (a.Failed? <==> Broken(c, e))
            && (a.NeedsDecision? <==> Running(c, e) && RequiredWord(c, e) == "human_decision")
            && (a.Blocked? <==> Running(c, e) && RequiredWord(c, e) == "rejected")
            && (a.DorWorking? <==> Running(c, e) && RequiredWord(c, e) == "work_in_progress")
            && (a.Cancelled? <==> Running(c, e) && RequiredWord(c, e) == "terminal" && StateWord(c, e) == "cancelled")
            && (a.Completed? <==> Running(c, e) && RequiredWord(c, e) == "terminal" && StateWord(c, e) == "released")
            && (a.ReadyToAct? <==>
                  && Running(c, e) && RequiredWord(c, e) !in {"human_decision", "rejected", "work_in_progress"}
                  && !(RequiredWord(c, e) == "terminal" && StateWord(c, e) in {"cancelled", "released"}))
  {
    FieldsAreRead(c, project, e);
    SignalIff(SignalOf(c, e));
    OpenAttention(StatusWord(c, project), SignalOf(c, e));
    Shown(c, id, project, Some(e));
  }

  lemma OpenAttention(status: string, s: Signal)
    requires status != "completed" && status != "cancelled" && status != "archived"
    ensures AttentionOf(status, Some(s)) == ExecutionAttention(s)
  {
  }

  // ---------------------------------------------------------------- who owns it

  /** A human owns what needs a decision or is ready; DOR owns its own work; nobody owns the rest. */
  lemma OwnerIff(c: Casing, id: string, project: Rec, execution: Option<Rec>)
    ensures var p := ProjectCase(c, id, project, execution);
            && (p.owner.Human? <==> p.attention.NeedsDecision? || p.attention.ReadyToAct?)
            && (p.owner.Dor? <==> p.attention.DorWorking? || p.attention.ReworkInProgress?)
            && !p.owner.External?
  {
    NeverProjected(c, id, project, execution);
  }

  // ---------------------------------------------------------------- what is offered

  /** The first of three actions that is allowed. */
  function FirstIn(allowed: seq<string>, a: string, b: string, c: string): Option<string>
  {
    if a in allowed then Some(a) else if b in allowed then Some(b) else if c in allowed then Some(c) else None
  }

  lemma FirstOfThree(allowed: seq<string>, a: string, b: string, c: string)
    ensures CandidateAction(allowed, [a]) == if a in allowed then Some(a) else None
    ensures CandidateAction(allowed, [a, b]) == FirstIn(allowed, a, b, b)
    ensures CandidateAction(allowed, [a, b, c]) == FirstIn(allowed, a, b, c)
  {
    assert [a][1..] == [] && [b][1..] == [] && [c][1..] == [];
    assert [a, b][1..] == [b] && [b, c][1..] == [c] && [a, b, c][1..] == [b, c];
    assert CandidateAction(allowed, []) == None;
    assert CandidateAction(allowed, [b]) == if b in allowed then Some(b) else None;
    assert CandidateAction(allowed, [c]) == if c in allowed then Some(c) else None;
    assert CandidateAction(allowed, [b, c]) == if b in allowed then Some(b) else CandidateAction(allowed, [c]);
  }

  /** What the status of an open project offers. */
  lemma StatusOffers(allowed: seq<string>, status: string)
    ensures status == "created" ==> CandidateAction(allowed, Preferences(status)) == if "launch" in allowed then Some("launch") else None
    ensures status == "launch_requested" ==>
            CandidateAction(allowed, Preferences(status)) == if "activate_scope" in allowed then Some("activate_scope") else None
    ensures status == "active" ==>
            CandidateAction(allowed, Preferences(status)) == FirstIn(allowed, "advance", "request_completion", "cancel")
    ensures status == "completion_pending" ==>
            CandidateAction(allowed, Preferences(status)) == FirstIn(allowed, "complete", "cancel", "cancel")
    ensures status !in {"created", "launch_requested", "active", "completion_pending", "completed", "cancelled", "archived"} ==>
            CandidateAction(allowed, Preferences(status)) == None
  {
    FirstOfThree(allowed, "launch", "", "");
    FirstOfThree(allowed, "activate_scope", "", "");
    FirstOfThree(allowed, "advance", "request_completion", "cancel");
    FirstOfThree(allowed, "complete", "cancel", "");
  }

  /** A decision offers the first approval that is listed; a blocked case the first way on; a case at work or closed nothing. */
  lemma OfferIff(c: Casing, id: string, project: Rec, execution: Option<Rec>)
    ensures var p := ProjectCase(c, id, project, execution);
            && (p.attention.NeedsDecision? && FirstIn(p.allowed, "approve", "gate_approve", "approved").Some? ==>
                  p.next == FirstIn(p.allowed, "approve", "gate_approve", "approved"))
            && (p.attention.Blocked? ==> p.next == FirstIn(p.allowed, "rework", "retry", "retry"))
            && (p.attention.DorWorking? || p.attention.ReworkInProgress? ==> p.next.None?)
            && (p.attention.Completed? || p.attention.Cancelled? || p.attention.Archived? || p.attention.Unknown? ==> p.next.None?)
  {
    var p := ProjectCase(c, id, project, execution);
    FirstOfThree(p.allowed, "approve", "gate_approve", "approved");
    FirstOfThree(p.allowed, "rework", "retry", "");
  }

  lemma PreferredOffer(a: Attention, allowed: seq<string>, status: string)
    requires a.ReadyToAct? || a.Failed? || (a.NeedsDecision? && FirstIn(allowed, "approve", "gate_approve", "approved").None?)
    ensures NextAction(a, allowed, status) == CandidateAction(allowed, Preferences(status))
  {
    FirstOfThree(allowed, "approve", "gate_approve", "approved");
    if allowed == [] { NothingAllowed(Preferences(status)); }
  }

  /** A ready or failed case, and a decision nobody may take, offers what the project's status prefers. */
  lemma StatusDecidesOffer(c: Casing, id: string, project: Rec, execution: Option<Rec>)
    requires var p := ProjectCase(c, id, project, execution);
             || p.attention.ReadyToAct? || p.attention.Failed?
             || (p.attention.NeedsDecision? && FirstIn(p.allowed, "approve", "gate_approve", "approved").None?)
    ensures var p := ProjectCase(c, id, project, execution);
            p.next == CandidateAction(p.allowed, Preferences(StatusWord(c, project)))
  {
    var p := ProjectCase(c, id, project, execution);
    StatusIsRead(c, project);
    PreferredOffer(p.attention, p.allowed, StatusOf(c, project));
  }

  lemma {:induction false} NothingAllowed(candidates: seq<string>)
    ensures CandidateAction([], candidates) == None
  {
    if candidates != [] { NothingAllowed(candidates[1..]); }
  }

  /** An action is listed under a key when some entry names it: itself, or by its id, action or name. */
  lemma ListedIff(c: Casing, v: Json, action: string)
    ensures action in NormalizeAllowedActions(c, v) <==>
            && action != "" && v.Arr?
            && exists i :: 0 <= i < |v.items| && Names(c, v.items[i], action)
  {
    if v.Arr? {
      ActionMember(c, v.items, action);
      forall i | 0 <= i < |v.items| ensures ActionOf(c, v.items[i]) == action <==> Names(c, v.items[i], action) {
        EntryIsRead(c, v.items[i]);
      }
    }
  }

  predicate Names(c: Casing, v: Json, action: string)
  {
    action == c.lower(Strip(if v.Obj? then Either(Get(v.fields, "id"), Get(v.fields, "action"), Get(v.fields, "name"), "")
                            else Either(v, Null, Null, "")))
  }

  lemma EntryIsRead(c: Casing, v: Json)
    ensures Names(c, v, ActionOf(c, v))
  {
    if v.Obj? {
      var d := v.fields;
      var keys := ["id", "action", "name"];
      assert keys[1..] == ["action", "name"] && ["action", "name"][1..] == ["name"] && ["name"][1..] == [];
      assert FirstOf(d, []) == Null;
      assert FirstOf(d, ["name"]) == if Truthy(Get(d, "name")) then Get(d, "name") else Null;
      assert FirstOf(d, ["action", "name"]) == if Truthy(Get(d, "action")) then Get(d, "action") else FirstOf(d, ["name"]);
    }
  }

  lemma TitleIs(c: Casing, id: string, project: Rec, execution: Option<Rec>)
    ensures var p := ProjectCase(c, id, project, execution);
            p.caseId == id && p.title == Either(Get(project, "name"), Get(project, "title"), Null, "Sag #" + id)
  {
    var keys := ["name", "title"];
    assert keys[1..] == ["title"] && ["title"][1..] == [];
    assert FirstOf(project, []) == Null;
    assert FirstOf(project, ["title"]) == if Truthy(Get(project, "title")) then Get(project, "title") else Null;
  }
}
