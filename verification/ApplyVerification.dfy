/** Revalidating a patch proposal, and the first check of a patch-apply response. */
module ApplyVerification {
  import opened Collections
  import opened Orders
  import opened PyText
  import opened CanonicalJson
  import opened PyValues
  import opened RawJson
  import opened StringSort
  import opened ProposalScope
  import opened ProposalRequest
  import opened Utf8

  /** The digest, as a library function from bytes to hexadecimal text. */
  datatype Env = Env(sha256hex: seq<Byte> -> string)

  function Digest(env: Env, v: Json): string { env.sha256hex(Preimage(v)) }

  function TextDigest(env: Env, s: string): string { env.sha256hex(Encode(s)) }

  function RequiredDigest(d: Rec, key: string): Result<string, Refusal>
  {
    var v := Get(d, key);
    if v.Str? && HexDigest(v.s) then Ok(v.s) else Err(Refused(key))
  }

  predicate OneOf(v: Json, options: set<string>) { v.Str? && v.s in options }

  const SUCCEEDED: set<string> := {"succeeded", "replayed"}
  const TOOL_KINDS: set<string> := {"lint", "test", "build"}

  datatype Proposal = Proposal(
    organizationId: string, resource: string, proposalId: string, requestFingerprint: string, commandId: string,
    providerId: string, diffSha256: string, touchedPaths: seq<string>, changedLines: int, unifiedDiff: string)

  // ---------------------------------------------------------------- restoring the proposal

  /** What a proposal id is the digest of. */
  function ProposalBody(fingerprint: string, provider: string, diff: string, touched: seq<string>, lines: int): Json
  {
    Obj(map[
      "request_fingerprint" := Str(fingerprint), "provider_id" := Str(provider), "diff_sha256" := Str(diff),
      "touched_paths" := Arr(Strs(touched)), "changed_lines" := Int(lines)])
  }

  predicate WithinScope(touched: seq<string>, scope: Scope)
  {
    && Distinct(touched) && |touched| <= scope.maxFiles
    && forall i :: 0 <= i < |touched| ==> touched[i] in scope.allowedPaths
  }

  /** The artifact inside a proposal response. */
  function RestoreArtifact(env: Env, up: Upstream, r: Restored, fingerprint: string, p: Rec): Result<Proposal, Refusal>
  {
    var id :- RequiredDigest(p, "proposal_id");
    var provider :- RequiredText(p, "provider_id");
    var diff :- RequiredDigest(p, "diff_sha256");
    RestorePatch(env, up, r, fingerprint, id, provider, diff,
      Get(p, "unified_diff"), Get(p, "touched_paths"), Get(p, "changed_lines"))
  }

  function RestorePatch(env: Env, up: Upstream, r: Restored, fingerprint: string, id: string, provider: string, diff: string,
                        unified: Json, raw: Json, lines: Json): Result<Proposal, Refusal>
  {
    if !unified.Str? || unified.s == "" || TextDigest(env, unified.s) != diff then Err(Refused("unified_diff"))
    else if !raw.Arr? || raw.items == [] || !WithinScope(Texts(raw.items), r.scope) then Err(Refused("touched_paths"))
    else if !IntWithin(lines, r.scope.maxChangedLines) then Err(Refused("changed_lines"))
    else
      ContentAddressed(env, Proposal(up.organizationId, up.repository, id, fingerprint, r.commandId, provider, diff,
                                     Texts(raw.items), lines.n, unified.s))
  }

  /** A proposal is accepted only under the digest of its own content. */
  function ContentAddressed(env: Env, p: Proposal): Result<Proposal, Refusal>
  {
    var body := ProposalBody(p.requestFingerprint, p.providerId, p.diffSha256, p.touchedPaths, p.changedLines);
    if p.proposalId != Digest(env, body) then Err(Refused("proposal_id")) else Ok(p)
  }

  /** `restore_apply_provenance`, after the upstream chain has been restored. */
  function RestoreProposal(env: Env, up: Upstream, plan: Rec, result: Rec): Result<Proposal, Refusal>
  {
    var request, response := Get(result, "request"), Get(result, "response");
    if Get(result, "authoritative") != Bool(false) || Get(result, "applied") != Bool(false) then Err(Refused("authority"))
    else if Get(result, "plan_id") != Get(plan, "plan_id") then Err(Refused("plan_id"))
    else if Get(result, "plan_request_fingerprint") != Get(plan, "request_fingerprint") then Err(Refused("plan_request_fingerprint"))
    else if !request.Obj? || !response.Obj? then Err(Refused("request/response"))
    else
      var restored :- RestoreRequest(up, plan, request.fields);
      var d := response.fields;
      if Get(d, "command_id") != Str(restored.commandId) then Err(Refused("command_id"))
      else if Get(d, "authority_decision") != Str("allow") then Err(Refused("authority_decision"))
      else if !OneOf(Get(d, "execution_status"), SUCCEEDED) then Err(Refused("execution_status"))
      else if !OneOf(Get(d, "outcome_status"), SUCCEEDED) then Err(Refused("outcome_status"))
      else
        var fingerprint :- RequiredDigest(d, "request_fingerprint");
        if !Get(d, "proposal").Obj? then Err(Refused("proposal"))
        else RestoreArtifact(env, up, restored, fingerprint, Get(d, "proposal").fields)
  }

  // ---------------------------------------------------------------- checking an apply response

  predicate GoodEvidence(item: Json, artifactId: Json)
  {
    && item.Obj?
    && var d := item.fields;
    && OneOf(Get(d, "kind"), TOOL_KINDS)
    && Get(d, "status") == Str("passed") && Get(d, "passed") == Bool(true)
    && Get(d, "artifact_id") == artifactId
    && RequiredDigest(d, "evidence_id").Ok? && RequiredDigest(d, "tool_fingerprint").Ok?
  }

  function KindOf(item: Json): string
  {
    if item.Obj? && Get(item.fields, "kind").Str? then Get(item.fields, "kind").s else ""
  }

  function KindsOf(evidence: seq<Json>): seq<string> { seq(|evidence|, i requires 0 <= i < |evidence| => KindOf(evidence[i])) }

  /** Successful evidence: one passing item of each required kind, for this artifact. */
  predicate SuccessEvidence(evidence: seq<Json>, artifactId: Json)
  {
    && (forall i :: 0 <= i < |evidence| ==> GoodEvidence(evidence[i], artifactId))
    && Distinct(KindsOf(evidence))
    && Elements(KindsOf(evidence)) == TOOL_KINDS
  }

  lemma RepeatedKind(items: seq<Json>, i: nat)
    requires i < |items| && KindOf(items[i]) in KindsOf(items)[..i]
    ensures !Distinct(KindsOf(items))
  {
    var all := KindsOf(items);
    var j :| 0 <= j < i && all[..i][j] == KindOf(items[i]);
    assert all[j] == all[i];
  }

  lemma NextKind(items: seq<Json>, i: nat)
    requires i < |items| && KindOf(items[i]) !in KindsOf(items)[..i] && Distinct(KindsOf(items)[..i])
    ensures Distinct(KindsOf(items)[..i + 1])
    ensures Elements(KindsOf(items)[..i + 1]) == Elements(KindsOf(items)[..i]) + {KindOf(items[i])}
  {
    var all := KindsOf(items);
    assert all[..i + 1] == all[..i] + [all[i]];
    assert forall j :: 0 <= j < i ==> all[j] in all[..i];
  }

  /** `_verify_success_evidence`: one pass that grows the set of kinds seen. */
  method VerifySuccessEvidence(evidence: seq<Json>, artifact: Rec) returns (ok: bool)
    ensures ok <==> SuccessEvidence(evidence, Get(artifact, "artifact_id"))
  {
    if evidence == [] {
      assert "lint" in TOOL_KINDS;
      return false;
    }
    var kinds: set<string> := {};
    for i := 0 to |evidence|
      invariant forall j :: 0 <= j < i ==> GoodEvidence(evidence[j], Get(artifact, "artifact_id"))
      invariant Distinct(KindsOf(evidence)[..i]) && kinds == Elements(KindsOf(evidence)[..i])
    {
      var item := evidence[i];
      if !item.Obj? { return false; }
      var kind := Get(item.fields, "kind");
      if !OneOf(kind, TOOL_KINDS) { return false; }
      if kind.s in kinds {
        RepeatedKind(evidence, i);
        return false;
      }
      NextKind(evidence, i);
      kinds := kinds + {kind.s};
      if Get(item.fields, "status") != Str("passed") || Get(item.fields, "passed") != Bool(true) { return false; }
      if Get(item.fields, "artifact_id") != Get(artifact, "artifact_id") { return false; }
      if RequiredDigest(item.fields, "evidence_id").Err? { return false; }
      if RequiredDigest(item.fields, "tool_fingerprint").Err? { return false; }
    }
    assert KindsOf(evidence)[..|evidence|] == KindsOf(evidence);
    ok := kinds == TOOL_KINDS;
  }

  function PathTexts(items: seq<Json>): seq<string>
  {
    seq(|items|, i requires 0 <= i < |items| => if items[i].Obj? then PyStr(Get(items[i].fields, "path")) else "")
  }

  /** `_verify_apply_artifact`. */
  predicate GoodArtifact(artifact: Rec, p: Proposal, baseline: string)
  {
    var files := Get(artifact, "files");
    && RequiredDigest(artifact, "artifact_id").Ok?
    && Get(artifact, "proposal_id") == Str(p.proposalId)
    && Get(artifact, "diff_sha256") == Str(p.diffSha256)
    && Get(artifact, "baseline_fingerprint") == Str(baseline)
    && files.Arr? && files.items != []
    && (forall i :: 0 <= i < |files.items| ==> files.items[i].Obj?)
    && SortStrings(PathTexts(files.items)) == SortStrings(p.touchedPaths)
  }

  predicate Succeeded(d: Rec, p: Proposal, baseline: string)
  {
    && OneOf(Get(d, "execution_status"), SUCCEEDED) && OneOf(Get(d, "outcome_status"), SUCCEEDED)
    && Get(d, "committed") == Bool(true) && Get(d, "rolled_back") == Bool(false) && Get(d, "error") == Null
    && Get(d, "artifact").Obj? && Get(d, "evidence").Arr?
    && GoodArtifact(Get(d, "artifact").fields, p, baseline)
    && SuccessEvidence(Get(d, "evidence").items, Get(Get(d, "artifact").fields, "artifact_id"))
  }

  predicate Failed(d: Rec)
  {
    Get(d, "committed") == Bool(false) && Get(d, "error").Str? && Strip(Get(d, "error").s) != ""
  }

  /** `_verify_apply_response`: a successful record with its artifact and evidence, or a failed one that says why. */
  predicate ApplyResponseAccepted(d: Rec, request: Rec, p: Proposal)
  {
    && Get(d, "command_id") == Get(request, "command_id")
    && Get(d, "proposal_id") == Str(p.proposalId) && Get(d, "authority_decision") == Str("allow")
    && RequiredDigest(d, "request_fingerprint").Ok? && RequiredDigest(d, "baseline_fingerprint").Ok?
    && RequiredDigest(d, "toolchain_fingerprint").Ok? && RequiredDigest(d, "record_id").Ok?
    && OneOf(Get(d, "record_status"), {"succeeded", "failed"})
    && Get(d, "committed").Bool? && Get(d, "rolled_back").Bool? && Get(d, "evidence").Arr?
    && if Get(d, "record_status") == Str("succeeded") then
         Succeeded(d, p, RequiredDigest(d, "baseline_fingerprint").value)
       else Failed(d)
  }
}
