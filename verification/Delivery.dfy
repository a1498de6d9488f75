/** The delivery hand-off: the second, stricter check of a patch-apply result. */
module Delivery {
  import opened Collections
  import opened Orders
  import opened PyText
  import opened CanonicalJson
  import opened PyValues
  import opened StringSort
  import opened ProposalScope
  import opened ProposalRequest
  import opened ApplyVerification
  import StableSort

  // ---------------------------------------------------------------- the file manifest

  datatype ArtifactFile = ArtifactFile(path: string, present: bool, sha256: Json, byteCount: int, mode: Json)

  /** What the constructor of a manifest entry demands. */
  predicate GoodFile(f: ArtifactFile)
  {
    && ManifestPath(f.path) && f.byteCount >= 0
    && if f.present then f.sha256.Str? && HexDigest(f.sha256.s) && f.mode.Int? && f.mode.n >= 0
       else f.sha256 == Null && f.byteCount == 0 && f.mode == Null
  }

  function FileFrom(d: Rec): Result<ArtifactFile, Refusal>
  {
    var path :- RequiredText(d, "path");
    var present, count := Get(d, "exists"), Get(d, "byte_count");
    if !present.Bool? || !count.Int? then Err(Refused("files"))
    else
      var f := ArtifactFile(path, present.b, Get(d, "sha256"), count.n, Get(d, "mode"));
      if GoodFile(f) then Ok(f) else Err(Refused("files"))
  }

  /** Every entry must be an object, and a good one. */
  function FilesFrom(items: seq<Json>): Result<seq<ArtifactFile>, Refusal>
  {
    if items == [] then Ok([])
    else if !items[0].Obj? then Err(Refused("files"))
    else
      var f :- FileFrom(items[0].fields);
      var rest :- FilesFrom(items[1..]);
      Ok([f] + rest)
  }

  function PathsOf(files: seq<ArtifactFile>): seq<string> { seq(|files|, i requires 0 <= i < |files| => files[i].path) }

  function ByPath(): (ArtifactFile, ArtifactFile) -> bool { (a: ArtifactFile, b: ArtifactFile) => StrLe(a.path, b.path) }

  function SortFiles(files: seq<ArtifactFile>): seq<ArtifactFile> { StableSort.SortBy(ByPath(), files) }

  function FileBody(f: ArtifactFile): Json
  {
    Obj(map["path" := Str(f.path), "exists" := Bool(f.present), "sha256" := f.sha256,
            "byte_count" := Int(f.byteCount), "mode" := f.mode])
  }

  function FileBodies(files: seq<ArtifactFile>): seq<Json>
  {
    seq(|files|, i requires 0 <= i < |files| => FileBody(files[i]))
  }

  /** What an artifact id is the digest of. */
  function ArtifactBody(proposalId: string, diff: string, baseline: string, files: seq<ArtifactFile>): Json
  {
    Obj(map["proposal_id" := Str(proposalId), "diff_sha256" := Str(diff), "baseline_fingerprint" := Str(baseline),
            "files" := Arr(FileBodies(SortFiles(files)))])
  }

  datatype Artifact = Artifact(id: string, files: seq<ArtifactFile>)

  function ArtifactFrom(env: Env, d: Rec, p: Proposal, baseline: string): Result<Artifact, Refusal>
  {
    var id :- RequiredDigest(d, "artifact_id");
    var raw := Get(d, "files");
    if Get(d, "proposal_id") != Str(p.proposalId) then Err(Refused("proposal_id"))
    else if Get(d, "diff_sha256") != Str(p.diffSha256) then Err(Refused("diff_sha256"))
    else if Get(d, "baseline_fingerprint") != Str(baseline) then Err(Refused("baseline_fingerprint"))
    else if !raw.Arr? || raw.items == [] then Err(Refused("files"))
    else
      var files :- FilesFrom(raw.items);
      if SortStrings(PathsOf(files)) != SortStrings(p.touchedPaths) then Err(Refused("files"))
      else AddressedArtifact(env, p, baseline, Artifact(id, files))
  }

  /** An artifact is accepted only under the digest of its own content. */
  function AddressedArtifact(env: Env, p: Proposal, baseline: string, a: Artifact): Result<Artifact, Refusal>
  {
    if a.id != Digest(env, ArtifactBody(p.proposalId, p.diffSha256, baseline, a.files)) then Err(Refused("artifact_id")) else Ok(a)
  }

  // ---------------------------------------------------------------- tool evidence

  function LogBody(stream: string, sha: string, count: int, content: string, truncated: bool): Json
  {
    Obj(map["stream" := Str(stream), "sha256" := Str(sha), "byte_count" := Int(count),
            "content" := Str(content), "truncated" := Bool(truncated)])
  }

  /** `_verify_log_identity`. */
  function LogIdentity(env: Env, raw: Json, stream: string): Result<string, Refusal>
  {
    if !raw.Obj? then Err(Refused(stream))
    else
      var id :- RequiredDigest(raw.fields, "artifact_id");
      var sha :- RequiredDigest(raw.fields, "sha256");
      var count, content, truncated := Get(raw.fields, "byte_count"), Get(raw.fields, "content"), Get(raw.fields, "truncated");
      if !count.Int? || count.n < 0 || !content.Str? || !truncated.Bool? then Err(Refused(stream))
      else if id != Digest(env, LogBody(stream, sha, count.n, content.s, truncated.b)) then Err(Refused(stream))
      else if !truncated.b && TextDigest(env, content.s) != sha then Err(Refused(stream))
      else Ok(id)
  }

  function EvidenceBody(toolId: string, kind: string, tool: string, artifactId: string, status: string, exitCode: Json,
                        stdout: string, stderr: string): Json
  {
    Obj(map["tool_id" := Str(toolId), "kind" := Str(kind), "tool_fingerprint" := Str(tool), "artifact_id" := Str(artifactId),
            "status" := Str(status), "exit_code" := exitCode, "stdout_artifact_id" := Str(stdout), "stderr_artifact_id" := Str(stderr)])
  }

  /** `_verify_evidence_identity`. */
  function EvidenceIdentity(env: Env, d: Rec, artifactId: string): Result<string, Refusal>
  {
    var id :- RequiredDigest(d, "evidence_id");
    var tool :- RequiredDigest(d, "tool_fingerprint");
    var stdout :- LogIdentity(env, Get(d, "stdout"), "stdout");
    var stderr :- LogIdentity(env, Get(d, "stderr"), "stderr");
    var toolId :- RequiredText(d, "tool_id");
    var kind :- RequiredText(d, "kind");
    var status :- RequiredText(d, "status");
    if id != Digest(env, EvidenceBody(toolId, kind, tool, artifactId, status, Get(d, "exit_code"), stdout, stderr)) then
      Err(Refused("evidence_id"))
    else Ok(id)
  }

  /** One evidence item that passed, about this artifact, whose id is the digest of its content. */
  predicate GoodItem(env: Env, item: Json, artifactId: string)
  {
    && item.Obj? && OneOf(Get(item.fields, "kind"), TOOL_KINDS)
    && Get(item.fields, "status") == Str("passed") && Get(item.fields, "passed") == Bool(true)
    && Get(item.fields, "artifact_id") == Str(artifactId)
    && EvidenceIdentity(env, item.fields, artifactId).Ok?
  }

  function IdOf(item: Json): string
  {
    if item.Obj? && Get(item.fields, "evidence_id").Str? then Get(item.fields, "evidence_id").s else ""
  }

  function IdsOf(items: seq<Json>): seq<string> { seq(|items|, i requires 0 <= i < |items| => IdOf(items[i])) }

  predicate AllGood(env: Env, items: seq<Json>, artifactId: string)
  {
    items == [] || (AllGood(env, items[..|items| - 1], artifactId) && GoodItem(env, items[|items| - 1], artifactId))
  }

  lemma {:induction false} AllGoodAt(env: Env, items: seq<Json>, artifactId: string, i: nat)
    requires i < |items| && AllGood(env, items, artifactId)
    ensures GoodItem(env, items[i], artifactId)
  {
    if i < |items| - 1 {
      AllGoodAt(env, items[..|items| - 1], artifactId, i);
    }
  }

  lemma AllGoodSnoc(env: Env, items: seq<Json>, artifactId: string, i: nat, good: bool)
    requires i < |items| && AllGood(env, items[..i], artifactId) && good == GoodItem(env, items[i], artifactId)
    ensures good ==> AllGood(env, items[..i + 1], artifactId)
    ensures !good ==> !AllGood(env, items, artifactId)
  {
    assert items[..i + 1][..i] == items[..i];
    if !good && AllGood(env, items, artifactId) {
      AllGoodAt(env, items, artifactId, i);
    }
  }

  predicate GoodEvidenceList(env: Env, items: seq<Json>, artifactId: string)
  {
    && |items| == 3 && AllGood(env, items, artifactId)
    && Distinct(KindsOf(items)) && Elements(KindsOf(items)) == TOOL_KINDS
  }

  function EvidenceFrom(env: Env, v: Json, artifactId: string): Result<seq<string>, Refusal>
  {
    if v.Arr? && GoodEvidenceList(env, v.items, artifactId) then Ok(IdsOf(v.items)) else Err(Refused("evidence"))
  }

  lemma IdentityIsOwnId(env: Env, item: Json, artifactId: string)
    requires GoodItem(env, item, artifactId)
    ensures EvidenceIdentity(env, item.fields, artifactId) == Ok(IdOf(item)) && HexDigest(IdOf(item))
    ensures RequiredDigest(item.fields, "tool_fingerprint").Ok?
  {
  }

  /** The checks of one item that do not depend on the items before it. */
  method CheckItem(env: Env, item: Json, artifactId: string) returns (r: Result<string, Refusal>)
    ensures r == if GoodItem(env, item, artifactId) then Ok(IdOf(item)) else Err(Refused("evidence"))
  {
    if !item.Obj? || !OneOf(Get(item.fields, "kind"), TOOL_KINDS) { return Err(Refused("evidence")); }
    if Get(item.fields, "status") != Str("passed") || Get(item.fields, "passed") != Bool(true) {
      return Err(Refused("evidence"));
    }
    if Get(item.fields, "artifact_id") != Str(artifactId) { return Err(Refused("evidence")); }
    var id := EvidenceIdentity(env, item.fields, artifactId);
    if id.Err? { return Err(Refused("evidence")); }
    IdentityIsOwnId(env, item, artifactId);
    return id;
  }

  lemma NextId(items: seq<Json>, i: nat)
    requires i < |items|
    ensures IdsOf(items)[..i + 1] == IdsOf(items)[..i] + [IdOf(items[i])]
  {
  }

  /** What is known once every item has been looked at. */
  lemma WholeList(items: seq<Json>)
    ensures items[..|items|] == items && KindsOf(items)[..|items|] == KindsOf(items) && IdsOf(items)[..|items|] == IdsOf(items)
  {
  }

  /** The loop that grows the list of evidence ids and the set of kinds. */
  method CollectEvidence(env: Env, v: Json, artifactId: string) returns (r: Result<seq<string>, Refusal>)
    ensures r == EvidenceFrom(env, v, artifactId)
  {
    if !v.Arr? || |v.items| != 3 {
      return Err(Refused("evidence"));
    }
    var items := v.items;
    var ids: seq<string> := [];
    var kinds: set<string> := {};
    for i := 0 to |items|
      invariant AllGood(env, items[..i], artifactId)
      invariant Distinct(KindsOf(items)[..i]) && kinds == Elements(KindsOf(items)[..i])
      invariant ids == IdsOf(items)[..i]
    {
      if KindOf(items[i]) in kinds {
        RepeatedKind(items, i);
        return Err(Refused("evidence"));
      }
      NextKind(items, i);
      NextId(items, i);
      var id := CheckItem(env, items[i], artifactId);
      AllGoodSnoc(env, items, artifactId, i, id.Ok?);
      if id.Err? { return Err(Refused("evidence")); }
      kinds := kinds + {KindOf(items[i])};
      ids := ids + [id.value];
    }
    WholeList(items);
    if kinds != TOOL_KINDS { return Err(Refused("evidence")); }
    return Ok(ids);
  }

  // ---------------------------------------------------------------- the hand-off

  /** What a record id is the digest of. */
  function RecordBody(fingerprint: string, proposalId: string, baseline: string, artifactId: string, ids: seq<string>): Json
  {
    Obj(map[
      "request_fingerprint" := Str(fingerprint), "proposal_id" := Str(proposalId), "baseline_fingerprint" := Str(baseline),
      "status" := Str("succeeded"), "artifact_id" := Str(artifactId), "evidence_ids" := Arr(Strs(ids)),
      "committed" := Bool(true), "rolled_back" := Bool(false), "error" := Null])
  }

  datatype Handoff = Handoff(
    recordId: string, requestFingerprint: string, baseline: string, toolchain: string, artifact: Artifact, evidenceIds: seq<string>)

  predicate ResponseFlags(d: Rec)
  {
    && Get(d, "authority_decision") == Str("allow") && Get(d, "record_status") == Str("succeeded")
    && OneOf(Get(d, "execution_status"), SUCCEEDED) && OneOf(Get(d, "outcome_status"), SUCCEEDED)
    && Get(d, "committed") == Bool(true) && Get(d, "rolled_back") == Bool(false) && Get(d, "error") == Null
  }

  function HandoffFromResponse(env: Env, p: Proposal, d: Rec): Result<Handoff, Refusal>
  {
    var fingerprint :- RequiredDigest(d, "request_fingerprint");
    var baseline :- RequiredDigest(d, "baseline_fingerprint");
    var toolchain :- RequiredDigest(d, "toolchain_fingerprint");
    var recordId :- RequiredDigest(d, "record_id");
    if !Get(d, "artifact").Obj? then Err(Refused("artifact"))
    else
      var artifact :- ArtifactFrom(env, Get(d, "artifact").fields, p, baseline);
      var ids :- EvidenceFrom(env, Get(d, "evidence"), artifact.id);
      if recordId != Digest(env, RecordBody(fingerprint, p.proposalId, baseline, artifact.id, ids)) then Err(Refused("record_id"))
      else Ok(Handoff(recordId, fingerprint, baseline, toolchain, artifact, ids))
  }

  function ApplyRequest(p: Proposal, commandId: string): Rec
  {
    map["organization_id" := Str(p.organizationId), "command_id" := Str(commandId), "proposal_id" := Str(p.proposalId)]
  }

  /** `build_delivery_verification_candidate` for a restored proposal, up to the candidate's own constructor. */
  function BuildHandoff(env: Env, p: Proposal, result: Rec): Result<Handoff, Refusal>
  {
    var request, response := Get(result, "request"), Get(result, "response");
    if Get(result, "proposal_id") != Str(p.proposalId) then Err(Refused("proposal_id"))
    else if Get(result, "proposal_request_fingerprint") != Str(p.requestFingerprint) then Err(Refused("proposal_request_fingerprint"))
    else if Get(result, "applied") != Bool(true) then Err(Refused("applied"))
    else if !request.Obj? || !response.Obj? then Err(Refused("request/response"))
    else
      var commandId :- RequiredText(request.fields, "command_id");
      var d := response.fields;
      if request.fields != ApplyRequest(p, commandId) then Err(Refused("request"))
      else if Get(d, "command_id") != Str(commandId) || Get(d, "proposal_id") != Str(p.proposalId) then Err(Refused("response"))
      else if !ResponseFlags(d) then Err(Refused("status"))
      else HandoffFromResponse(env, p, d)
  }
}
