/** Exactly which apply results the two checks accept, read off the raw response. */
module DeliveryAcceptance {
  import opened Collections
  import opened Orders
  import opened PyText
  import opened CanonicalJson
  import opened PyValues
  import opened RawJson
  import opened StringSort
  import opened Utf8
  import opened ProposalScope
  import opened ProposalRequest
  import opened ApplyVerification
  import opened Delivery
  import opened DeliveryLaws
  import opened RestoreLaws

  /** The text form of the digest of a JSON object. */
  function Address(env: Env, fields: Rec): Json { Str(env.sha256hex(Preimage(Obj(fields)))) }

  // ---------------------------------------------------------------- logs and evidence

  predicate LogAcceptable(env: Env, v: Json, stream: string)
  {
    && v.Obj? && DigestText(Get(v.fields, "artifact_id")) && DigestText(Get(v.fields, "sha256"))
    && Get(v.fields, "byte_count").Int? && Get(v.fields, "byte_count").n >= 0
    && Get(v.fields, "content").Str? && Get(v.fields, "truncated").Bool?
    && Get(v.fields, "artifact_id") == Address(env, map[
         "stream" := Str(stream), "sha256" := Get(v.fields, "sha256"), "byte_count" := Get(v.fields, "byte_count"),
         "content" := Get(v.fields, "content"), "truncated" := Get(v.fields, "truncated")])
    && (Get(v.fields, "truncated") == Bool(false) ==>
          Get(v.fields, "sha256") == Str(env.sha256hex(Encode(Get(v.fields, "content").s))))
  }

  /** A log is accepted when its id addresses its content and, if complete, its digest is that of the content. */
  lemma LogIff(env: Env, v: Json, stream: string)
    ensures LogIdentity(env, v, stream).Ok? <==> LogAcceptable(env, v, stream)
    ensures LogIdentity(env, v, stream).Ok? ==> Get(v.fields, "artifact_id") == Str(LogIdentity(env, v, stream).value)
  {
    if v.Obj? {
      DigestIff(v.fields, "artifact_id");
      DigestIff(v.fields, "sha256");
      LogBodyIs(v.fields, stream);
    }
  }

  lemma LogBodyIs(d: Rec, stream: string)
    ensures Get(d, "sha256").Str? && Get(d, "byte_count").Int? && Get(d, "content").Str? && Get(d, "truncated").Bool? ==>
            LogBody(stream, Get(d, "sha256").s, Get(d, "byte_count").n, Get(d, "content").s, Get(d, "truncated").b) ==
            Obj(map["stream" := Str(stream), "sha256" := Get(d, "sha256"), "byte_count" := Get(d, "byte_count"),
                    "content" := Get(d, "content"), "truncated" := Get(d, "truncated")])
  {
  }

  predicate ToolKind(v: Json) { v == Str("lint") || v == Str("test") || v == Str("build") }

  lemma KindIff(v: Json)
    ensures OneOf(v, TOOL_KINDS) <==> ToolKind(v)
  {
  }

  predicate EvidenceAddressed(env: Env, d: Rec, artifactId: string)
  {
    && DigestText(Get(d, "evidence_id")) && DigestText(Get(d, "tool_fingerprint"))
    && LogAcceptable(env, Get(d, "stdout"), "stdout") && LogAcceptable(env, Get(d, "stderr"), "stderr")
    && CanonicalWord(Get(d, "tool_id")) && CanonicalWord(Get(d, "kind")) && CanonicalWord(Get(d, "status"))
    && Get(d, "evidence_id") == Address(env, map[
         "tool_id" := Get(d, "tool_id"), "kind" := Get(d, "kind"), "tool_fingerprint" := Get(d, "tool_fingerprint"),
         "artifact_id" := Str(artifactId), "status" := Get(d, "status"), "exit_code" := Get(d, "exit_code"),
         "stdout_artifact_id" := Get(Get(d, "stdout").fields, "artifact_id"),
         "stderr_artifact_id" := Get(Get(d, "stderr").fields, "artifact_id")])
  }

  lemma EvidenceAddressedIff(env: Env, d: Rec, artifactId: string)
    ensures EvidenceIdentity(env, d, artifactId).Ok? <==> EvidenceAddressed(env, d, artifactId)
    ensures EvidenceIdentity(env, d, artifactId).Ok? ==> Get(d, "evidence_id") == Str(EvidenceIdentity(env, d, artifactId).value)
  {
    DigestIff(d, "evidence_id");
    DigestIff(d, "tool_fingerprint");
    WordIff(d, "tool_id");
    WordIff(d, "kind");
    WordIff(d, "status");
    LogIff(env, Get(d, "stdout"), "stdout");
    LogIff(env, Get(d, "stderr"), "stderr");
    if PartsGood(env, d) {
      EvidenceIs(env, d, artifactId);
      EvidenceBodyIs(RequiredText(d, "tool_id").value, RequiredText(d, "kind").value, RequiredDigest(d, "tool_fingerprint").value,
        artifactId, RequiredText(d, "status").value, d, LogIdentity(env, Get(d, "stdout"), "stdout").value,
        LogIdentity(env, Get(d, "stderr"), "stderr").value);
    } else {
      NoEvidence(env, d, artifactId);
    }
  }

  predicate PartsGood(env: Env, d: Rec)
  {
    && RequiredDigest(d, "evidence_id").Ok? && RequiredDigest(d, "tool_fingerprint").Ok?
    && LogIdentity(env, Get(d, "stdout"), "stdout").Ok? && LogIdentity(env, Get(d, "stderr"), "stderr").Ok?
    && RequiredText(d, "tool_id").Ok? && RequiredText(d, "kind").Ok? && RequiredText(d, "status").Ok?
  }

  lemma EvidenceIs(env: Env, d: Rec, artifactId: string)
    requires PartsGood(env, d)
    ensures EvidenceIdentity(env, d, artifactId).Ok? <==>
            RequiredDigest(d, "evidence_id").value == Digest(env, EvidenceBody(
              RequiredText(d, "tool_id").value, RequiredText(d, "kind").value, RequiredDigest(d, "tool_fingerprint").value, artifactId,
              RequiredText(d, "status").value, Get(d, "exit_code"), LogIdentity(env, Get(d, "stdout"), "stdout").value,
              LogIdentity(env, Get(d, "stderr"), "stderr").value))
    ensures EvidenceIdentity(env, d, artifactId).Ok? ==> EvidenceIdentity(env, d, artifactId).value == RequiredDigest(d, "evidence_id").value
  {
  }

  lemma NoEvidence(env: Env, d: Rec, artifactId: string)
    requires !PartsGood(env, d)
    ensures EvidenceIdentity(env, d, artifactId).Err?
  {
  }

  lemma EvidenceBodyIs(toolId: string, kind: string, tool: string, artifactId: string, status: string, d: Rec, out: string, err: string)
    requires Get(d, "tool_id") == Str(toolId) && Get(d, "kind") == Str(kind) && Get(d, "tool_fingerprint") == Str(tool) && Get(d, "status") == Str(status)
    ensures EvidenceBody(toolId, kind, tool, artifactId, status, Get(d, "exit_code"), out, err) == Obj(map[
              "tool_id" := Get(d, "tool_id"), "kind" := Get(d, "kind"), "tool_fingerprint" := Get(d, "tool_fingerprint"),
              "artifact_id" := Str(artifactId), "status" := Get(d, "status"), "exit_code" := Get(d, "exit_code"),
              "stdout_artifact_id" := Str(out), "stderr_artifact_id" := Str(err)])
  {
  }

  /** One item of evidence that the delivery check accepts. */
  predicate ItemAcceptable(env: Env, item: Json, artifactId: string)
  {
    && item.Obj? && ToolKind(Get(item.fields, "kind"))
    && Get(item.fields, "status") == Str("passed") && Get(item.fields, "passed") == Bool(true)
    && Get(item.fields, "artifact_id") == Str(artifactId) && EvidenceAddressed(env, item.fields, artifactId)
  }

  lemma ItemIff(env: Env, item: Json, artifactId: string)
    ensures GoodItem(env, item, artifactId) <==> ItemAcceptable(env, item, artifactId)
  {
    if item.Obj? {
      KindIff(Get(item.fields, "kind"));
      EvidenceAddressedIff(env, item.fields, artifactId);
    }
  }

  /** Exactly one item of each kind. */
  predicate OneOfEach(items: seq<Json>)
  {
    && (forall i, j :: 0 <= i < j < |items| ==> KindOf(items[i]) != KindOf(items[j]))
    && (exists i :: 0 <= i < |items| && KindOf(items[i]) == "lint")
    && (exists i :: 0 <= i < |items| && KindOf(items[i]) == "test")
    && (exists i :: 0 <= i < |items| && KindOf(items[i]) == "build")
  }

  lemma EachIff(items: seq<Json>)
    requires forall i :: 0 <= i < |items| ==> KindOf(items[i]) in TOOL_KINDS
    ensures Distinct(KindsOf(items)) && Elements(KindsOf(items)) == TOOL_KINDS <==> OneOfEach(items)
  {
    var ks := KindsOf(items);
    assert forall i :: 0 <= i < |items| ==> ks[i] == KindOf(items[i]);
    if Elements(ks) == TOOL_KINDS {
      assert "lint" in Elements(ks) && "test" in Elements(ks) && "build" in Elements(ks);
    }
    if OneOfEach(items) {
      assert forall k :: k in TOOL_KINDS ==> k in Elements(ks);
      assert forall k :: k in Elements(ks) ==> k in TOOL_KINDS;
    }
  }

  // ---------------------------------------------------------------- files

  predicate FilePresent(d: Rec)
  {
    && Get(d, "exists") == Bool(true) && Get(d, "byte_count").Int? && Get(d, "byte_count").n >= 0
    && DigestText(Get(d, "sha256")) && Get(d, "mode").Int? && Get(d, "mode").n >= 0
  }

  predicate FileAbsent(d: Rec)
  {
    Get(d, "exists") == Bool(false) && Get(d, "byte_count") == Int(0) && Get(d, "sha256") == Null && Get(d, "mode") == Null
  }

  predicate FileAcceptable(v: Json)
  {
    && v.Obj? && CanonicalWord(Get(v.fields, "path"))
    && (Get(v.fields, "path").s == "." || CleanSegments(Get(v.fields, "path").s))
    && (FilePresent(v.fields) || FileAbsent(v.fields))
  }

  /** A manifest entry is accepted when its path is clean and its metadata fits whether the file exists. */
  lemma FileIff(d: Rec)
    ensures FileFrom(d).Ok? <==> FileAcceptable(Obj(d))
    ensures FileFrom(d).Ok? ==>
            var f := FileFrom(d).value;
            && Str(f.path) == Get(d, "path") && Bool(f.present) == Get(d, "exists") && f.sha256 == Get(d, "sha256")
            && Int(f.byteCount) == Get(d, "byte_count") && f.mode == Get(d, "mode")
  {
    WordIff(d, "path");
    if CanonicalWord(Get(d, "path")) { ManifestPathIff(Get(d, "path").s); }
  }

  predicate AllFilesAcceptable(items: seq<Json>) { forall i :: 0 <= i < |items| ==> FileAcceptable(items[i]) }

  lemma AcceptableCons(items: seq<Json>)
    requires items != []
    ensures AllFilesAcceptable(items) <==> FileAcceptable(items[0]) && AllFilesAcceptable(items[1..])
  {
    assert forall i :: 0 < i < |items| ==> items[i] == items[1..][i - 1];
  }

  lemma FilesCons(items: seq<Json>)
    requires items != []
    ensures FilesFrom(items).Ok? <==> items[0].Obj? && FileFrom(items[0].fields).Ok? && FilesFrom(items[1..]).Ok?
  {
  }

  lemma FirstFile(v: Json)
    ensures v.Obj? && FileFrom(v.fields).Ok? <==> FileAcceptable(v)
  {
    if v.Obj? {
      FileIff(v.fields);
      assert v == Obj(v.fields);
    }
  }

  lemma {:induction false} FilesIff(items: seq<Json>)
    ensures FilesFrom(items).Ok? <==> AllFilesAcceptable(items)
  {
    if items != [] {
      FilesIff(items[1..]);
      FilesCons(items);
      FirstFile(items[0]);
      AcceptableCons(items);
    }
  }

  // ---------------------------------------------------------------- the apply response

  predicate ArtifactNames(artifact: Rec, p: Proposal, baseline: Json)
  {
    && DigestText(Get(artifact, "artifact_id")) && Get(artifact, "proposal_id") == Str(p.proposalId)
    && Get(artifact, "diff_sha256") == Str(p.diffSha256) && Get(artifact, "baseline_fingerprint") == baseline
    && Get(artifact, "files").Arr? && Get(artifact, "files").items != []
  }

  /** The manifest lists exactly the touched paths, in any order. */
  predicate CoversPaths(items: seq<Json>, p: Proposal)
  {
    && (forall i :: 0 <= i < |items| ==> items[i].Obj?)
    && multiset(PathTexts(items)) == multiset(p.touchedPaths)
  }

  predicate PassedItem(item: Json, artifactId: Json)
  {
    && item.Obj? && ToolKind(Get(item.fields, "kind"))
    && Get(item.fields, "status") == Str("passed") && Get(item.fields, "passed") == Bool(true)
    && Get(item.fields, "artifact_id") == artifactId
    && DigestText(Get(item.fields, "evidence_id")) && DigestText(Get(item.fields, "tool_fingerprint"))
  }

  predicate AppliedWell(d: Rec, p: Proposal)
  {
    && Done(Get(d, "execution_status")) && Done(Get(d, "outcome_status"))
    && Get(d, "committed") == Bool(true) && Get(d, "rolled_back") == Bool(false) && Get(d, "error") == Null
    && Get(d, "artifact").Obj? && Get(d, "evidence").Arr?
    && var artifact, items := Get(d, "artifact").fields, Get(d, "evidence").items;
    && ArtifactNames(artifact, p, Get(d, "baseline_fingerprint")) && CoversPaths(Get(artifact, "files").items, p)
    && (forall i :: 0 <= i < |items| ==> PassedItem(items[i], Get(artifact, "artifact_id")))
    && OneOfEach(items)
  }

  predicate FailedOpenly(d: Rec)
  {
    && Get(d, "committed") == Bool(false) && Get(d, "rolled_back").Bool? && Get(d, "evidence").Arr?
    && Get(d, "error").Str? && !Blank(Get(d, "error").s)
  }

  predicate ApplyAcceptable(d: Rec, request: Rec, p: Proposal)
  {
    && Get(d, "command_id") == Get(request, "command_id") && Get(d, "proposal_id") == Str(p.proposalId)
    && Get(d, "authority_decision") == Str("allow")
    && DigestText(Get(d, "request_fingerprint")) && DigestText(Get(d, "baseline_fingerprint"))
    && DigestText(Get(d, "toolchain_fingerprint")) && DigestText(Get(d, "record_id"))
    && ((Get(d, "record_status") == Str("succeeded") && AppliedWell(d, p)) || (Get(d, "record_status") == Str("failed") && FailedOpenly(d)))
  }

  lemma GoodEvidenceIff(item: Json, artifactId: Json)
    ensures GoodEvidence(item, artifactId) <==> PassedItem(item, artifactId)
  {
    if item.Obj? {
      KindIff(Get(item.fields, "kind"));
      DigestIff(item.fields, "evidence_id");
      DigestIff(item.fields, "tool_fingerprint");
    }
  }

  lemma SuccessEvidenceIff(items: seq<Json>, artifactId: Json)
    ensures SuccessEvidence(items, artifactId) <==> (forall i :: 0 <= i < |items| ==> PassedItem(items[i], artifactId)) && OneOfEach(items)
  {
    forall i | 0 <= i < |items| ensures GoodEvidence(items[i], artifactId) <==> PassedItem(items[i], artifactId) {
      GoodEvidenceIff(items[i], artifactId);
    }
    if forall i :: 0 <= i < |items| ==> PassedItem(items[i], artifactId) {
      forall i | 0 <= i < |items| ensures KindOf(items[i]) in TOOL_KINDS {
        assert PassedItem(items[i], artifactId);
      }
      EachIff(items);
    }
  }

  lemma GoodArtifactIff(artifact: Rec, p: Proposal, baseline: string)
    ensures GoodArtifact(artifact, p, baseline) <==>
            ArtifactNames(artifact, p, Str(baseline)) && CoversPaths(Get(artifact, "files").items, p)
  {
    DigestIff(artifact, "artifact_id");
    if Get(artifact, "files").Arr? {
      SortIgnoresOrder(PathTexts(Get(artifact, "files").items), p.touchedPaths);
    }
  }

  lemma SucceededIff(d: Rec, p: Proposal, baseline: string)
    requires Get(d, "baseline_fingerprint") == Str(baseline)
    ensures Succeeded(d, p, baseline) <==> AppliedWell(d, p)
  {
    DoneIff(Get(d, "execution_status"));
    DoneIff(Get(d, "outcome_status"));
    if Get(d, "artifact").Obj? && Get(d, "evidence").Arr? {
      GoodArtifactIff(Get(d, "artifact").fields, p, baseline);
      SuccessEvidenceIff(Get(d, "evidence").items, Get(Get(d, "artifact").fields, "artifact_id"));
    }
  }

  /** `_verify_apply_response` accepts exactly these responses. */
  lemma ApplyAcceptedIff(d: Rec, request: Rec, p: Proposal)
    ensures ApplyResponseAccepted(d, request, p) <==> ApplyAcceptable(d, request, p)
  {
    DigestIff(d, "request_fingerprint");
    DigestIff(d, "baseline_fingerprint");
    DigestIff(d, "toolchain_fingerprint");
    DigestIff(d, "record_id");
    RecordStatusIff(Get(d, "record_status"));
    if DigestText(Get(d, "baseline_fingerprint")) { SucceededIff(d, p, RequiredDigest(d, "baseline_fingerprint").value); }
    if Get(d, "error").Str? { StripFacts(Get(d, "error").s); }
  }

  lemma RecordStatusIff(v: Json)
    ensures OneOf(v, {"succeeded", "failed"}) <==> v == Str("succeeded") || v == Str("failed")
  {
  }

  // ---------------------------------------------------------------- the delivery hand-off

  /** The artifact's id addresses the proposal, the diff, the baseline and the manifest sorted by path. */
  predicate ArtifactAddressed(env: Env, artifact: Rec, p: Proposal, baseline: string)
  {
    Get(artifact, "files").Arr? &&
    var items := Get(artifact, "files").items;
    && AllFilesAcceptable(items) && CoversPaths(items, p) && FilesFrom(items).Ok?
    && Get(artifact, "artifact_id") == Address(env, map[
         "proposal_id" := Str(p.proposalId), "diff_sha256" := Str(p.diffSha256), "baseline_fingerprint" := Str(baseline),
         "files" := Arr(FileBodies(SortFiles(FilesFrom(items).value)))])
  }

  lemma ArtifactBodyIs(p: Proposal, baseline: string, files: seq<ArtifactFile>)
    ensures ArtifactBody(p.proposalId, p.diffSha256, baseline, files) == Obj(map[
              "proposal_id" := Str(p.proposalId), "diff_sha256" := Str(p.diffSha256), "baseline_fingerprint" := Str(baseline),
              "files" := Arr(FileBodies(SortFiles(files)))])
  {
  }

  lemma ManifestIff(env: Env, d: Rec, p: Proposal, baseline: string, items: seq<Json>, files: seq<ArtifactFile>)
    requires Get(d, "files") == Arr(items) && FilesFrom(items) == Ok(files)
    ensures ArtifactAddressed(env, d, p, baseline) <==>
            && SortStrings(PathsOf(files)) == SortStrings(p.touchedPaths)
            && Get(d, "artifact_id") == Str(Digest(env, ArtifactBody(p.proposalId, p.diffSha256, baseline, files)))
  {
    FilesIff(items);
    FilePaths(items);
    SortIgnoresOrder(PathsOf(files), p.touchedPaths);
    ArtifactBodyIs(p, baseline, files);
  }

  lemma ArtifactIff(env: Env, artifact: Rec, p: Proposal, baseline: string)
    ensures ArtifactFrom(env, artifact, p, baseline).Ok? <==>
            ArtifactNames(artifact, p, Str(baseline)) && ArtifactAddressed(env, artifact, p, baseline)
    ensures ArtifactFrom(env, artifact, p, baseline).Ok? ==> Get(artifact, "artifact_id") == Str(ArtifactFrom(env, artifact, p, baseline).value.id)
  {
    DigestIff(artifact, "artifact_id");
    if ArtifactNames(artifact, p, Str(baseline)) {
      var items := Get(artifact, "files").items;
      if FilesFrom(items).Ok? {
        ManifestIff(env, artifact, p, baseline, items, FilesFrom(items).value);
        ArtifactChecks(env, artifact, p, baseline, items, FilesFrom(items).value);
      } else {
        NoManifest(env, artifact, p, baseline);
      }
    } else {
      NoArtifactNames(env, artifact, p, baseline);
    }
  }

  lemma ArtifactChecks(env: Env, d: Rec, p: Proposal, baseline: string, items: seq<Json>, files: seq<ArtifactFile>)
    requires ArtifactNames(d, p, Str(baseline)) && RequiredDigest(d, "artifact_id").Ok?
    requires Get(d, "files") == Arr(items) && FilesFrom(items) == Ok(files)
    ensures ArtifactFrom(env, d, p, baseline).Ok? <==>
            && SortStrings(PathsOf(files)) == SortStrings(p.touchedPaths)
            && RequiredDigest(d, "artifact_id").value == Digest(env, ArtifactBody(p.proposalId, p.diffSha256, baseline, files))
    ensures ArtifactFrom(env, d, p, baseline).Ok? ==> ArtifactFrom(env, d, p, baseline).value.id == RequiredDigest(d, "artifact_id").value
  {
  }

  lemma NoManifest(env: Env, d: Rec, p: Proposal, baseline: string)
    requires Get(d, "files").Arr? && FilesFrom(Get(d, "files").items).Err?
    ensures ArtifactFrom(env, d, p, baseline).Err?
  {
  }

  lemma NoArtifactNames(env: Env, d: Rec, p: Proposal, baseline: string)
    requires !ArtifactNames(d, p, Str(baseline))
    ensures ArtifactFrom(env, d, p, baseline).Err?
  {
    DigestIff(d, "artifact_id");
  }

  predicate AllAcceptable(env: Env, items: seq<Json>, artifactId: string)
  {
    items == [] || (AllAcceptable(env, items[..|items| - 1], artifactId) && ItemAcceptable(env, items[|items| - 1], artifactId))
  }

  /** Three acceptable items, one of each kind. */
  predicate EvidenceAcceptable(env: Env, v: Json, artifactId: string)
  {
    v.Arr? && |v.items| == 3 && OneOfEach(v.items) && AllAcceptable(env, v.items, artifactId)
  }

  lemma {:induction false} AllGoodIff(env: Env, items: seq<Json>, artifactId: string)
    ensures AllGood(env, items, artifactId) <==> AllAcceptable(env, items, artifactId)
  {
    if items != [] {
      AllGoodIff(env, items[..|items| - 1], artifactId);
      ItemIff(env, items[|items| - 1], artifactId);
    }
  }

  lemma KindKnown(env: Env, item: Json, artifactId: string)
    requires GoodItem(env, item, artifactId)
    ensures KindOf(item) in TOOL_KINDS
  {
  }

  lemma KindsKnown(env: Env, items: seq<Json>, artifactId: string)
    requires AllGood(env, items, artifactId)
    ensures forall i :: 0 <= i < |items| ==> KindOf(items[i]) in TOOL_KINDS
  {
    forall i | 0 <= i < |items| ensures KindOf(items[i]) in TOOL_KINDS {
      AllGoodAt(env, items, artifactId, i);
      KindKnown(env, items[i], artifactId);
    }
  }

  lemma KindsOnceIff(env: Env, items: seq<Json>, artifactId: string)
    requires AllGood(env, items, artifactId)
    ensures Distinct(KindsOf(items)) && Elements(KindsOf(items)) == TOOL_KINDS <==> OneOfEach(items)
  {
    KindsKnown(env, items, artifactId);
    EachIff(items);
  }

  lemma GoodListIff(env: Env, items: seq<Json>, artifactId: string)
    ensures GoodEvidenceList(env, items, artifactId) <==>
            |items| == 3 && OneOfEach(items) && AllAcceptable(env, items, artifactId)
  {
    AllGoodIff(env, items, artifactId);
    if AllGood(env, items, artifactId) { KindsOnceIff(env, items, artifactId); }
  }

  lemma EvidenceIff(env: Env, v: Json, artifactId: string)
    ensures EvidenceFrom(env, v, artifactId).Ok? <==> EvidenceAcceptable(env, v, artifactId)
    ensures EvidenceFrom(env, v, artifactId).Ok? ==> EvidenceFrom(env, v, artifactId).value == IdsOf(v.items)
  {
    if v.Arr? { GoodListIff(env, v.items, artifactId); }
  }

  lemma RecordBodyIs(d: Rec, p: Proposal, fingerprint: string, baseline: string, artifactId: string, ids: seq<string>)
    requires Get(d, "request_fingerprint") == Str(fingerprint) && Get(d, "baseline_fingerprint") == Str(baseline)
    ensures RecordBody(fingerprint, p.proposalId, baseline, artifactId, ids) == Obj(map[
              "request_fingerprint" := Get(d, "request_fingerprint"), "proposal_id" := Str(p.proposalId),
              "baseline_fingerprint" := Get(d, "baseline_fingerprint"), "status" := Str("succeeded"),
              "artifact_id" := Str(artifactId), "evidence_ids" := Arr(Strs(ids)),
              "committed" := Bool(true), "rolled_back" := Bool(false), "error" := Null])
  {
  }

  /** The record's id addresses the request, the proposal, the baseline, the artifact and the evidence in order. */
  predicate RecordAddressed(env: Env, d: Rec, p: Proposal)
  {
    && Get(d, "artifact").Obj? && Get(d, "evidence").Arr?
    && Get(d, "record_id") == Address(env, map[
         "request_fingerprint" := Get(d, "request_fingerprint"), "proposal_id" := Str(p.proposalId),
         "baseline_fingerprint" := Get(d, "baseline_fingerprint"), "status" := Str("succeeded"),
         "artifact_id" := Get(Get(d, "artifact").fields, "artifact_id"), "evidence_ids" := Arr(Strs(IdsOf(Get(d, "evidence").items))),
         "committed" := Bool(true), "rolled_back" := Bool(false), "error" := Null])
  }

  predicate DigestsGiven(d: Rec)
  {
    && DigestText(Get(d, "request_fingerprint")) && DigestText(Get(d, "baseline_fingerprint"))
    && DigestText(Get(d, "toolchain_fingerprint")) && DigestText(Get(d, "record_id"))
  }

  predicate ContentAcceptable(env: Env, d: Rec, p: Proposal)
  {
    && DigestsGiven(d) && Get(d, "artifact").Obj?
    && var artifact := Get(d, "artifact").fields;
    && ArtifactNames(artifact, p, Get(d, "baseline_fingerprint"))
    && ArtifactAddressed(env, artifact, p, Get(d, "baseline_fingerprint").s)
    && EvidenceAcceptable(env, Get(d, "evidence"), Get(artifact, "artifact_id").s)
    && RecordAddressed(env, d, p)
  }

  lemma DigestsIff(d: Rec)
    ensures DigestsGiven(d) <==>
            && RequiredDigest(d, "request_fingerprint").Ok? && RequiredDigest(d, "baseline_fingerprint").Ok?
            && RequiredDigest(d, "toolchain_fingerprint").Ok? && RequiredDigest(d, "record_id").Ok?
  {
    DigestIff(d, "request_fingerprint");
    DigestIff(d, "baseline_fingerprint");
    DigestIff(d, "toolchain_fingerprint");
    DigestIff(d, "record_id");
  }

  lemma ContentIff(env: Env, d: Rec, p: Proposal)
    ensures HandoffFromResponse(env, p, d).Ok? <==> ContentAcceptable(env, d, p)
  {
    DigestsIff(d);
    if DigestsGiven(d) && Get(d, "artifact").Obj? {
      DigestIff(d, "request_fingerprint");
      DigestIff(d, "baseline_fingerprint");
      DigestIff(d, "record_id");
      var fingerprint, baseline := RequiredDigest(d, "request_fingerprint").value, RequiredDigest(d, "baseline_fingerprint").value;
      var artifact := Get(d, "artifact").fields;
      ArtifactIff(env, artifact, p, baseline);
      if ArtifactFrom(env, artifact, p, baseline).Ok? {
        var id := ArtifactFrom(env, artifact, p, baseline).value.id;
        EvidenceIff(env, Get(d, "evidence"), id);
        if EvidenceFrom(env, Get(d, "evidence"), id).Ok? {
          RecordBodyIs(d, p, fingerprint, baseline, id, IdsOf(Get(d, "evidence").items));
        }
        HandoffIs(env, d, p, fingerprint, baseline, id);
      } else {
        NoContent(env, d, p);
      }
    } else {
      NoContent(env, d, p);
    }
  }

  lemma HandoffIs(env: Env, d: Rec, p: Proposal, fingerprint: string, baseline: string, id: string)
    requires DigestsGiven(d) && RequiredDigest(d, "request_fingerprint") == Ok(fingerprint)
    requires RequiredDigest(d, "baseline_fingerprint") == Ok(baseline) && Get(d, "artifact").Obj?
    requires ArtifactFrom(env, Get(d, "artifact").fields, p, baseline).Ok? && ArtifactFrom(env, Get(d, "artifact").fields, p, baseline).value.id == id
    ensures HandoffFromResponse(env, p, d).Ok? <==>
            && EvidenceFrom(env, Get(d, "evidence"), id).Ok?
            && Get(d, "record_id") == Str(Digest(env, RecordBody(fingerprint, p.proposalId, baseline, id, EvidenceFrom(env, Get(d, "evidence"), id).value)))
  {
    DigestsIff(d);
    DigestIff(d, "record_id");
  }

  lemma NoContent(env: Env, d: Rec, p: Proposal)
    requires !DigestsGiven(d) || !Get(d, "artifact").Obj?
             || ArtifactFrom(env, Get(d, "artifact").fields, p, RequiredDigest(d, "baseline_fingerprint").value).Err?
    ensures HandoffFromResponse(env, p, d).Err?
  {
    DigestsIff(d);
  }

  predicate RequestNames(request: Rec, p: Proposal)
  {
    && CanonicalWord(Get(request, "command_id"))
    && request == map["organization_id" := Str(p.organizationId), "command_id" := Get(request, "command_id"), "proposal_id" := Str(p.proposalId)]
  }

  predicate AllowedAndCommitted(d: Rec)
  {
    && Get(d, "authority_decision") == Str("allow") && Get(d, "record_status") == Str("succeeded")
    && Done(Get(d, "execution_status")) && Done(Get(d, "outcome_status"))
    && Get(d, "committed") == Bool(true) && Get(d, "rolled_back") == Bool(false) && Get(d, "error") == Null
  }

  predicate ResultDeliverable(env: Env, p: Proposal, result: Rec)
  {
    && Get(result, "proposal_id") == Str(p.proposalId)
    && Get(result, "proposal_request_fingerprint") == Str(p.requestFingerprint)
    && Get(result, "applied") == Bool(true) && Get(result, "request").Obj? && Get(result, "response").Obj?
    && var request, d := Get(result, "request").fields, Get(result, "response").fields;
    && RequestNames(request, p)
    && Get(d, "command_id") == Get(request, "command_id") && Get(d, "proposal_id") == Str(p.proposalId)
    && AllowedAndCommitted(d) && ContentAcceptable(env, d, p)
  }

  lemma FlagsIff(d: Rec)
    ensures ResponseFlags(d) <==> AllowedAndCommitted(d)
  {
    DoneIff(Get(d, "execution_status"));
    DoneIff(Get(d, "outcome_status"));
  }

  lemma RequestIff(request: Rec, p: Proposal)
    ensures RequiredText(request, "command_id").Ok? && request == ApplyRequest(p, RequiredText(request, "command_id").value) <==>
            RequestNames(request, p)
  {
    WordIff(request, "command_id");
  }

  lemma HandoffSteps(env: Env, p: Proposal, result: Rec, request: Rec, d: Rec)
    requires Get(result, "request") == Obj(request) && Get(result, "response") == Obj(d)
    ensures BuildHandoff(env, p, result).Ok? <==>
            && Get(result, "proposal_id") == Str(p.proposalId)
            && Get(result, "proposal_request_fingerprint") == Str(p.requestFingerprint) && Get(result, "applied") == Bool(true)
            && RequiredText(request, "command_id").Ok? && request == ApplyRequest(p, RequiredText(request, "command_id").value)
            && Get(d, "command_id") == Str(RequiredText(request, "command_id").value) && Get(d, "proposal_id") == Str(p.proposalId)
            && ResponseFlags(d) && HandoffFromResponse(env, p, d).Ok?
  {
  }

  /** `build_delivery_verification_candidate` accepts exactly these results, up to the candidate's own constructor. */
  lemma DeliveredIff(env: Env, p: Proposal, result: Rec)
    ensures BuildHandoff(env, p, result).Ok? <==> ResultDeliverable(env, p, result)
  {
    if Get(result, "request").Obj? && Get(result, "response").Obj? {
      var request, d := Get(result, "request").fields, Get(result, "response").fields;
      WordIff(request, "command_id");
      RequestIff(request, p);
      FlagsIff(d);
      ContentIff(env, d, p);
      HandoffSteps(env, p, result, request, d);
    }
  }

  // ---------------------------------------------------------------- what is handed on

  /** The entry and the manifest record say the same. */
  predicate SaysFile(v: Json, f: ArtifactFile)
  {
    && v.Obj? && Get(v.fields, "path") == Str(f.path) && Get(v.fields, "exists") == Bool(f.present)
    && Get(v.fields, "sha256") == f.sha256 && Get(v.fields, "byte_count") == Int(f.byteCount)
    && Get(v.fields, "mode") == f.mode
  }

  lemma FileSays(v: Json)
    requires v.Obj? && FileFrom(v.fields).Ok?
    ensures SaysFile(v, FileFrom(v.fields).value)
  {
    WordIff(v.fields, "path");
  }

  lemma {:induction false} FilesSay(items: seq<Json>)
    requires FilesFrom(items).Ok?
    ensures var files := FilesFrom(items).value;
            |files| == |items| && forall i :: 0 <= i < |files| ==> SaysFile(items[i], files[i])
  {
    if items != [] {
      FileSays(items[0]);
      FilesSay(items[1..]);
      var rest := FilesFrom(items[1..]).value;
      var files := FilesFrom(items).value;
      assert files == [FileFrom(items[0].fields).value] + rest;
      assert forall i :: 0 < i < |items| ==> items[i] == items[1..][i - 1] && files[i] == rest[i - 1];
    }
  }

  lemma ArtifactSays(env: Env, d: Rec, p: Proposal, baseline: string)
    requires ArtifactFrom(env, d, p, baseline).Ok?
    ensures var a := ArtifactFrom(env, d, p, baseline).value;
            && Get(d, "artifact_id") == Str(a.id) && Get(d, "files").Arr? && FilesFrom(Get(d, "files").items) == Ok(a.files)
  {
    DigestIff(d, "artifact_id");
  }

  lemma EvidenceIdsSay(env: Env, v: Json, artifactId: string)
    requires EvidenceFrom(env, v, artifactId).Ok?
    ensures var ids := EvidenceFrom(env, v, artifactId).value;
            && v.Arr? && |ids| == |v.items| == 3
            && forall i :: 0 <= i < 3 ==> v.items[i].Obj? && Get(v.items[i].fields, "evidence_id") == Str(ids[i])
  {
    forall i | 0 <= i < |v.items| ensures v.items[i].Obj? && Get(v.items[i].fields, "evidence_id") == Str(IdOf(v.items[i])) {
      AllGoodAt(env, v.items, artifactId, i);
      IdentityIsOwnId(env, v.items[i], artifactId);
      EvidenceAddressedIff(env, v.items[i].fields, artifactId);
    }
  }

  lemma HandoffParts(env: Env, p: Proposal, d: Rec)
    requires HandoffFromResponse(env, p, d).Ok?
    ensures var h := HandoffFromResponse(env, p, d).value;
            && RequiredDigest(d, "record_id") == Ok(h.recordId)
            && RequiredDigest(d, "request_fingerprint") == Ok(h.requestFingerprint)
            && RequiredDigest(d, "baseline_fingerprint") == Ok(h.baseline)
            && RequiredDigest(d, "toolchain_fingerprint") == Ok(h.toolchain)
            && Get(d, "artifact").Obj? && ArtifactFrom(env, Get(d, "artifact").fields, p, h.baseline) == Ok(h.artifact)
            && EvidenceFrom(env, Get(d, "evidence"), h.artifact.id) == Ok(h.evidenceIds)
  {
  }

  lemma HandedDigests(env: Env, p: Proposal, d: Rec)
    requires HandoffFromResponse(env, p, d).Ok?
    ensures var h := HandoffFromResponse(env, p, d).value;
            && Get(d, "record_id") == Str(h.recordId) && Get(d, "request_fingerprint") == Str(h.requestFingerprint)
            && Get(d, "baseline_fingerprint") == Str(h.baseline) && Get(d, "toolchain_fingerprint") == Str(h.toolchain)
  {
    HandoffParts(env, p, d);
    DigestIff(d, "record_id");
    DigestIff(d, "request_fingerprint");
    DigestIff(d, "baseline_fingerprint");
    DigestIff(d, "toolchain_fingerprint");
  }

  lemma HandedContent(env: Env, p: Proposal, d: Rec)
    requires HandoffFromResponse(env, p, d).Ok?
    ensures var h := HandoffFromResponse(env, p, d).value;
            && Get(d, "artifact").Obj? && Get(Get(d, "artifact").fields, "artifact_id") == Str(h.artifact.id)
            && FilesHandedOn(Get(Get(d, "artifact").fields, "files"), h.artifact.files)
            && IdsHandedOn(Get(d, "evidence"), h.evidenceIds)
  {
    var h := HandoffFromResponse(env, p, d).value;
    HandoffParts(env, p, d);
    ArtifactSays(env, Get(d, "artifact").fields, p, h.baseline);
    FilesSay(Get(Get(d, "artifact").fields, "files").items);
    EvidenceIdsSay(env, Get(d, "evidence"), h.artifact.id);
  }

  lemma HandedOn(env: Env, p: Proposal, result: Rec)
    requires BuildHandoff(env, p, result).Ok? && Get(result, "response").Obj?
    ensures BuildHandoff(env, p, result) == HandoffFromResponse(env, p, Get(result, "response").fields)
  {
  }

  /** Every field that is handed on is the response's own: four digests, the artifact with each of its files, three evidence ids. */
  lemma DeliveredFields(env: Env, p: Proposal, result: Rec)
    requires BuildHandoff(env, p, result).Ok? && Get(result, "response").Obj?
    ensures var h, d := BuildHandoff(env, p, result).value, Get(result, "response").fields;
            && Get(d, "record_id") == Str(h.recordId) && Get(d, "request_fingerprint") == Str(h.requestFingerprint)
            && Get(d, "baseline_fingerprint") == Str(h.baseline) && Get(d, "toolchain_fingerprint") == Str(h.toolchain)
            && Get(d, "artifact").Obj? && Get(Get(d, "artifact").fields, "artifact_id") == Str(h.artifact.id)
            && FilesHandedOn(Get(Get(d, "artifact").fields, "files"), h.artifact.files)
            && IdsHandedOn(Get(d, "evidence"), h.evidenceIds)
  {
    HandedOn(env, p, result);
    HandedDigests(env, p, Get(result, "response").fields);
    HandedContent(env, p, Get(result, "response").fields);
  }

  predicate FilesHandedOn(v: Json, files: seq<ArtifactFile>)
  {
    v.Arr? && |files| == |v.items| && forall i :: 0 <= i < |files| ==> SaysFile(v.items[i], files[i])
  }

  predicate IdsHandedOn(v: Json, ids: seq<string>)
  {
    && v.Arr? && |ids| == |v.items| == 3
    && forall i :: 0 <= i < |ids| ==> v.items[i].Obj? && Get(v.items[i].fields, "evidence_id") == Str(ids[i])
  }
}
