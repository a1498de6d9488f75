/** What the delivery check guarantees: it refines the apply check, and its digests pin the content. */
module DeliveryLaws {
  import opened Collections
  import opened CanonicalJson
  import opened PyValues
  import opened RawJson
  import opened ProposalRequest
  import opened ApplyVerification
  import opened Delivery
  import opened Utf8

  // ---------------------------------------------------------------- refinement

  lemma FilePath(d: Rec)
    requires FileFrom(d).Ok?
    ensures PyStr(Get(d, "path")) == FileFrom(d).value.path
  {
  }

  lemma {:induction false} FileAt(items: seq<Json>, i: nat)
    requires FilesFrom(items).Ok? && i < |items|
    ensures |FilesFrom(items).value| == |items|
    ensures items[i].Obj? && FileFrom(items[i].fields) == Ok(FilesFrom(items).value[i])
  {
    if i > 0 {
      FileAt(items[1..], i - 1);
    } else if |items| > 1 {
      FileAt(items[1..], 0);
    }
  }

  lemma FilePaths(items: seq<Json>)
    requires FilesFrom(items).Ok?
    ensures (forall i :: 0 <= i < |items| ==> items[i].Obj?) && PathTexts(items) == PathsOf(FilesFrom(items).value)
  {
    var files := FilesFrom(items).value;
    if items != [] { FileAt(items, 0); }
    forall i | 0 <= i < |items| ensures items[i].Obj? && PathTexts(items)[i] == PathsOf(files)[i] {
      FileAt(items, i);
      FilePath(items[i].fields);
    }
  }

  lemma ArtifactRefines(env: Env, d: Rec, p: Proposal, baseline: string)
    requires ArtifactFrom(env, d, p, baseline).Ok?
    ensures GoodArtifact(d, p, baseline)
    ensures Get(d, "artifact_id") == Str(ArtifactFrom(env, d, p, baseline).value.id)
  {
    FilePaths(Get(d, "files").items);
  }

  lemma ItemRefines(env: Env, item: Json, artifactId: string)
    requires GoodItem(env, item, artifactId)
    ensures GoodEvidence(item, Str(artifactId))
  {
    IdentityIsOwnId(env, item, artifactId);
  }

  lemma EvidenceRefines(env: Env, items: seq<Json>, artifactId: string)
    requires GoodEvidenceList(env, items, artifactId)
    ensures SuccessEvidence(items, Str(artifactId))
  {
    forall i | 0 <= i < |items| ensures GoodEvidence(items[i], Str(artifactId)) {
      AllGoodAt(env, items, artifactId, i);
      ItemRefines(env, items[i], artifactId);
    }
  }

  /** The parts of an accepted response. */
  lemma HandoffShape(env: Env, p: Proposal, d: Rec)
    requires HandoffFromResponse(env, p, d).Ok?
    ensures var h := HandoffFromResponse(env, p, d).value;
            && RequiredDigest(d, "request_fingerprint") == Ok(h.requestFingerprint)
            && RequiredDigest(d, "baseline_fingerprint") == Ok(h.baseline)
            && RequiredDigest(d, "toolchain_fingerprint") == Ok(h.toolchain)
            && RequiredDigest(d, "record_id") == Ok(h.recordId)
            && Get(d, "artifact").Obj? && ArtifactFrom(env, Get(d, "artifact").fields, p, h.baseline) == Ok(h.artifact)
            && EvidenceFrom(env, Get(d, "evidence"), h.artifact.id) == Ok(h.evidenceIds)
            && h.recordId == Digest(env, RecordBody(h.requestFingerprint, p.proposalId, h.baseline, h.artifact.id, h.evidenceIds))
  {
  }

  lemma BuildShape(env: Env, p: Proposal, result: Rec)
    requires BuildHandoff(env, p, result).Ok?
    ensures Get(result, "request").Obj? && Get(result, "response").Obj?
    ensures var request, d := Get(result, "request").fields, Get(result, "response").fields;
            && Get(d, "command_id") == Get(request, "command_id") && Get(d, "proposal_id") == Str(p.proposalId)
            && ResponseFlags(d) && HandoffFromResponse(env, p, d) == BuildHandoff(env, p, result)
  {
  }

  /** Every result the delivery check accepts carries a response the apply check accepts too. */
  lemma DeliveryRefinesApply(env: Env, p: Proposal, result: Rec)
    requires BuildHandoff(env, p, result).Ok?
    ensures Get(result, "request").Obj? && Get(result, "response").Obj?
    ensures ApplyResponseAccepted(Get(result, "response").fields, Get(result, "request").fields, p)
  {
    BuildShape(env, p, result);
    var d := Get(result, "response").fields;
    HandoffShape(env, p, d);
    var h := HandoffFromResponse(env, p, d).value;
    ArtifactRefines(env, Get(d, "artifact").fields, p, h.baseline);
    EvidenceRefines(env, Get(d, "evidence").items, h.artifact.id);
    assert Succeeded(d, p, h.baseline);
  }

  // ---------------------------------------------------------------- digests pin content

  /** The digest does not collide on these two values. */
  predicate NoCollision(env: Env, v: Json, w: Json)
  {
    env.sha256hex(Preimage(v)) == env.sha256hex(Preimage(w)) ==> Preimage(v) == Preimage(w)
  }

  lemma SameDigest(env: Env, v: Json, w: Json)
    requires NoCollision(env, v, w) && Digest(env, v) == Digest(env, w)
    ensures v == w
  {
    PreimageInjective(v, w);
  }

  function RecordOf(h: Handoff, p: Proposal): Json
  {
    RecordBody(h.requestFingerprint, p.proposalId, h.baseline, h.artifact.id, h.evidenceIds)
  }

  function ArtifactOf(h: Handoff, p: Proposal): Json
  {
    ArtifactBody(p.proposalId, p.diffSha256, h.baseline, h.artifact.files)
  }

  lemma RecordFields(f: string, p: string, b: string, a: string, ids: seq<string>)
    ensures var m := RecordBody(f, p, b, a, ids).fields;
            && Get(m, "request_fingerprint") == Str(f) && Get(m, "proposal_id") == Str(p)
            && Get(m, "baseline_fingerprint") == Str(b) && Get(m, "artifact_id") == Str(a)
            && Get(m, "evidence_ids") == Arr(Strs(ids)) && Texts(Strs(ids)) == ids
  {
    TextsOfStrs(ids);
  }

  lemma ArtifactFields(p: string, d: string, b: string, files: seq<ArtifactFile>)
    ensures var m := ArtifactBody(p, d, b, files).fields;
            && Get(m, "diff_sha256") == Str(d)
            && Get(m, "files") == Arr(FileBodies(SortFiles(files)))
  {
  }

  lemma FileFields(f: ArtifactFile)
    ensures var m := FileBody(f).fields;
            && Get(m, "path") == Str(f.path) && Get(m, "exists") == Bool(f.present) && Get(m, "sha256") == f.sha256
            && Get(m, "byte_count") == Int(f.byteCount) && Get(m, "mode") == f.mode
  {
  }

  lemma SameManifest(a: seq<ArtifactFile>, b: seq<ArtifactFile>)
    requires FileBodies(a) == FileBodies(b)
    ensures a == b
  {
    assert |a| == |FileBodies(a)| && |b| == |FileBodies(b)|;
    forall i | 0 <= i < |a| ensures a[i] == b[i] {
      assert FileBodies(a)[i] == FileBody(a[i]) && FileBodies(b)[i] == FileBody(b[i]);
      FileFields(a[i]);
      FileFields(b[i]);
    }
  }

  /** Two accepted results with the same record id, absent collisions on what they hash, are the same delivery. */
  lemma RecordPinsDelivery(env: Env, p: Proposal, d: Rec, q: Proposal, e: Rec)
    requires HandoffFromResponse(env, p, d).Ok? && HandoffFromResponse(env, q, e).Ok?
    requires var h, k := HandoffFromResponse(env, p, d).value, HandoffFromResponse(env, q, e).value;
             && h.recordId == k.recordId
             && NoCollision(env, RecordOf(h, p), RecordOf(k, q)) && NoCollision(env, ArtifactOf(h, p), ArtifactOf(k, q))
    ensures var h, k := HandoffFromResponse(env, p, d).value, HandoffFromResponse(env, q, e).value;
            && p.proposalId == q.proposalId && p.diffSha256 == q.diffSha256
            && h.requestFingerprint == k.requestFingerprint && h.baseline == k.baseline
            && h.artifact.id == k.artifact.id && h.evidenceIds == k.evidenceIds
            && SortFiles(h.artifact.files) == SortFiles(k.artifact.files)
  {
    HandoffShape(env, p, d);
    HandoffShape(env, q, e);
    var h, k := HandoffFromResponse(env, p, d).value, HandoffFromResponse(env, q, e).value;
    SameRecord(env, p, h, q, k);
    ArtifactIdIsDigest(env, Get(d, "artifact").fields, p, h.baseline);
    ArtifactIdIsDigest(env, Get(e, "artifact").fields, q, k.baseline);
    SameArtifact(env, p, h, q, k);
  }

  lemma SameRecord(env: Env, p: Proposal, h: Handoff, q: Proposal, k: Handoff)
    requires h.recordId == Digest(env, RecordOf(h, p)) && k.recordId == Digest(env, RecordOf(k, q))
    requires h.recordId == k.recordId && NoCollision(env, RecordOf(h, p), RecordOf(k, q))
    ensures p.proposalId == q.proposalId && h.requestFingerprint == k.requestFingerprint && h.baseline == k.baseline
    ensures h.artifact.id == k.artifact.id && h.evidenceIds == k.evidenceIds
  {
    SameDigest(env, RecordOf(h, p), RecordOf(k, q));
    RecordFields(h.requestFingerprint, p.proposalId, h.baseline, h.artifact.id, h.evidenceIds);
    RecordFields(k.requestFingerprint, q.proposalId, k.baseline, k.artifact.id, k.evidenceIds);
  }

  lemma AddressedIsDigest(env: Env, p: Proposal, baseline: string, a: Artifact)
    requires AddressedArtifact(env, p, baseline, a).Ok?
    ensures AddressedArtifact(env, p, baseline, a) == Ok(a)
    ensures a.id == Digest(env, ArtifactBody(p.proposalId, p.diffSha256, baseline, a.files))
  {
  }

  /** An accepted artifact went through the address check, whatever came before it. */
  lemma ArtifactWasAddressed(env: Env, d: Rec, p: Proposal, baseline: string)
    requires ArtifactFrom(env, d, p, baseline).Ok?
    ensures RequiredDigest(d, "artifact_id").Ok? && Get(d, "files").Arr? && FilesFrom(Get(d, "files").items).Ok?
    ensures ArtifactFrom(env, d, p, baseline) ==
            AddressedArtifact(env, p, baseline, Artifact(RequiredDigest(d, "artifact_id").value, FilesFrom(Get(d, "files").items).value))
  {
  }

  lemma ArtifactIdIsDigest(env: Env, d: Rec, p: Proposal, baseline: string)
    requires ArtifactFrom(env, d, p, baseline).Ok?
    ensures var a := ArtifactFrom(env, d, p, baseline).value;
            a.id == Digest(env, ArtifactBody(p.proposalId, p.diffSha256, baseline, a.files))
  {
    ArtifactWasAddressed(env, d, p, baseline);
    AddressedIsDigest(env, p, baseline,
      Artifact(RequiredDigest(d, "artifact_id").value, FilesFrom(Get(d, "files").items).value));
  }

  lemma SameArtifact(env: Env, p: Proposal, h: Handoff, q: Proposal, k: Handoff)
    requires h.artifact.id == Digest(env, ArtifactOf(h, p)) && k.artifact.id == Digest(env, ArtifactOf(k, q))
    requires h.artifact.id == k.artifact.id && NoCollision(env, ArtifactOf(h, p), ArtifactOf(k, q))
    ensures p.diffSha256 == q.diffSha256 && SortFiles(h.artifact.files) == SortFiles(k.artifact.files)
  {
    SameDigest(env, ArtifactOf(h, p), ArtifactOf(k, q));
    ArtifactFields(p.proposalId, p.diffSha256, h.baseline, h.artifact.files);
    ArtifactFields(q.proposalId, q.diffSha256, k.baseline, k.artifact.files);
    SameManifest(SortFiles(h.artifact.files), SortFiles(k.artifact.files));
  }

  // ---------------------------------------------------------------- the proposal behind its id

  function ProposalOf(p: Proposal): Json
  {
    ProposalBody(p.requestFingerprint, p.providerId, p.diffSha256, p.touchedPaths, p.changedLines)
  }

  lemma ProposalFields(f: string, p: string, d: string, touched: seq<string>, lines: int)
    ensures var m := ProposalBody(f, p, d, touched, lines).fields;
            && Get(m, "request_fingerprint") == Str(f) && Get(m, "provider_id") == Str(p) && Get(m, "diff_sha256") == Str(d)
            && Get(m, "touched_paths") == Arr(Strs(touched)) && Texts(Strs(touched)) == touched
            && Get(m, "changed_lines") == Int(lines)
  {
    TextsOfStrs(touched);
  }

  lemma RestoredIdIsDigest(env: Env, up: Upstream, r: Restored, fingerprint: string, d: Rec)
    requires RestoreArtifact(env, up, r, fingerprint, d).Ok?
    ensures var p := RestoreArtifact(env, up, r, fingerprint, d).value;
            p.proposalId == Digest(env, ProposalOf(p)) && p.diffSha256 == TextDigest(env, p.unifiedDiff)
  {
    PatchIsAddressed(env, up, r, fingerprint, RequiredDigest(d, "proposal_id").value, RequiredText(d, "provider_id").value,
      RequiredDigest(d, "diff_sha256").value, Get(d, "unified_diff"), Get(d, "touched_paths"), Get(d, "changed_lines"));
  }

  lemma PatchIsAddressed(env: Env, up: Upstream, r: Restored, fingerprint: string, id: string, provider: string, diff: string,
                         unified: Json, raw: Json, lines: Json)
    ensures var result := RestorePatch(env, up, r, fingerprint, id, provider, diff, unified, raw, lines);
            result.Ok? ==>
            && result.value.proposalId == Digest(env, ProposalOf(result.value))
            && result.value.diffSha256 == TextDigest(env, result.value.unifiedDiff)
  {
  }

  /** A restored proposal is content-addressed, whatever chain it came from. */
  lemma RestoredProposal(env: Env, up: Upstream, plan: Rec, result: Rec)
    requires RestoreProposal(env, up, plan, result).Ok?
    ensures var p := RestoreProposal(env, up, plan, result).value;
            p.proposalId == Digest(env, ProposalOf(p)) && p.diffSha256 == TextDigest(env, p.unifiedDiff)
  {
    var d := Get(result, "response").fields;
    RestoredIdIsDigest(env, up, RestoreRequest(up, plan, Get(result, "request").fields).value,
      RequiredDigest(d, "request_fingerprint").value, Get(d, "proposal").fields);
  }

  /** Restored proposals with the same id, absent a collision, are the same patch from the same request. */
  lemma ProposalIdPinsPatch(env: Env, p: Proposal, q: Proposal)
    requires p.proposalId == Digest(env, ProposalOf(p)) && q.proposalId == Digest(env, ProposalOf(q))
    requires p.proposalId == q.proposalId && NoCollision(env, ProposalOf(p), ProposalOf(q))
    ensures p.requestFingerprint == q.requestFingerprint && p.providerId == q.providerId
    ensures p.diffSha256 == q.diffSha256 && p.touchedPaths == q.touchedPaths && p.changedLines == q.changedLines
  {
    SameDigest(env, ProposalOf(p), ProposalOf(q));
    ProposalFields(p.requestFingerprint, p.providerId, p.diffSha256, p.touchedPaths, p.changedLines);
    ProposalFields(q.requestFingerprint, q.providerId, q.diffSha256, q.touchedPaths, q.changedLines);
  }

  /** The whole chain: equal record ids of two accepted chains force the same patch and the same delivery. */
  lemma ChainPinsDelivery(env: Env, up: Upstream, plan: Rec, proposal: Rec, result: Rec,
                          up': Upstream, plan': Rec, proposal': Rec, result': Rec)
    requires RestoreProposal(env, up, plan, proposal).Ok? && RestoreProposal(env, up', plan', proposal').Ok?
    requires var p, q := RestoreProposal(env, up, plan, proposal).value, RestoreProposal(env, up', plan', proposal').value;
             && BuildHandoff(env, p, result).Ok? && BuildHandoff(env, q, result').Ok?
             && var h, k := BuildHandoff(env, p, result).value, BuildHandoff(env, q, result').value;
             && h.recordId == k.recordId
             && NoCollision(env, RecordOf(h, p), RecordOf(k, q)) && NoCollision(env, ArtifactOf(h, p), ArtifactOf(k, q))
             && NoCollision(env, ProposalOf(p), ProposalOf(q))
    ensures var p, q := RestoreProposal(env, up, plan, proposal).value, RestoreProposal(env, up', plan', proposal').value;
            var h, k := BuildHandoff(env, p, result).value, BuildHandoff(env, q, result').value;
            && p.proposalId == q.proposalId && p.touchedPaths == q.touchedPaths && p.diffSha256 == q.diffSha256
            && p.providerId == q.providerId && p.changedLines == q.changedLines
            && h.baseline == k.baseline && h.evidenceIds == k.evidenceIds
            && SortFiles(h.artifact.files) == SortFiles(k.artifact.files)
  {
    RestoredProposal(env, up, plan, proposal);
    RestoredProposal(env, up', plan', proposal');
    var p, q := RestoreProposal(env, up, plan, proposal).value, RestoreProposal(env, up', plan', proposal').value;
    BuildShape(env, p, result);
    BuildShape(env, q, result');
    RecordPinsDelivery(env, p, Get(result, "response").fields, q, Get(result', "response").fields);
    ProposalIdPinsPatch(env, p, q);
  }

  // ---------------------------------------------------------------- the evidence behind its ids

  function TextAt(d: Rec, key: string): string { if Get(d, key).Str? then Get(d, key).s else "" }

  function FieldsAt(d: Rec, key: string): Rec { if Get(d, key).Obj? then Get(d, key).fields else map[] }

  /** What the id of an evidence log is the digest of. */
  function LogOf(raw: Rec, stream: string): Json
  {
    var count, truncated := Get(raw, "byte_count"), Get(raw, "truncated");
    LogBody(stream, TextAt(raw, "sha256"), if count.Int? then count.n else 0, TextAt(raw, "content"), truncated == Bool(true))
  }

  /** What the id of an evidence item is the digest of. */
  function EvidenceOf(d: Rec, artifactId: string): Json
  {
    EvidenceBody(TextAt(d, "tool_id"), TextAt(d, "kind"), TextAt(d, "tool_fingerprint"), artifactId, TextAt(d, "status"),
      Get(d, "exit_code"), TextAt(FieldsAt(d, "stdout"), "artifact_id"), TextAt(FieldsAt(d, "stderr"), "artifact_id"))
  }

  lemma LogIsAddressed(env: Env, raw: Json, stream: string)
    requires LogIdentity(env, raw, stream).Ok?
    ensures raw.Obj? && LogIdentity(env, raw, stream).value == TextAt(raw.fields, "artifact_id") == Digest(env, LogOf(raw.fields, stream))
  {
  }

  lemma LogsAreGood(env: Env, d: Rec, artifactId: string)
    requires EvidenceIdentity(env, d, artifactId).Ok?
    ensures LogIdentity(env, Get(d, "stdout"), "stdout").Ok? && LogIdentity(env, Get(d, "stderr"), "stderr").Ok?
    ensures RequiredDigest(d, "tool_fingerprint").Ok? && RequiredText(d, "tool_id").Ok?
    ensures RequiredText(d, "kind").Ok? && RequiredText(d, "status").Ok?
  {
  }

  lemma EvidenceIsAddressed(env: Env, d: Rec, artifactId: string)
    requires EvidenceIdentity(env, d, artifactId).Ok?
    ensures EvidenceIdentity(env, d, artifactId).value == Digest(env, EvidenceOf(d, artifactId))
  {
    LogsAreGood(env, d, artifactId);
    LogIsAddressed(env, Get(d, "stdout"), "stdout");
    LogIsAddressed(env, Get(d, "stderr"), "stderr");
  }

  lemma EvidenceFields(toolId: string, kind: string, tool: string, a: string, status: string, exitCode: Json, out: string, err: string)
    ensures var m := EvidenceBody(toolId, kind, tool, a, status, exitCode, out, err).fields;
            Get(m, "stdout_artifact_id") == Str(out) && Get(m, "stderr_artifact_id") == Str(err)
  {
  }

  lemma SameLogIds(d: Rec, e: Rec, artifactId: string)
    requires EvidenceOf(d, artifactId) == EvidenceOf(e, artifactId)
    ensures TextAt(FieldsAt(d, "stdout"), "artifact_id") == TextAt(FieldsAt(e, "stdout"), "artifact_id")
    ensures TextAt(FieldsAt(d, "stderr"), "artifact_id") == TextAt(FieldsAt(e, "stderr"), "artifact_id")
  {
    EvidenceFields(TextAt(d, "tool_id"), TextAt(d, "kind"), TextAt(d, "tool_fingerprint"), artifactId, TextAt(d, "status"),
      Get(d, "exit_code"), TextAt(FieldsAt(d, "stdout"), "artifact_id"), TextAt(FieldsAt(d, "stderr"), "artifact_id"));
    EvidenceFields(TextAt(e, "tool_id"), TextAt(e, "kind"), TextAt(e, "tool_fingerprint"), artifactId, TextAt(e, "status"),
      Get(e, "exit_code"), TextAt(FieldsAt(e, "stdout"), "artifact_id"), TextAt(FieldsAt(e, "stderr"), "artifact_id"));
  }

  /** No collision on what two evidence items, and their logs, are the digests of. */
  predicate NoEvidenceCollision(env: Env, d: Rec, e: Rec, artifactId: string)
  {
    && NoCollision(env, EvidenceOf(d, artifactId), EvidenceOf(e, artifactId))
    && NoCollision(env, LogOf(FieldsAt(d, "stdout"), "stdout"), LogOf(FieldsAt(e, "stdout"), "stdout"))
    && NoCollision(env, LogOf(FieldsAt(d, "stderr"), "stderr"), LogOf(FieldsAt(e, "stderr"), "stderr"))
  }

  /** Equal evidence ids, absent collisions, mean the same tool run: tool, kind, status, exit code and both logs. */
  lemma EvidenceIdPinsLogs(env: Env, d: Rec, e: Rec, artifactId: string)
    requires EvidenceIdentity(env, d, artifactId).Ok? && EvidenceIdentity(env, e, artifactId) == EvidenceIdentity(env, d, artifactId)
    requires NoEvidenceCollision(env, d, e, artifactId)
    ensures EvidenceOf(d, artifactId) == EvidenceOf(e, artifactId)
    ensures LogOf(FieldsAt(d, "stdout"), "stdout") == LogOf(FieldsAt(e, "stdout"), "stdout")
    ensures LogOf(FieldsAt(d, "stderr"), "stderr") == LogOf(FieldsAt(e, "stderr"), "stderr")
  {
    EvidenceIsAddressed(env, d, artifactId);
    EvidenceIsAddressed(env, e, artifactId);
    SameDigest(env, EvidenceOf(d, artifactId), EvidenceOf(e, artifactId));
    SameLogIds(d, e, artifactId);
    LogsAreGood(env, d, artifactId);
    LogsAreGood(env, e, artifactId);
    LogPinned(env, Get(d, "stdout"), Get(e, "stdout"), "stdout");
    LogPinned(env, Get(d, "stderr"), Get(e, "stderr"), "stderr");
  }

  lemma LogPinned(env: Env, raw: Json, raw': Json, stream: string)
    requires LogIdentity(env, raw, stream).Ok? && LogIdentity(env, raw', stream).Ok? && raw.Obj? && raw'.Obj?
    requires TextAt(raw.fields, "artifact_id") == TextAt(raw'.fields, "artifact_id")
    requires NoCollision(env, LogOf(raw.fields, stream), LogOf(raw'.fields, stream))
    ensures LogOf(raw.fields, stream) == LogOf(raw'.fields, stream)
  {
    LogIsAddressed(env, raw, stream);
    LogIsAddressed(env, raw', stream);
    SameDigest(env, LogOf(raw.fields, stream), LogOf(raw'.fields, stream));
  }

  function ItemAt(d: Rec, i: nat): Rec
  {
    var v := Get(d, "evidence");
    if v.Arr? && i < |v.items| && v.items[i].Obj? then v.items[i].fields else map[]
  }

  lemma ItemIsGood(env: Env, p: Proposal, d: Rec, i: nat)
    requires HandoffFromResponse(env, p, d).Ok? && i < 3
    ensures var h := HandoffFromResponse(env, p, d).value;
            |h.evidenceIds| == 3 && EvidenceIdentity(env, ItemAt(d, i), h.artifact.id) == Ok(h.evidenceIds[i])
  {
    HandoffShape(env, p, d);
    var h := HandoffFromResponse(env, p, d).value;
    var items := Get(d, "evidence").items;
    AllGoodAt(env, items, h.artifact.id, i);
    IdentityIsOwnId(env, items[i], h.artifact.id);
  }

  /** And so the whole of the evidence: equal record ids force the same tool runs, item by item, logs included. */
  lemma RecordPinsEvidence(env: Env, p: Proposal, d: Rec, q: Proposal, e: Rec, i: nat)
    requires HandoffFromResponse(env, p, d).Ok? && HandoffFromResponse(env, q, e).Ok? && i < 3
    requires var h, k := HandoffFromResponse(env, p, d).value, HandoffFromResponse(env, q, e).value;
             && h.recordId == k.recordId && NoCollision(env, RecordOf(h, p), RecordOf(k, q))
             && NoEvidenceCollision(env, ItemAt(d, i), ItemAt(e, i), h.artifact.id)
    ensures var h := HandoffFromResponse(env, p, d).value;
            var a, b := ItemAt(d, i), ItemAt(e, i);
            && EvidenceOf(a, h.artifact.id) == EvidenceOf(b, h.artifact.id)
            && LogOf(FieldsAt(a, "stdout"), "stdout") == LogOf(FieldsAt(b, "stdout"), "stdout")
            && LogOf(FieldsAt(a, "stderr"), "stderr") == LogOf(FieldsAt(b, "stderr"), "stderr")
  {
    HandoffShape(env, p, d);
    HandoffShape(env, q, e);
    var h, k := HandoffFromResponse(env, p, d).value, HandoffFromResponse(env, q, e).value;
    SameRecord(env, p, h, q, k);
    ItemIsGood(env, p, d, i);
    ItemIsGood(env, q, e, i);
    EvidenceIdPinsLogs(env, ItemAt(d, i), ItemAt(e, i), h.artifact.id);
  }

  // ---------------------------------------------------------------- the diff behind its digest

  /** The digest does not collide on these two texts. */
  predicate NoTextCollision(env: Env, s: string, t: string)
  {
    env.sha256hex(Encode(s)) == env.sha256hex(Encode(t)) ==> Encode(s) == Encode(t)
  }

  /** Across two whole chains an equal record id pins the unified diff itself. */
  lemma ChainPinsDiff(env: Env, up: Upstream, plan: Rec, proposal: Rec, d: Rec, up': Upstream, plan': Rec, proposal': Rec, e: Rec)
    requires RestoreProposal(env, up, plan, proposal).Ok? && RestoreProposal(env, up', plan', proposal').Ok?
    requires var p, q := RestoreProposal(env, up, plan, proposal).value, RestoreProposal(env, up', plan', proposal').value;
             && HandoffFromResponse(env, p, d).Ok? && HandoffFromResponse(env, q, e).Ok?
             && var h, k := HandoffFromResponse(env, p, d).value, HandoffFromResponse(env, q, e).value;
             && h.recordId == k.recordId && NoTextCollision(env, p.unifiedDiff, q.unifiedDiff)
             && NoCollision(env, RecordOf(h, p), RecordOf(k, q)) && NoCollision(env, ArtifactOf(h, p), ArtifactOf(k, q))
    ensures RestoreProposal(env, up, plan, proposal).value.unifiedDiff == RestoreProposal(env, up', plan', proposal').value.unifiedDiff
  {
    RestoredProposal(env, up, plan, proposal);
    RestoredProposal(env, up', plan', proposal');
    var p, q := RestoreProposal(env, up, plan, proposal).value, RestoreProposal(env, up', plan', proposal').value;
    RecordPinsDelivery(env, p, d, q, e);
    EncodeInjectiveIfSame(env, p.unifiedDiff, q.unifiedDiff);
  }

  lemma EncodeInjectiveIfSame(env: Env, s: string, t: string)
    requires TextDigest(env, s) == TextDigest(env, t) && NoTextCollision(env, s, t)
    ensures s == t
  {
    EncodeInjective(s, t);
  }
}
