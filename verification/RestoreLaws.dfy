/** Exactly which proposal results are restored, read off the raw request and response. */
module RestoreLaws {
  import opened Collections
  import opened PyText
  import opened CanonicalJson
  import opened PyValues
  import opened RawJson
  import opened Utf8
  import opened ProposalRequest
  import opened ApplyVerification

  // ---------------------------------------------------------------- fields

  /** A lower-case SHA-256 text. */
  predicate DigestText(v: Json)
  {
    v.Str? && |v.s| == 64 && forall i :: 0 <= i < 64 ==> '0' <= v.s[i] <= '9' || 'a' <= v.s[i] <= 'f'
  }

  /** Non-blank text without outer blanks. */
  predicate CanonicalWord(v: Json) { v.Str? && !Blank(v.s) && Trimmed(v.s) }

  predicate Done(v: Json) { v == Str("succeeded") || v == Str("replayed") }

  lemma DigestIff(d: Rec, key: string)
    ensures RequiredDigest(d, key).Ok? <==> DigestText(Get(d, key))
    ensures RequiredDigest(d, key).Ok? ==> Get(d, key) == Str(RequiredDigest(d, key).value)
  {
  }

  lemma WordIff(d: Rec, key: string)
    ensures RequiredText(d, key).Ok? <==> CanonicalWord(Get(d, key))
    ensures RequiredText(d, key).Ok? ==> Get(d, key) == Str(RequiredText(d, key).value)
  {
    if Get(d, key).Str? { StripFacts(Get(d, key).s); }
  }

  lemma DoneIff(v: Json)
    ensures OneOf(v, SUCCEEDED) <==> Done(v)
  {
  }

  // ---------------------------------------------------------------- the patch

  /** What the request allows, in its own words. */
  predicate WithinRequest(touched: seq<string>, request: Rec)
  {
    var allowed, files := Get(request, "allowed_paths"), Get(request, "max_files");
    && allowed.Arr? && files.Int?
    && (forall i :: 0 <= i < |touched| ==> Str(touched[i]) in allowed.items)
    && (forall i, j :: 0 <= i < j < |touched| ==> touched[i] != touched[j])
    && |touched| <= files.n
  }

  /** The content a proposal id must be the digest of. */
  predicate NamesItsContent(env: Env, p: Rec, fingerprint: Json, touched: seq<string>)
  {
    Get(p, "proposal_id") == Str(env.sha256hex(Preimage(Obj(map[
      "request_fingerprint" := fingerprint, "provider_id" := Get(p, "provider_id"), "diff_sha256" := Get(p, "diff_sha256"),
      "touched_paths" := Arr(Strs(touched)), "changed_lines" := Get(p, "changed_lines")]))))
  }

  predicate PatchAcceptable(env: Env, request: Rec, fingerprint: Json, p: Rec)
  {
    var diff, touched, lines, most := Get(p, "unified_diff"), Get(p, "touched_paths"), Get(p, "changed_lines"), Get(request, "max_changed_lines");
    && DigestText(Get(p, "proposal_id")) && CanonicalWord(Get(p, "provider_id")) && DigestText(Get(p, "diff_sha256"))
    && diff.Str? && diff.s != "" && Get(p, "diff_sha256") == Str(env.sha256hex(Encode(diff.s)))
    && touched.Arr? && touched.items != [] && WithinRequest(Texts(touched.items), request)
    && lines.Int? && most.Int? && 1 <= lines.n <= most.n
    && NamesItsContent(env, p, fingerprint, Texts(touched.items))
  }

  /** A restored request carries its scope in its own fields. */
  predicate Carries(request: Rec, r: Restored)
  {
    && Get(request, "allowed_paths") == Arr(Strs(r.scope.allowedPaths)) && Get(request, "command_id") == Str(r.commandId)
    && Get(request, "max_files") == Int(r.scope.maxFiles) && Get(request, "max_changed_lines") == Int(r.scope.maxChangedLines)
  }

  lemma CarriesPayload(up: Upstream, r: Restored, instruction: string, items: seq<Json>)
    ensures Carries(Payload(up, r.commandId, instruction, r.scope, items), r)
  {
    PayloadScope(up, r.commandId, instruction, r.scope, items);
    PayloadTexts(up, r.commandId, instruction, r.scope, items);
  }

  lemma RestoredIsBuilt(up: Upstream, plan: Rec, request: Rec)
    requires RestoreRequest(up, plan, request).Ok?
    ensures RequiredText(request, "instruction").Ok?
    ensures var r := RestoreRequest(up, plan, request).value;
            BuildPayload(up, plan, RequiredText(request, "instruction").value, r.scope, r.commandId) == Ok(request)
  {
  }

  lemma RestoredCarries(up: Upstream, plan: Rec, request: Rec)
    requires RestoreRequest(up, plan, request).Ok?
    ensures Carries(request, RestoreRequest(up, plan, request).value)
  {
    var r := RestoreRequest(up, plan, request).value;
    RestoredIsBuilt(up, plan, request);
    var instruction := RequiredText(request, "instruction").value;
    BuildShape(up, plan, instruction, r.scope, r.commandId);
    CarriesPayload(up, r, Strip(instruction), ContextItems(up, PlanContext(plan).value, StrippedText(plan, "plan_id").value));
  }

  lemma AllowedIff(paths: seq<string>, t: string)
    ensures Str(t) in Strs(paths) <==> t in paths
  {
    if t in paths {
      var i :| 0 <= i < |paths| && paths[i] == t;
      assert Strs(paths)[i] == Str(t);
    }
  }

  lemma ScopeIff(touched: seq<string>, request: Rec, r: Restored)
    requires Carries(request, r)
    ensures WithinScope(touched, r.scope) <==> WithinRequest(touched, request)
  {
    forall i | 0 <= i < |touched| ensures Str(touched[i]) in Strs(r.scope.allowedPaths) <==> touched[i] in r.scope.allowedPaths {
      AllowedIff(r.scope.allowedPaths, touched[i]);
    }
  }

  lemma PatchIff(env: Env, up: Upstream, request: Rec, r: Restored, fingerprint: string, p: Rec)
    requires Carries(request, r)
    ensures RestoreArtifact(env, up, r, fingerprint, p).Ok? <==> PatchAcceptable(env, request, Str(fingerprint), p)
  {
    DigestIff(p, "proposal_id");
    WordIff(p, "provider_id");
    DigestIff(p, "diff_sha256");
    if RequiredDigest(p, "proposal_id").Ok? && RequiredText(p, "provider_id").Ok? && RequiredDigest(p, "diff_sha256").Ok? {
      var id, provider, diff := RequiredDigest(p, "proposal_id").value, RequiredText(p, "provider_id").value, RequiredDigest(p, "diff_sha256").value;
      ArtifactIs(env, up, r, fingerprint, p, id, provider, diff);
      PatchBodyIff(env, up, request, r, fingerprint, p, id, provider, diff);
    } else {
      NoArtifact(env, up, r, fingerprint, p);
    }
  }

  lemma ArtifactIs(env: Env, up: Upstream, r: Restored, fingerprint: string, p: Rec, id: string, provider: string, diff: string)
    requires RequiredDigest(p, "proposal_id") == Ok(id) && RequiredText(p, "provider_id") == Ok(provider) && RequiredDigest(p, "diff_sha256") == Ok(diff)
    ensures RestoreArtifact(env, up, r, fingerprint, p) ==
            RestorePatch(env, up, r, fingerprint, id, provider, diff, Get(p, "unified_diff"), Get(p, "touched_paths"), Get(p, "changed_lines"))
  {
  }

  lemma NoArtifact(env: Env, up: Upstream, r: Restored, fingerprint: string, p: Rec)
    requires RequiredDigest(p, "proposal_id").Err? || RequiredText(p, "provider_id").Err? || RequiredDigest(p, "diff_sha256").Err?
    ensures RestoreArtifact(env, up, r, fingerprint, p).Err?
  {
  }

  lemma PatchBodyIff(env: Env, up: Upstream, request: Rec, r: Restored, fingerprint: string, p: Rec, id: string, provider: string, diff: string)
    requires Carries(request, r)
    requires Get(p, "proposal_id") == Str(id) && Get(p, "provider_id") == Str(provider) && Get(p, "diff_sha256") == Str(diff)
    requires DigestText(Str(id)) && CanonicalWord(Str(provider)) && DigestText(Str(diff))
    ensures RestorePatch(env, up, r, fingerprint, id, provider, diff, Get(p, "unified_diff"), Get(p, "touched_paths"), Get(p, "changed_lines")).Ok?
            <==> PatchAcceptable(env, request, Str(fingerprint), p)
  {
    var unified, raw, lines := Get(p, "unified_diff"), Get(p, "touched_paths"), Get(p, "changed_lines");
    if raw.Arr? { ScopeIff(Texts(raw.items), request, r); }
    if raw.Arr? && lines.Int? {
      BodyIs(fingerprint, provider, diff, Texts(raw.items), lines.n, p);
    }
  }

  lemma BodyIs(fingerprint: string, provider: string, diff: string, touched: seq<string>, lines: int, p: Rec)
    requires Get(p, "provider_id") == Str(provider) && Get(p, "diff_sha256") == Str(diff) && Get(p, "changed_lines") == Int(lines)
    ensures ProposalBody(fingerprint, provider, diff, touched, lines) == Obj(map[
              "request_fingerprint" := Str(fingerprint), "provider_id" := Get(p, "provider_id"), "diff_sha256" := Get(p, "diff_sha256"),
              "touched_paths" := Arr(Strs(touched)), "changed_lines" := Get(p, "changed_lines")])
  {
  }

  // ---------------------------------------------------------------- the whole result

  predicate ResponseAcceptable(d: Rec, request: Rec)
  {
    && Get(d, "command_id") == Get(request, "command_id") && Get(d, "authority_decision") == Str("allow")
    && Done(Get(d, "execution_status")) && Done(Get(d, "outcome_status"))
    && DigestText(Get(d, "request_fingerprint")) && Get(d, "proposal").Obj?
  }

  predicate EnvelopeAcceptable(plan: Rec, result: Rec)
  {
    && Get(result, "authoritative") == Bool(false) && Get(result, "applied") == Bool(false)
    && Get(result, "plan_id") == Get(plan, "plan_id")
    && Get(result, "plan_request_fingerprint") == Get(plan, "request_fingerprint")
    && Get(result, "request").Obj? && Get(result, "response").Obj?
  }

  /** A result is restored exactly when all of this holds of its own fields. */
  predicate ResultAcceptable(env: Env, up: Upstream, plan: Rec, result: Rec)
  {
    && EnvelopeAcceptable(plan, result)
    && var request, d := Get(result, "request").fields, Get(result, "response").fields;
    && RestoreRequest(up, plan, request).Ok?
    && ResponseAcceptable(d, request)
    && PatchAcceptable(env, request, Get(d, "request_fingerprint"), Get(d, "proposal").fields)
  }

  lemma ResponseIs(env: Env, up: Upstream, plan: Rec, result: Rec, r: Restored)
    requires EnvelopeAcceptable(plan, result) && RestoreRequest(up, plan, Get(result, "request").fields) == Ok(r)
    ensures var d := Get(result, "response").fields;
            RestoreProposal(env, up, plan, result) ==
            if Get(d, "command_id") != Str(r.commandId) then Err(Refused("command_id"))
            else if Get(d, "authority_decision") != Str("allow") then Err(Refused("authority_decision"))
            else if !OneOf(Get(d, "execution_status"), SUCCEEDED) then Err(Refused("execution_status"))
            else if !OneOf(Get(d, "outcome_status"), SUCCEEDED) then Err(Refused("outcome_status"))
            else if RequiredDigest(d, "request_fingerprint").Err? then Err(RequiredDigest(d, "request_fingerprint").error)
            else if !Get(d, "proposal").Obj? then Err(Refused("proposal"))
            else RestoreArtifact(env, up, r, RequiredDigest(d, "request_fingerprint").value, Get(d, "proposal").fields)
  {
  }

  lemma NotRestored(env: Env, up: Upstream, plan: Rec, result: Rec)
    requires !EnvelopeAcceptable(plan, result) || RestoreRequest(up, plan, Get(result, "request").fields).Err?
    ensures RestoreProposal(env, up, plan, result).Err?
  {
  }

  /** `restore_apply_provenance` accepts a result exactly when its fields are acceptable. */
  lemma RestoredIff(env: Env, up: Upstream, plan: Rec, result: Rec)
    ensures RestoreProposal(env, up, plan, result).Ok? <==> ResultAcceptable(env, up, plan, result)
  {
    if EnvelopeAcceptable(plan, result) && RestoreRequest(up, plan, Get(result, "request").fields).Ok? {
      var request, d := Get(result, "request").fields, Get(result, "response").fields;
      var r := RestoreRequest(up, plan, request).value;
      RestoredCarries(up, plan, request);
      ResponseIs(env, up, plan, result, r);
      DoneIff(Get(d, "execution_status"));
      DoneIff(Get(d, "outcome_status"));
      DigestIff(d, "request_fingerprint");
      if RequiredDigest(d, "request_fingerprint").Ok? && Get(d, "proposal").Obj? {
        PatchIff(env, up, request, r, RequiredDigest(d, "request_fingerprint").value, Get(d, "proposal").fields);
      }
    } else {
      NotRestored(env, up, plan, result);
    }
  }

  /** What is restored is what the two objects say. */
  lemma RestoredFields(env: Env, up: Upstream, plan: Rec, result: Rec)
    requires RestoreProposal(env, up, plan, result).Ok?
    ensures Get(result, "request").Obj? && Get(result, "response").Obj? && Get(Get(result, "response").fields, "proposal").Obj?
    ensures var p, d := RestoreProposal(env, up, plan, result).value, Get(result, "response").fields;
            var a := Get(d, "proposal").fields;
            && p.organizationId == up.organizationId && p.resource == up.repository
            && Str(p.commandId) == Get(Get(result, "request").fields, "command_id")
            && Str(p.requestFingerprint) == Get(d, "request_fingerprint")
            && Str(p.proposalId) == Get(a, "proposal_id") && Str(p.providerId) == Get(a, "provider_id")
            && Str(p.diffSha256) == Get(a, "diff_sha256") && Str(p.unifiedDiff) == Get(a, "unified_diff")
            && Int(p.changedLines) == Get(a, "changed_lines")
            && Get(a, "touched_paths").Arr? && p.touchedPaths == Texts(Get(a, "touched_paths").items)
  {
    RestoredIff(env, up, plan, result);
    var request, d := Get(result, "request").fields, Get(result, "response").fields;
    var r := RestoreRequest(up, plan, request).value;
    RestoredCarries(up, plan, request);
    ResponseIs(env, up, plan, result, r);
    PatchFields(env, up, r, RequiredDigest(d, "request_fingerprint").value, Get(d, "proposal").fields);
  }

  lemma PatchFields(env: Env, up: Upstream, r: Restored, fingerprint: string, a: Rec)
    requires RestoreArtifact(env, up, r, fingerprint, a).Ok?
    ensures var p := RestoreArtifact(env, up, r, fingerprint, a).value;
            && p.organizationId == up.organizationId && p.resource == up.repository && p.commandId == r.commandId
            && p.requestFingerprint == fingerprint
            && Str(p.proposalId) == Get(a, "proposal_id") && Str(p.providerId) == Get(a, "provider_id")
            && Str(p.diffSha256) == Get(a, "diff_sha256") && Str(p.unifiedDiff) == Get(a, "unified_diff")
            && Int(p.changedLines) == Get(a, "changed_lines")
            && Get(a, "touched_paths").Arr? && p.touchedPaths == Texts(Get(a, "touched_paths").items)
  {
    DigestIff(a, "proposal_id");
    WordIff(a, "provider_id");
    DigestIff(a, "diff_sha256");
    if RequiredDigest(a, "proposal_id").Err? || RequiredText(a, "provider_id").Err? || RequiredDigest(a, "diff_sha256").Err? {
      NoArtifact(env, up, r, fingerprint, a);
    } else {
      ArtifactIs(env, up, r, fingerprint, a, RequiredDigest(a, "proposal_id").value, RequiredText(a, "provider_id").value,
        RequiredDigest(a, "diff_sha256").value);
    }
  }
}
