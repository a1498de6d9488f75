/** Baking the build identity into metadata files, and resolving it again. */
module BuildMetadata {
  import opened Collections
  import opened Orders
  import opened PyText
  import opened Utf8
  import opened BuildIdentity
  import opened BuildCollisions
  import opened StringSort
  import StableSort

  datatype Identity = Identity(revision: Option<string>, fingerprint: string)

  /** A metadata file that is not UTF-8 text raises out of the resolver. */
  datatype Error = UndecodableText

  /** What the code takes from outside: the digest, case folding, the environment variable and `git rev-parse`. */
  datatype Env = Env(
    sha256hex: Bytes -> string,
    lower: string -> string,
    buildRevision: Option<string>,
    gitOutput: Option<string>)

  /** Digests are lower-case hexadecimal, which lower-casing leaves alone. */
  ghost predicate Standard(env: Env)
  {
    (forall b :: HexDigest(env.sha256hex(b))) && (forall s :: HexDigest(s) ==> env.lower(s) == s)
  }

  /** Text-mode reading turns carriage returns, alone or before a line feed, into line feeds. */
  function Newlines(s: string): string
  {
    if s == "" then ""
    else if s[0] != '\r' then [s[0]] + Newlines(s[1..])
    else "\n" + Newlines(if |s| > 1 && s[1] == '\n' then s[2..] else s[1..])
  }

  predicate IsPlaceholder(env: Env, s: string) { env.lower(s) in {"unknown", "none", "null", "-"} }

  function ReadValue(t: Tree, name: string, env: Env): Result<Option<string>, Error>
  {
    if name !in t then Ok(None)
    else match Decode(t[name])
      case None => Err(UndecodableText)
      case Some(text) =>
        var value := Strip(Newlines(text));
        Ok(if value == "" || IsPlaceholder(env, value) then None else Some(value))
  }

  function NonEmpty(s: Option<string>): Option<string>
  {
    if s.Some? && Strip(s.value) != "" then Some(Strip(s.value)) else None
  }

  /** The revision when no file gives one. */
  function Fallback(env: Env): Option<string>
  {
    if NonEmpty(env.buildRevision).Some? then NonEmpty(env.buildRevision) else NonEmpty(env.gitOutput)
  }

  function Fingerprint(t: Tree, env: Env): string { env.sha256hex(PreImage(t)) }

  function Resolve(t: Tree, env: Env): Result<Identity, Error>
  {
    var revision :- ReadValue(t, REVISION_FILE, env);
    var fingerprint :- ReadValue(t, FINGERPRINT_FILE, env);
    Ok(Identity(
      if revision.Some? then revision else Fallback(env),
      if fingerprint.Some? then fingerprint.value else Fingerprint(t, env)))
  }

  function Normalized(revision: Option<string>): string
  {
    if NonEmpty(revision).Some? then NonEmpty(revision).value else "unknown"
  }

  /** The identity that baking reports. */
  function Reported(t: Tree, env: Env, revision: Option<string>): Identity
  {
    var r := Normalized(revision);
    Identity(if env.lower(r) == "unknown" then None else Some(r), Fingerprint(t, env))
  }

  function Baked(t: Tree, env: Env, revision: Option<string>): Tree
  {
    t[FINGERPRINT_FILE := Encode(Fingerprint(t, env) + "\n")][REVISION_FILE := Encode(Normalized(revision) + "\n")]
  }

  /** A directory listing: every file once, in any order, perhaps among other entries such as directories. */
  predicate IsListing(listing: seq<string>, t: Tree) { Distinct(listing) && forall p :: p in t ==> p in listing }

  /** The four updates of the digest feed it one record. */
  method FeedFile(digested: Bytes, path: string, content: Bytes) returns (fed: Bytes)
    ensures fed == digested + Record(path, content)
  {
    fed := digested + Encode(path);
    fed := fed + [0];
    fed := fed + content;
    fed := fed + [0];
  }

  /** One turn of the loop: files that are not included are passed over. */
  method FeedPath(digested: Bytes, path: string, t: Tree) returns (fed: Bytes)
    ensures fed == if path in t && IncludedSourceFile(path) then digested + Record(path, t[path]) else digested
  {
    fed := digested;
    if path in t && IncludedSourceFile(path) {
      fed := FeedFile(digested, path, t[path]);
    }
  }

  /** What the digest has been fed after `i` paths: the records of the included ones. */
  ghost function FedAfter(paths: seq<string>, i: nat, t: Tree): Bytes
    requires i <= |paths|
  {
    Records(StableSort.Filter(IsSource(t), paths[..i]), t)
  }

  lemma FedStart(paths: seq<string>, t: Tree)
    ensures FedAfter(paths, 0, t) == []
  {
  }

  class BuildRoot {
    var files: Tree

    constructor (files: Tree)
      ensures this.files == files
    {
      this.files := files;
    }

    /** Feeds the digest file by file; the result depends on the included files alone. */
    method SourceFingerprint(env: Env, listing: seq<string>) returns (fingerprint: string)
      requires IsListing(listing, files)
      ensures fingerprint == Fingerprint(files, env)
    {
      var paths := SortStrings(listing);
      var digested: Bytes := [];
      FedStart(paths, files);
      for i := 0 to |paths|
        invariant digested == FedAfter(paths, i, files)
      {
        FedNext(paths, i, files);
        digested := FeedPath(digested, paths[i], files);
      }
      FedWhole(listing, files);
      fingerprint := env.sha256hex(digested);
    }

    method ResolveBuildIdentity(env: Env, listing: seq<string>) returns (r: Result<Identity, Error>)
      requires IsListing(listing, files)
      ensures r == Resolve(files, env)
    {
      var revision :- ReadValue(files, REVISION_FILE, env);
      if revision.None? {
        revision := NonEmpty(env.buildRevision);
      }
      if revision.None? {
        revision := NonEmpty(env.gitOutput);
      }
      var baked :- ReadValue(files, FINGERPRINT_FILE, env);
      var fingerprint;
      if baked.Some? {
        fingerprint := baked.value;
      } else {
        fingerprint := SourceFingerprint(env, listing);
      }
      r := Ok(Identity(revision, fingerprint));
    }

    method WriteBuildMetadata(env: Env, revision: Option<string>, listing: seq<string>) returns (identity: Identity)
      requires IsListing(listing, files)
      modifies this`files
      ensures files == Baked(old(files), env, revision)
      ensures identity == Reported(old(files), env, revision)
      ensures PreImage(files) == PreImage(old(files))
    {
      BakingKeepsSources(files, env, revision);
      var fingerprint := SourceFingerprint(env, listing);
      var normalized := if revision.Some? then Strip(revision.value) else "";
      if normalized == "" {
        normalized := "unknown";
      }
      files := files[FINGERPRINT_FILE := Encode(fingerprint + "\n")];
      files := files[REVISION_FILE := Encode(normalized + "\n")];
      identity := Identity(if env.lower(normalized) == "unknown" then None else Some(normalized), fingerprint);
    }
  }

  lemma FilterNext(paths: seq<string>, i: nat, p: string -> bool)
    requires i < |paths|
    ensures StableSort.Filter(p, paths[..i + 1]) == StableSort.Filter(p, paths[..i]) + (if p(paths[i]) then [paths[i]] else [])
  {
    assert paths[..i + 1] == paths[..i] + [paths[i]];
    StableSort.FilterConcat(p, paths[..i], [paths[i]]);
    StableSort.SingletonFilter(p, paths[i]);
  }

  lemma FedNext(paths: seq<string>, i: nat, t: Tree)
    requires i < |paths|
    ensures FedAfter(paths, i + 1, t) ==
            if paths[i] in t && IncludedSourceFile(paths[i])
            then FedAfter(paths, i, t) + Record(paths[i], t[paths[i]]) else FedAfter(paths, i, t)
  {
    var p, path := IsSource(t), paths[i];
    FilterNext(paths, i, p);
    if p(path) {
      RecordsConcat(StableSort.Filter(p, paths[..i]), [path], t);
      SingleRecord(path, t);
    } else {
      assert StableSort.Filter(p, paths[..i]) + [] == StableSort.Filter(p, paths[..i]);
    }
  }

  /** After a whole listing, sorted, the digest has been fed the pre-image. */
  lemma FedWhole(listing: seq<string>, t: Tree)
    requires IsListing(listing, t)
    ensures FedAfter(SortStrings(listing), |SortStrings(listing)|, t) == PreImage(t)
  {
    var paths := SortStrings(listing);
    assert paths[..|paths|] == paths;
    ListingGivesSources(t, listing);
    SourceRecords(t);
  }

  lemma SourceRecords(t: Tree)
    ensures Records(SortedKeys(Sources(t).Keys), t) == PreImage(t)
  {
    var ks := SortedKeys(Sources(t).Keys);
    forall p | p in ks ensures Content(t, p) == Content(Sources(t), p) {
      assert p in Sources(t).Keys;
    }
    RecordsAgree(ks, t, Sources(t));
  }

  // ---------------------------------------------------------------- where the answers come from

  /** The metadata file holds `value` among white space, and the value is no placeholder. */
  predicate FileGives(t: Tree, name: string, env: Env, value: string)
  {
    && name in t && Decode(t[name]).Some? && value == Strip(Newlines(Decode(t[name]).value)) && value != ""
    && env.lower(value) != "unknown" && env.lower(value) != "none" && env.lower(value) != "null"
    && env.lower(value) != "-"
  }

  ghost predicate NoFileGives(t: Tree, name: string, env: Env) { forall value :: !FileGives(t, name, env, value) }

  predicate TextGives(s: Option<string>, value: string) { s.Some? && value == Strip(s.value) && !Blank(s.value) }

  lemma ReadIff(t: Tree, name: string, env: Env)
    ensures ReadValue(t, name, env).Err? <==> name in t && Decode(t[name]).None?
    ensures forall value :: ReadValue(t, name, env) == Ok(Some(value)) <==> FileGives(t, name, env, value)
  {
  }

  lemma NonEmptyIff(s: Option<string>)
    ensures forall value :: NonEmpty(s) == Some(value) <==> TextGives(s, value)
    ensures NonEmpty(s).None? <==> s.None? || Blank(s.value)
  {
    if s.Some? { StripFacts(s.value); }
  }

  /** The revision is the file's; without one it is the environment's, whatever git says; and git's only after both. */
  lemma ResolvedRevisionIff(t: Tree, env: Env, value: string)
    requires Resolve(t, env).Ok?
    ensures Resolve(t, env).value.revision == Some(value) <==>
            || FileGives(t, REVISION_FILE, env, value)
            || (NoFileGives(t, REVISION_FILE, env) && TextGives(env.buildRevision, value))
            || (NoFileGives(t, REVISION_FILE, env) && (env.buildRevision.None? || Blank(env.buildRevision.value)) &&
                TextGives(env.gitOutput, value))
  {
    ReadIff(t, REVISION_FILE, env);
    NonEmptyIff(env.buildRevision);
    NonEmptyIff(env.gitOutput);
    var r := ReadValue(t, REVISION_FILE, env).value;
    if r.Some? { assert FileGives(t, REVISION_FILE, env, r.value); }
  }

  /** The fingerprint is the file's, and the digest of the sources only without one. */
  lemma ResolvedFingerprintIff(t: Tree, env: Env, value: string)
    requires Resolve(t, env).Ok?
    ensures Resolve(t, env).value.fingerprint == value <==>
            || FileGives(t, FINGERPRINT_FILE, env, value)
            || (NoFileGives(t, FINGERPRINT_FILE, env) && value == env.sha256hex(PreImage(t)))
  {
    ReadIff(t, FINGERPRINT_FILE, env);
    var r := ReadValue(t, FINGERPRINT_FILE, env).value;
    if r.Some? { assert FileGives(t, FINGERPRINT_FILE, env, r.value); }
  }

  // ---------------------------------------------------------------- baking, then resolving

  lemma MetadataIsIgnored()
    ensures !IncludedSourceFile(FINGERPRINT_FILE) && !IncludedSourceFile(REVISION_FILE)
  {
    SkippedAtTop(FINGERPRINT_FILE);
    SkippedAtTop(REVISION_FILE);
  }

  lemma SkippedAtTop(name: string)
    requires '/' !in name && NamesFileToSkip(name)
    ensures !IncludedSourceFile(name)
  {
    SplitWhole(name, '/');
    assert [] + [name] == [name];
    IncludedIff(name, [], name);
  }

  /** Baking writes ignored files only, so the fingerprint of the tree stays what it was. */
  lemma BakingKeepsSources(t: Tree, env: Env, revision: Option<string>)
    ensures Sources(Baked(t, env, revision)) == Sources(t)
    ensures Fingerprint(Baked(t, env, revision), env) == Fingerprint(t, env)
  {
    MetadataIsIgnored();
    var fp, r := Encode(Fingerprint(t, env) + "\n"), Encode(Normalized(revision) + "\n");
    IgnoredFile(t, FINGERPRINT_FILE, fp);
    IgnoredFile(t[FINGERPRINT_FILE := fp], REVISION_FILE, r);
  }

  lemma IgnoredFile(t: Tree, path: string, content: Bytes)
    requires !IncludedSourceFile(path)
    ensures Sources(t[path := content]) == Sources(t)
  {
  }

  lemma {:induction false} NewlinesAppend(s: string)
    requires s == "" || s[|s| - 1] != '\r'
    ensures Newlines(s + "\n") == Newlines(s) + "\n"
  {
    if s != "" {
      var n := if s[0] == '\r' && s[1] == '\n' then 2 else 1;
      assert (s + "\n")[n..] == s[n..] + "\n";
      assert |s| > n ==> s[n..][|s[n..]| - 1] == s[|s| - 1];
      NewlinesAppend(s[n..]);
    } else {
      assert "\n"[1..] == "";
    }
  }

  lemma {:induction false} NewlinesId(s: string)
    ensures '\r' !in Newlines(s)
    ensures Newlines(s) == s <==> '\r' !in s
  {
    if s != "" {
      var n := if s[0] == '\r' && |s| > 1 && s[1] == '\n' then 2 else 1;
      NewlinesId(s[n..]);
      assert s == [s[0]] + s[1..];
      if s[0] != '\r' && Newlines(s) == s {
        assert Newlines(s)[1..] == s[1..];
      }
    }
  }

  lemma {:induction false} NewlinesEnds(s: string)
    requires s != "" && !IsSpace(s[|s| - 1])
    ensures var r := Newlines(s); r != "" && r[|r| - 1] == s[|s| - 1] && (s[0] != '\r' ==> r[0] == s[0])
  {
    if |s| > 1 {
      var n := if s[0] == '\r' && s[1] == '\n' then 2 else 1;
      NewlinesEnds(s[n..]);
    } else {
      assert s[1..] == "";
    }
  }

  lemma StripLine(s: string)
    requires s != "" && Trimmed(s)
    ensures Strip(s + "\n") == s
  {
    var t := s + "\n";
    assert t[0] == s[0] && LStrip(t) == t;
    assert t[..|t| - 1] == s && IsSpace('\n');
    assert RStrip(s) == s;
  }

  /** A value written on its own line is read back with its line ends normalised, unless it is a placeholder. */
  lemma ReadWritten(t: Tree, name: string, s: string, env: Env)
    requires name in t && t[name] == Encode(s + "\n") && s != "" && Trimmed(s)
    ensures ReadValue(t, name, env) == Ok(if IsPlaceholder(env, Newlines(s)) then None else Some(Newlines(s)))
  {
    RoundTrip(s + "\n");
    NewlinesAppend(s);
    NewlinesEnds(s);
    StripLine(Newlines(s));
  }

  lemma NormalizedFacts(revision: Option<string>)
    ensures Normalized(revision) != "" && Trimmed(Normalized(revision))
  {
    if revision.Some? { StripFacts(revision.value); }
  }

  /** After baking, resolving gives the fingerprint of the sources and the revision as text mode reads it. */
  lemma BakeThenResolve(t: Tree, env: Env, revision: Option<string>)
    requires Standard(env)
    ensures var r := Newlines(Normalized(revision));
            Resolve(Baked(t, env, revision), env) ==
            Ok(Identity(if IsPlaceholder(env, r) then Fallback(env) else Some(r), Fingerprint(t, env)))
  {
    BakedFingerprint(t, env, revision);
    BakedRevision(t, env, revision);
  }

  lemma DigestIsReadable(env: Env, fp: string)
    requires Standard(env) && HexDigest(fp)
    ensures Trimmed(fp) && Newlines(fp) == fp && !IsPlaceholder(env, fp)
  {
    assert forall i :: 0 <= i < |fp| ==> !IsSpace(fp[i]) && fp[i] != '\r';
    NewlinesId(fp);
    assert |env.lower(fp)| == 64;
  }

  lemma BakedFingerprint(t: Tree, env: Env, revision: Option<string>)
    requires Standard(env)
    ensures ReadValue(Baked(t, env, revision), FINGERPRINT_FILE, env) == Ok(Some(Fingerprint(t, env)))
  {
    var fp := Fingerprint(t, env);
    DigestIsReadable(env, fp);
    assert REVISION_FILE != FINGERPRINT_FILE by { assert |REVISION_FILE| != |FINGERPRINT_FILE|; }
    ReadWritten(Baked(t, env, revision), FINGERPRINT_FILE, fp, env);
  }

  lemma BakedRevision(t: Tree, env: Env, revision: Option<string>)
    ensures var r := Newlines(Normalized(revision));
            ReadValue(Baked(t, env, revision), REVISION_FILE, env) == Ok(if IsPlaceholder(env, r) then None else Some(r))
  {
    NormalizedFacts(revision);
    ReadWritten(Baked(t, env, revision), REVISION_FILE, Normalized(revision), env);
  }

  /**
   * The resolved revision is the reported one exactly when the revision text is an ordinary value
   * without carriage returns, or the fallback happens to agree with what was reported.
   */
  lemma RevisionAgreesIff(t: Tree, env: Env, revision: Option<string>)
    requires Standard(env)
    ensures var r := Normalized(revision);
            Resolve(Baked(t, env, revision), env) == Ok(Reported(t, env, revision)) <==>
            if IsPlaceholder(env, Newlines(r)) then Fallback(env) == Reported(t, env, revision).revision
            else '\r' !in r && env.lower(r) != "unknown"
  {
    BakeThenResolve(t, env, revision);
    NewlinesId(Normalized(revision));
  }

  /** Baking "none" reports that revision, yet resolving it falls back. */
  lemma NoneIsReportedButNotResolved(t: Tree, env: Env)
    requires Standard(env) && env.lower("none") == "none" && Fallback(env) == None
    ensures Reported(t, env, Some("none")).revision == Some("none")
    ensures Resolve(Baked(t, env, Some("none")), env) == Ok(Identity(None, Fingerprint(t, env)))
  {
    StripFacts("none");
    assert Trimmed("none");
    BakeThenResolve(t, env, Some("none"));
    NewlinesId("none");
  }

  /**
   * Without a digest collision, a tree without NUL bytes shares its fingerprint with no other tree of
   * at least as many files, nor with any other tree without NUL bytes.
   */
  lemma FingerprintIdentifies(t: Tree, u: Tree, env: Env)
    requires NulFree(Sources(t)) && NulFreeNames(Sources(u))
    requires NulFree(Sources(u)) || |Sources(u)| >= |Sources(t)|
    requires env.sha256hex(PreImage(t)) == env.sha256hex(PreImage(u)) ==> PreImage(t) == PreImage(u)
    ensures Fingerprint(t, env) == Fingerprint(u, env) <==> Sources(t) == Sources(u)
  {
    PreImageIdentifies(t, u);
  }
}
