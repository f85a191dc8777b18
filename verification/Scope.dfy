/** The edit scope of a repair: `RepairPolicyEngine.validate_scope` under the default policy, what it
    protects, and rollback in the presence of the version bump that `apply` adds. */
module Scope {
  import opened Wrappers
  import opened Json
  import opened Text
  import opened Pointer
  import opened Patch
  import opened Rollback

  const CONTRACT_PREFIXES: seq<string> := ["/routes/", "/permissions/", "/metadata/"]
  const PROFILE_PREFIXES: seq<string> := ["/operations/", "/objects/", "/metadata/", "/version"]

  const CONTRACT_ROOTS: set<string> := {"routes", "permissions", "metadata"}
  const PROFILE_ROOTS: set<string> := {"operations", "objects", "metadata"}

  predicate StartsWithAny(path: string, prefixes: seq<string>)
  {
    exists i :: 0 <= i < |prefixes| && prefixes[i] <= path
  }

  predicate InScope(patch: ArtifactPatch)
  {
    if patch.artifact == "contract" then StartsWithAny(patch.path, CONTRACT_PREFIXES)
    else "profile:" <= patch.artifact && StartsWithAny(patch.path, PROFILE_PREFIXES)
  }

  /** `validate_scope` raises no error. */
  predicate ValidScope(patches: seq<ArtifactPatch>)
  {
    forall i :: 0 <= i < |patches| ==> InScope(patches[i])
  }

  /** Top-level members a repair of this artifact may touch. */
  predicate MayTouch(artifact: string, key: string)
  {
    if artifact == "contract" then key in CONTRACT_ROOTS else key in PROFILE_ROOTS || "version" <= key
  }

  /* ---------- the first token of a path in scope ---------- */

  lemma {:induction false} SplitPrefix(a: string, b: string)
    requires '/' !in a
    ensures Split(a + b, '/')[0] == a + Split(b, '/')[0]
  {
    if a == [] {
      assert a + b == b;
    } else {
      SplitPrefix(a[1..], b);
      assert (a + b)[1..] == a[1..] + b;
      assert [a[0]] + a[1..] == a;
    }
  }

  lemma ConsConcat(a: string, b: string)
    requires a != []
    ensures a + b == [a[0]] + (a[1..] + b)
  {
  }

  lemma UnescapeCons(c: char, rest: string)
    requires c != '~'
    ensures Unescape1([c] + rest) == [c] + Unescape1(rest)
  {
    assert ([c] + rest)[1..] == rest;
  }

  lemma {:induction false} UnescapePrefix(a: string, b: string)
    requires '~' !in a
    ensures Unescape1(a + b) == a + Unescape1(b)
  {
    if a == [] {
      assert a + b == b;
    } else {
      var rest := a[1..];
      UnescapePrefix(rest, b);
      UnescapeCons(a[0], rest + b);
      ConsConcat(a, b);
      ConsConcat(a, Unescape1(b));
    }
  }

  lemma RootOfPath(path: string, root: string)
    requires '/' !in root && '~' !in root && "/" + root + "/" <= path
    ensures |Tokens(path)| >= 2 && Tokens(path)[0] == root
  {
    var prefix := "/" + root + "/";
    var rest := path[|prefix|..];
    assert path == "/" + root + "/" + rest;
    TokensUnderRoot(root, rest);
  }

  lemma RootOfVersionPath(path: string)
    requires "/version" <= path
    ensures Tokens(path) != [] && "version" <= Tokens(path)[0]
  {
    var rest := path[8..];
    assert path == "" + ['/'] + ("version" + rest);
    SplitConcat("", "version" + rest, '/');
    SplitPrefix("version", rest);
    var raw := Split(rest, '/')[0];
    assert RawTokens(path)[0] == "version" + raw;
    UnescapeIsOnePass("version" + raw);
    UnescapePrefix("version", raw);
  }

  lemma ContractRoot(path: string)
    requires StartsWithAny(path, CONTRACT_PREFIXES)
    ensures |Tokens(path)| >= 2 && Tokens(path)[0] in CONTRACT_ROOTS
  {
    assert "/" + "routes" + "/" == CONTRACT_PREFIXES[0];
    assert "/" + "permissions" + "/" == CONTRACT_PREFIXES[1];
    assert "/" + "metadata" + "/" == CONTRACT_PREFIXES[2];
    if CONTRACT_PREFIXES[0] <= path { RootOfPath(path, "routes"); }
    else if CONTRACT_PREFIXES[1] <= path { RootOfPath(path, "permissions"); }
    else { RootOfPath(path, "metadata"); }
  }

  lemma ProfileRoot(path: string)
    requires StartsWithAny(path, PROFILE_PREFIXES)
    ensures Tokens(path) != [] && (Tokens(path)[0] in PROFILE_ROOTS || "version" <= Tokens(path)[0])
  {
    assert "/" + "operations" + "/" == PROFILE_PREFIXES[0];
    assert "/" + "objects" + "/" == PROFILE_PREFIXES[1];
    assert "/" + "metadata" + "/" == PROFILE_PREFIXES[2];
    if PROFILE_PREFIXES[0] <= path { RootOfPath(path, "operations"); }
    else if PROFILE_PREFIXES[1] <= path { RootOfPath(path, "objects"); }
    else if PROFILE_PREFIXES[2] <= path { RootOfPath(path, "metadata"); }
    else { RootOfVersionPath(path); }
  }

  /** A patch in scope addresses a member below an allowed root; in the contract, strictly below. */
  lemma ScopedRoot(patch: ArtifactPatch)
    requires InScope(patch)
    ensures IsPointer(patch.path) && Tokens(patch.path) != []
    ensures MayTouch(patch.artifact, Tokens(patch.path)[0])
    ensures patch.artifact == "contract" ==> |Tokens(patch.path)| >= 2
  {
    if patch.artifact == "contract" {
      ContractRoot(patch.path);
    } else {
      ProfileRoot(patch.path);
    }
  }

  /* ---------- what the scope lets through ---------- */

  lemma {:induction false} RenderHead(keys: seq<string>)
    requires keys != []
    ensures "/" + Escape(keys[0]) <= Render(keys)
    ensures |keys| >= 2 ==> "/" + Escape(keys[0]) + "/" <= Render(keys)
  {
    if |keys| >= 2 {
      var front := keys[..|keys| - 1];
      RenderHead(front);
      assert Render(keys) == Render(front) + "/" + Escape(keys[|keys| - 1]);
      if |front| == 1 {
        assert Render(front[..0]) == "";
        assert Render(front) == "/" + Escape(keys[0]);
      }
    } else {
      assert keys[..0] == [] && Render(keys) == "/" + Escape(keys[0]);
    }
  }

  lemma {:induction false} EscapePlain(s: string)
    requires '~' !in s && '/' !in s
    ensures Escape(s) == s
  {
    NothingReplaced(s, '~', "~0");
    NothingReplaced(s, '/', "~1");
  }

  lemma {:induction false} NothingReplaced(s: string, a: char, to: string)
    requires a !in s
    ensures ReplaceChar(s, a, to) == s
  {
    if s != [] {
      NothingReplaced(s[1..], a, to);
    }
  }

  lemma EscapePrefix(a: string, b: string)
    requires '~' !in a && '/' !in a
    ensures a <= Escape(a + b)
  {
    ReplaceCharConcat(a, b, '~', "~0");
    NothingReplaced(a, '~', "~0");
    ReplaceCharConcat(a, ReplaceChar(b, '~', "~0"), '/', "~1");
    NothingReplaced(a, '/', "~1");
  }

  predicate Under(path: string, root: string)
  {
    "/" + root + "/" <= path
  }

  lemma ContractStarts(path: string)
    ensures StartsWithAny(path, CONTRACT_PREFIXES) <==> UnderOne(path, "routes", "permissions", "metadata")
  {
    assert "/" + "routes" + "/" == CONTRACT_PREFIXES[0];
    assert "/" + "permissions" + "/" == CONTRACT_PREFIXES[1];
    assert "/" + "metadata" + "/" == CONTRACT_PREFIXES[2];
  }

  lemma ProfileStarts(path: string)
    ensures StartsWithAny(path, PROFILE_PREFIXES) <==>
              UnderOne(path, "operations", "objects", "metadata") || "/" + "version" <= path
  {
    assert "/" + "operations" + "/" == PROFILE_PREFIXES[0];
    assert "/" + "objects" + "/" == PROFILE_PREFIXES[1];
    assert "/" + "metadata" + "/" == PROFILE_PREFIXES[2];
    assert "/" + "version" == PROFILE_PREFIXES[3];
  }

  /** A path written from keys lies under a root exactly when the root is its first key and more follow. */
  lemma UnderIff(keys: seq<string>, root: string)
    requires keys != [] && '~' !in root && '/' !in root
    ensures Under(Render(keys), root) <==> |keys| >= 2 && keys[0] == root
  {
    if Under(Render(keys), root) {
      RootOfPath(Render(keys), root);
      TokensOfRender(keys);
    }
    if |keys| >= 2 && keys[0] == root {
      RenderHead(keys);
      EscapePlain(root);
    }
  }

  lemma VersionIff(keys: seq<string>)
    requires keys != []
    ensures "/" + "version" <= Render(keys) <==> "version" <= keys[0]
  {
    if "/" + "version" <= Render(keys) {
      VersionGiven(keys, Render(keys));
    }
    if "version" <= keys[0] {
      VersionKept(keys);
    }
  }

  lemma VersionGiven(keys: seq<string>, path: string)
    requires keys != [] && path == Render(keys) && "/" + "version" <= path
    ensures "version" <= keys[0]
  {
    assert "/" + "version" == "/version";
    RootOfVersionPath(path);
    TokensOfRender(keys);
  }

  lemma VersionKept(keys: seq<string>)
    requires keys != [] && "version" <= keys[0]
    ensures "/" + "version" <= Render(keys)
  {
    RenderHead(keys);
    EscapePrefix("version", keys[0][7..]);
    assert "version" + keys[0][7..] == keys[0];
    PrefixBehind("/", "version", Escape(keys[0]));
  }

  lemma PrefixBehind(head: string, a: string, b: string)
    requires a <= b
    ensures head + a <= head + b
  {
  }

  predicate UnderOne(path: string, a: string, b: string, c: string)
  {
    Under(path, a) || Under(path, b) || Under(path, c)
  }

  predicate Plain(root: string)
  {
    '~' !in root && '/' !in root
  }

  /** The keys lead strictly below one of three members. */
  predicate Below(keys: seq<string>, a: string, b: string, c: string)
  {
    |keys| >= 2 && (keys[0] == a || keys[0] == b || keys[0] == c)
  }

  lemma UnderOneIff(keys: seq<string>, a: string, b: string, c: string)
    requires keys != [] && Plain(a) && Plain(b) && Plain(c)
    ensures UnderOne(Render(keys), a, b, c) <==> Below(keys, a, b, c)
  {
    UnderIff(keys, a);
    UnderIff(keys, b);
    UnderIff(keys, c);
  }

  lemma ContractAccepts(keys: seq<string>, path: string)
    requires keys != [] && path == Render(keys)
    ensures StartsWithAny(path, CONTRACT_PREFIXES) <==> Below(keys, "routes", "permissions", "metadata")
  {
    ContractStarts(path);
    UnderOneIff(keys, "routes", "permissions", "metadata");
  }

  lemma ProfileAccepts(keys: seq<string>, path: string)
    requires keys != [] && path == Render(keys)
    ensures StartsWithAny(path, PROFILE_PREFIXES) <==>
              Below(keys, "operations", "objects", "metadata") || "version" <= keys[0]
  {
    ProfileStarts(path);
    UnderOneIff(keys, "operations", "objects", "metadata");
    VersionIff(keys);
  }

  /** Paths written from keys are in scope exactly below `routes`, `permissions` and `metadata` of the contract, and below
      `operations`, `objects` and `metadata` of a profile or at a member whose name starts with `version`. */
  lemma ScopeAcceptsIff(patch: ArtifactPatch, keys: seq<string>)
    requires patch.path == Render(keys) && keys != []
    ensures InScope(patch) <==>
              if patch.artifact == "contract" then Below(keys, "routes", "permissions", "metadata")
              else "profile:" <= patch.artifact &&
                   (Below(keys, "operations", "objects", "metadata") || "version" <= keys[0])
  {
    if patch.artifact == "contract" {
      ContractAccepts(keys, patch.path);
    } else {
      ProfileAccepts(keys, patch.path);
    }
  }

  /* ---------- what a patch leaves alone at the top level ---------- */

  predicate SameMember(before: Value, after: Value, key: string)
  {
    before.Obj? && after.Obj? &&
    (key in before.members <==> key in after.members) &&
    (key in before.members ==> before.members[key] == after.members[key])
  }

  lemma TopFrame(document: Value, patch: ArtifactPatch, key: string)
    requires document.Obj? && ApplyPointer(document, patch).Success? && key != Tokens(patch.path)[0]
    ensures SameMember(document, ApplyPointer(document, patch).value, key)
  {
    var parts := Tokens(patch.path);
    var above := parts[..|parts| - 1];
    if above != [] {
      assert above[0] == parts[0];
    }
  }

  /** Protected members of every document, across a whole patch list. */
  ghost predicate Protected(before: Documents, after: Documents)
  {
    && before.Keys == after.Keys
    && forall artifact, key :: artifact in before && !MayTouch(artifact, key)
         ==> SameMember(before[artifact], after[artifact], key)
  }

  predicate AllObjects(documents: Documents)
  {
    forall artifact :: artifact in documents ==> documents[artifact].Obj?
  }

  lemma TopFrameObject(document: Value, patch: ArtifactPatch)
    requires document.Obj? && ApplyPointer(document, patch).Success?
    ensures ApplyPointer(document, patch).value.Obj?
  {
    TopFrame(document, patch, Tokens(patch.path)[0] + "x");
  }

  /** Any repair that passes the scope check leaves every other top-level member unchanged. */
  lemma {:induction false} ScopeProtects(patches: seq<ArtifactPatch>, documents: Documents)
    requires ValidScope(patches) && AllObjects(documents) && ApplyAll(patches, documents).Success?
    ensures Protected(documents, ApplyAll(patches, documents).value)
    ensures AllObjects(ApplyAll(patches, documents).value)
  {
    if patches != [] {
      var patch := patches[0];
      var next := ApplyTo(documents, patch).value;
      ScopedRoot(patch);
      TopFrameObject(documents[patch.artifact], patch);
      forall artifact, key | artifact in documents && !MayTouch(artifact, key)
        ensures SameMember(documents[artifact], next[artifact], key)
      {
        if artifact == patch.artifact {
          TopFrame(documents[artifact], patch, key);
        }
      }
      ScopeProtects(patches[1..], next);
      ProtectedTransitive(documents, next, ApplyAll(patches, documents).value);
    }
  }

  lemma ProtectedTransitive(a: Documents, b: Documents, c: Documents)
    requires Protected(a, b) && Protected(b, c)
    ensures Protected(a, c)
  {
    forall artifact, key | artifact in a && !MayTouch(artifact, key)
      ensures SameMember(a[artifact], c[artifact], key)
    {
      assert SameMember(a[artifact], b[artifact], key);
      assert SameMember(b[artifact], c[artifact], key);
    }
  }

  /** In the source's terms: contract id, name, trigger and version, and each profile's system id, base
      URL and authentication, survive every repair in scope. */
  lemma {:induction false} RepairsKeepIdentity(patches: seq<ArtifactPatch>, documents: Documents)
    requires ValidScope(patches) && AllObjects(documents) && ApplyAll(patches, documents).Success?
    ensures var repaired := ApplyAll(patches, documents).value;
      && ("contract" in documents ==>
           ("contract" in repaired &&
            forall key :: key in {"contract_id", "name", "trigger", "version"}
              ==> SameMember(documents["contract"], repaired["contract"], key)))
      && forall artifact, key :: artifact in documents && artifact != "contract"
             && key in {"system_id", "name", "protocol", "base_url", "authentication"}
             ==> artifact in repaired && SameMember(documents[artifact], repaired[artifact], key)
  {
    ScopeProtects(patches, documents);
    forall artifact, key | artifact in documents && artifact != "contract"
        && key in {"system_id", "name", "protocol", "base_url", "authentication"}
      ensures !MayTouch(artifact, key)
    {
      assert key[0] != 'v';
    }
  }

  /* ---------- rollback next to the version bump ---------- */

  function WithMember(document: Value, key: string, value: Value): Value
  {
    if document.Obj? then Obj(document.members[key := value]) else document
  }

  /** `contract_data["version"] = candidate.proposed_contract_version`. */
  function Versioned(documents: Documents, version: string): Documents
  {
    if "contract" in documents
    then documents["contract" := WithMember(documents["contract"], "version", Str(version))]
    else documents
  }

  /** Editing one top-level member commutes with setting another. */
  lemma TopCommutes(document: Value, patch: ArtifactPatch, key: string, value: Value)
    requires document.Obj? && Tokens(patch.path) != [] && key != Tokens(patch.path)[0]
    ensures ApplyPointer(WithMember(document, key, value), patch) ==
            (match ApplyPointer(document, patch)
             case Success(edited) => Success(WithMember(edited, key, value))
             case Failure(e) => Failure(e))
  {
    var parts := Tokens(patch.path);
    var above, leaf := parts[..|parts| - 1], parts[|parts| - 1];
    var other := WithMember(document, key, value);
    if above == [] {
      assert other.members - {leaf} == (document.members - {leaf})[key := value];
      assert other.members[leaf := patch.value] == document.members[leaf := patch.value][key := value];
    } else {
      assert above[0] == parts[0];
      assert Child(other, above[0]) == Child(document, above[0]);
      assert Walk(other, above) == Walk(document, above);
      if Walk(document, above).Success? {
        var parent := Walk(document, above).value;
        if !patch.operation.Test? && Edit(parent, patch.operation, leaf, patch.value).Success? {
          var edited := Edit(parent, patch.operation, leaf, patch.value).value;
          PutCommutes(document, above, edited, key, value);
        }
      }
    }
  }

  lemma PutCommutes(document: Value, above: seq<string>, x: Value, key: string, value: Value)
    requires document.Obj? && above != [] && above[0] != key && Walk(document, above).Success?
    requires Walk(WithMember(document, key, value), above).Success?
    ensures Put(WithMember(document, key, value), above, x) == WithMember(Put(document, above, x), key, value)
  {
    var child := Put(Child(document, above[0]).value, above[1..], x);
    assert document.members[key := value][above[0] := child] == document.members[above[0] := child][key := value];
  }

  /** No patch in the list addresses the contract's version. */
  predicate SparesVersion(patches: seq<ArtifactPatch>)
  {
    forall i :: 0 <= i < |patches| && patches[i].artifact == "contract"
      ==> Tokens(patches[i].path) != [] && Tokens(patches[i].path)[0] != "version"
  }

  lemma ApplyToVersioned(patch: ArtifactPatch, documents: Documents, version: string)
    requires SparesVersion([patch])
    requires "contract" in documents ==> documents["contract"].Obj?
    ensures ApplyTo(Versioned(documents, version), patch) ==
            (match ApplyTo(documents, patch)
             case Success(next) => Success(Versioned(next, version))
             case Failure(e) => Failure(e))
  {
    if patch.artifact in documents {
      if patch.artifact == "contract" {
        assert [patch][0] == patch;
        TopCommutes(documents["contract"], patch, "version", Str(version));
        if ApplyPointer(documents["contract"], patch).Success? {
          assert Versioned(ApplyTo(documents, patch).value, version)
              == ApplyTo(Versioned(documents, version), patch).value;
        }
      } else if ApplyPointer(documents[patch.artifact], patch).Success? {
        assert Versioned(ApplyTo(documents, patch).value, version)
            == ApplyTo(Versioned(documents, version), patch).value;
      }
    }
  }

  lemma {:induction false} ApplyAllVersioned(patches: seq<ArtifactPatch>, documents: Documents, version: string)
    requires SparesVersion(patches)
    requires "contract" in documents ==> documents["contract"].Obj?
    requires ApplyAll(patches, documents).Success?
    ensures ApplyAll(patches, Versioned(documents, version)) == Success(Versioned(ApplyAll(patches, documents).value, version))
  {
    if patches != [] {
      var next := ApplyTo(documents, patches[0]).value;
      assert SparesVersion([patches[0]]);
      ApplyToVersioned(patches[0], documents, version);
      if patches[0].artifact == "contract" {
        TopFrameObject(documents["contract"], patches[0]);
      }
      assert SparesVersion(patches[1..]);
      ApplyAllVersioned(patches[1..], next, version);
    }
  }

  /** A generated inverse addresses the same root as its patch. */
  lemma InverseSparesVersion(document: Value, patch: ArtifactPatch)
    requires InScope(patch) && !patch.operation.Test?
    requires Inverse(document, patch).Success? && ApplyPointer(document, patch).Success?
    ensures SparesVersion([Inverse(document, patch).value])
  {
    ScopedRoot(patch);
    InverseTokens(document, patch);
    if patch.artifact == "contract" {
      assert "version" !in CONTRACT_ROOTS;
    }
  }

  lemma {:induction false} InversesSpareVersion(patches: seq<ArtifactPatch>, documents: Documents)
    requires ValidScope(patches)
    requires InversesOf(patches, documents).Success? && ApplyAll(patches, documents).Success?
    ensures SparesVersion(InversesOf(patches, documents).value)
  {
    if patches != [] {
      var patch := patches[0];
      var next := ApplyTo(documents, patch).value;
      assert ValidScope(patches[1..]);
      if patch.operation.Test? {
        assert next == documents;
        InversesSpareVersion(patches[1..], next);
      } else {
        InversesSpareVersion(patches[1..], next);
        InverseSparesVersion(documents[patch.artifact], patch);
        SparesConcat(InversesOf(patches[1..], next).value, [Inverse(documents[patch.artifact], patch).value]);
      }
    }
  }

  lemma SparesConcat(a: seq<ArtifactPatch>, b: seq<ArtifactPatch>)
    requires SparesVersion(a) && SparesVersion(b)
    ensures SparesVersion(a + b)
  {
  }

  /** Deploying a repair in scope sets the version, and rolling it back restores everything else: the
      contract version is the one member that stays at its new value. */
  lemma {:induction false} RollbackRestoresAllButVersion(patches: seq<ArtifactPatch>, documents: Documents, version: string)
    requires ValidScope(patches) && AllUndoable(patches, documents)
    requires "contract" in documents ==> documents["contract"].Obj?
    requires InversesOf(patches, documents).Success? && ApplyAll(patches, documents).Success?
    ensures ApplyAll(InversesOf(patches, documents).value, Versioned(ApplyAll(patches, documents).value, version))
         == Success(Versioned(documents, version))
  {
    forall i | 0 <= i < |patches|
      ensures IsPointer(patches[i].path)
    {
      ScopedRoot(patches[i]);
    }
    RollbackRestores(patches, documents);
    InversesSpareVersion(patches, documents);
    ContractStaysObject(patches, documents);
    ApplyAllVersioned(InversesOf(patches, documents).value, ApplyAll(patches, documents).value, version);
  }

  lemma {:induction false} ContractStaysObject(patches: seq<ArtifactPatch>, documents: Documents)
    requires "contract" in documents ==> documents["contract"].Obj?
    requires ApplyAll(patches, documents).Success?
    ensures var repaired := ApplyAll(patches, documents).value;
      "contract" in repaired ==> repaired["contract"].Obj?
  {
    if patches != [] {
      if patches[0].artifact == "contract" {
        TopFrameObject(documents["contract"], patches[0]);
      }
      ContractStaysObject(patches[1..], ApplyTo(documents, patches[0]).value);
    }
  }
}
