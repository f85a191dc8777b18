/** What the normalizer does to a schema, beyond ending: finished schemas are left alone, a reference stands for
    its target, and `allOf` merges by union with the schema's own members winning.
    Source: src/difoundry/discovery/schema.py:10-50. */
module SchemaLaws {
  import opened Wrappers
  import opened Json
  import opened Schema
  import Patch
  import Pointer
  import Text

  /** Nothing left to do: no reference, no allOf, and well-formed all the way down. */
  ghost predicate Finished(v: Value)
  {
    && v.Obj? && "allOf" !in v.members && "$ref" !in v.members
    && ("properties" in v.members ==>
          v.members["properties"].Obj?
          && forall k :: k in v.members["properties"].members ==> Finished(v.members["properties"].members[k]))
    && ("items" in v.members ==> Finished(v.members["items"]))
  }

  /** The children step in one formula. */
  lemma ChildrenAre(document: Value, schema: Value, seen: set<string>, parts: seq<Value>, base: map<string, Value>)
    requires schema.Obj? && (RefOf(schema).Some? ==> RefOf(schema).value !in seen)
    requires Resolve(document, schema).Some? && Resolve(document, schema).value.Obj?
    requires GoodParts(parts, Universe(document, schema))
    requires Base(Resolve(document, schema).value.members, parts) == Some(base)
    ensures NormalizeChildren(document, schema, seen, parts, base) == Children(document, SeenWith(schema, seen), base)
  {
    if "items" in base {
      ItemsBelow(document, schema, seen, parts);
    }
    EachIs(document, schema, seen, parts, base);
  }

  lemma EachIs(document: Value, schema: Value, seen: set<string>, parts: seq<Value>, base: map<string, Value>)
    requires schema.Obj? && (RefOf(schema).Some? ==> RefOf(schema).value !in seen)
    requires Resolve(document, schema).Some? && Resolve(document, schema).value.Obj?
    requires GoodParts(parts, Universe(document, schema))
    requires Base(Resolve(document, schema).value.members, parts) == Some(base)
    ensures NormalizeEach(document, schema, seen, parts, base) == Each(document, SeenWith(schema, seen), base)
  {
    var properties := PropertiesOf(Obj(base));
    forall k | k in properties
      ensures NormalizeEach(document, schema, seen, parts, base)[k] == Normalize(document, properties[k], SeenWith(schema, seen))
    {
      PropertyBelow(document, schema, seen, parts, k);
      assert NormalizeBelow(document, properties[k], schema, seen) == Normalize(document, properties[k], SeenWith(schema, seen));
    }
  }

  function Each(document: Value, seen: set<string>, base: map<string, Value>): map<string, Option<Value>>
  {
    var properties := PropertiesOf(Obj(base));
    map k | k in properties :: Normalize(document, properties[k], seen)
  }

  /** Every property and the items, normalized with the given references seen. */
  function Children(document: Value, seen: set<string>, base: map<string, Value>): Option<Value>
  {
    Assemble(base, Each(document, seen, base), if "items" in base then Normalize(document, base["items"], seen) else None)
  }

  /** Normalization is the identity on finished schemas; in particular it is idempotent wherever its first
      result holds no leftover reference. */
  lemma {:induction false} FinishedUnchanged(document: Value, v: Value, seen: set<string>)
    requires Finished(v)
    ensures Normalize(document, v, seen) == Some(v)
  {
    var m, properties := v.members, PropertiesOf(v);
    forall k | k in properties ensures Normalize(document, properties[k], seen) == Some(properties[k]) {
      FinishedUnchanged(document, properties[k], seen);
    }
    if "items" in m {
      FinishedUnchanged(document, m["items"], seen);
    }
    ChildrenUnchanged(document, seen, m);
    ChildrenAre(document, v, seen, [], m);
  }

  lemma ChildrenUnchanged(document: Value, seen: set<string>, m: map<string, Value>)
    requires "properties" in m ==> m["properties"].Obj?
    requires forall k :: k in PropertiesOf(Obj(m)) ==> Normalize(document, PropertiesOf(Obj(m))[k], seen) == Some(PropertiesOf(Obj(m))[k])
    requires "items" in m ==> Normalize(document, m["items"], seen) == Some(m["items"])
    ensures Children(document, seen, m) == Some(Obj(m))
  {
    var properties := PropertiesOf(Obj(m));
    EachUnchanged(document, seen, m);
    AssembleSame(m, properties, if "items" in m then Some(m["items"]) else None);
  }

  lemma EachUnchanged(document: Value, seen: set<string>, m: map<string, Value>)
    requires forall k :: k in PropertiesOf(Obj(m)) ==> Normalize(document, PropertiesOf(Obj(m))[k], seen) == Some(PropertiesOf(Obj(m))[k])
    ensures Each(document, seen, m) == map k | k in PropertiesOf(Obj(m)) :: Some(PropertiesOf(Obj(m))[k])
  {
  }

  lemma AssembleSame(m: map<string, Value>, properties: map<string, Value>, items: Option<Value>)
    requires "properties" in m ==> m["properties"] == Obj(properties)
    requires items == if "items" in m then Some(m["items"]) else None
    ensures Assemble(m, map k | k in properties :: Some(properties[k]), items) == Some(Obj(m))
  {
    var results := map k | k in properties :: Some(properties[k]);
    assert (map k | k in results :: results[k].value) == properties;
    RebuildSame(m, properties, items);
  }

  lemma RebuildSame(m: map<string, Value>, properties: map<string, Value>, items: Option<Value>)
    requires "properties" in m ==> m["properties"] == Obj(properties)
    requires items == if "items" in m then Some(m["items"]) else None
    ensures Rebuild(m, properties, items) == Obj(m)
  {
    assert Rebuild(m, properties, items).members == m;
  }

  /* ---------- one step, freed of its bookkeeping ---------- */

  /** The allOf parts, each normalized. */
  function PartsIn(document: Value, seen: set<string>, own: map<string, Value>): Option<seq<Value>>
  {
    if "allOf" !in own then Some([])
    else
      match AllOfParts(own["allOf"])
      case None => None
      case Some(parts) =>
        var results := seq(|parts|, i requires 0 <= i < |parts| => Normalize(document, parts[i], seen));
        if forall i :: 0 <= i < |results| ==> results[i].Some? then Some(Unwrap(results)) else None
  }

  lemma PartsAre(document: Value, schema: Value, seen: set<string>, own: map<string, Value>)
    requires schema.Obj? && (RefOf(schema).Some? ==> RefOf(schema).value !in seen)
    requires Resolve(document, schema) == Some(Obj(own))
    ensures NormalizeParts(document, schema, seen, own) == PartsIn(document, SeenWith(schema, seen), own)
  {
    if "allOf" in own && AllOfParts(own["allOf"]).Some? {
      var parts := AllOfParts(own["allOf"]).value;
      forall i | 0 <= i < |parts|
        ensures Refs(parts[i]) <= Universe(document, schema) && Below(document, parts[i], SeenWith(schema, seen), schema, seen)
      {
        PartBelow(document, schema, seen, parts, i);
      }
      SameResults(document, schema, seen, parts);
    }
  }

  lemma SameResults(document: Value, schema: Value, seen: set<string>, parts: seq<Value>)
    requires schema.Obj?
    requires forall i :: 0 <= i < |parts| ==>
      Refs(parts[i]) <= Universe(document, schema) && Below(document, parts[i], SeenWith(schema, seen), schema, seen)
    ensures seq(|parts|, i requires 0 <= i < |parts| => NormalizeBelow(document, parts[i], schema, seen))
         == seq(|parts|, i requires 0 <= i < |parts| => Normalize(document, parts[i], SeenWith(schema, seen)))
  {
  }

  function StepWith(document: Value, seen: set<string>, own: map<string, Value>): Option<Value>
  {
    var parts := PartsIn(document, seen, own);
    if parts.None? || Base(own, parts.value).None? then None else Children(document, seen, Base(own, parts.value).value)
  }

  /** The result depends only on the resolved members and the references seen so far, not on how the schema came
      to resolve to them. */
  lemma NormalizeIsStep(document: Value, schema: Value, seen: set<string>, own: map<string, Value>)
    requires schema.Obj? && (RefOf(schema).Some? ==> RefOf(schema).value !in seen)
    requires Resolve(document, schema) == Some(Obj(own))
    ensures Normalize(document, schema, seen) == StepWith(document, SeenWith(schema, seen), own)
  {
    NormalizeUnfolds(document, schema, seen, own);
    PartsAre(document, schema, seen, own);
    var parts := NormalizeParts(document, schema, seen, own);
    if parts.Some? && Base(own, parts.value).Some? {
      ChildrenAre(document, schema, seen, parts.value, Base(own, parts.value).value);
    }
  }

  lemma NormalizeUnfolds(document: Value, schema: Value, seen: set<string>, own: map<string, Value>)
    requires schema.Obj? && (RefOf(schema).Some? ==> RefOf(schema).value !in seen)
    requires Resolve(document, schema) == Some(Obj(own))
    ensures var parts := NormalizeParts(document, schema, seen, own);
            Normalize(document, schema, seen)
            == if parts.None? || Base(own, parts.value).None? then None
               else NormalizeChildren(document, schema, seen, parts.value, Base(own, parts.value).value)
  {
  }

  /** A reference means its target: expanding it gives what its target gives with the reference marked as seen,
      provided the target is not itself a reference. */
  lemma ReferenceMeansTarget(document: Value, ref: string, seen: set<string>, target: map<string, Value>)
    requires IsLocal(Str(ref)) && ref !in seen && "$ref" !in target
    requires Lookup(document, PartsOf(ref)) == Some(Obj(target))
    ensures Normalize(document, Obj(map["$ref" := Str(ref)]), seen) == Normalize(document, Obj(target), seen + {ref})
  {
    var schema := Obj(map["$ref" := Str(ref)]);
    assert Merged(target, schema.members) == target;
    NormalizeIsStep(document, schema, seen, target);
    NormalizeIsStep(document, Obj(target), seen + {ref}, target);
  }

  /** Only one reference is followed: the result still carries a reference exactly when the target carries one. */
  lemma LeftoverReferenceIff(document: Value, schema: Value, seen: set<string>, target: map<string, Value>)
    requires schema.Obj? && RefOf(schema).Some? && RefOf(schema).value !in seen && IsLocal(Str(RefOf(schema).value))
    requires Lookup(document, PartsOf(RefOf(schema).value)) == Some(Obj(target))
    requires Normalize(document, schema, seen).Some?
    ensures "$ref" in Normalize(document, schema, seen).value.members <==> "$ref" in target
  {
    var own := Merged(target, schema.members);
    assert Resolve(document, schema) == Some(Obj(own));
    NormalizeIsStep(document, schema, seen, own);
    var parts := PartsIn(document, SeenWith(schema, seen), own).value;
    if "allOf" in own {
      CombineMembers(own, parts);
    }
    var base := Base(own, parts).value;
    assert "$ref" in base <==> "$ref" in own;
  }

  /* ---------- allOf merges by union; own members win ---------- */

  ghost predicate Provides(parts: seq<Value>, k: string) {
    exists i :: 0 <= i < |parts| && k in PropertiesOf(parts[i])
  }

  lemma {:induction false} MergedKeys(parts: seq<Value>, k: string)
    ensures k in MergedProperties(parts) <==> Provides(parts, k)
  {
    if parts != [] {
      var front := parts[..|parts| - 1];
      MergedKeys(front, k);
      if Provides(front, k) {
        var i :| 0 <= i < |front| && k in PropertiesOf(front[i]);
        assert k in PropertiesOf(parts[i]);
      }
      if Provides(parts, k) && k !in PropertiesOf(parts[|parts| - 1]) {
        var i :| 0 <= i < |parts| && k in PropertiesOf(parts[i]);
        assert k in PropertiesOf(front[i]);
      }
    }
  }

  ghost predicate Requires(parts: seq<Value>, name: string) {
    exists i :: 0 <= i < |parts| && RequiredOf(parts[i]).Some? && name in RequiredOf(parts[i]).value
  }

  lemma {:induction false} MergedNames(parts: seq<Value>, name: string)
    requires MergedRequired(parts).Some?
    ensures name in MergedRequired(parts).value <==> Requires(parts, name)
  {
    if parts != [] {
      var front := parts[..|parts| - 1];
      MergedNames(front, name);
      if Requires(front, name) {
        var i :| 0 <= i < |front| && RequiredOf(front[i]).Some? && name in RequiredOf(front[i]).value;
        assert name in RequiredOf(parts[i]).value;
      }
      if Requires(parts, name) && name !in RequiredOf(parts[|parts| - 1]).value {
        var i :| 0 <= i < |parts| && RequiredOf(parts[i]).Some? && name in RequiredOf(parts[i]).value;
        assert name in RequiredOf(front[i]).value;
      }
    }
  }

  /** What a schema with allOf resolves to before its children are normalized, and that the children step keeps
      the property names and required list. */
  lemma AllOfBase(document: Value, schema: Value, seen: set<string>, own: map<string, Value>) returns (parts: seq<Value>, base: map<string, Value>)
    requires schema.Obj? && (RefOf(schema).Some? ==> RefOf(schema).value !in seen)
    requires Resolve(document, schema) == Some(Obj(own)) && "allOf" in own
    requires Normalize(document, schema, seen).Some?
    ensures PartsIn(document, SeenWith(schema, seen), own) == Some(parts) && Combine(own, parts) == Some(base)
    ensures var result := Normalize(document, schema, seen).value;
            && PropertiesOf(result).Keys == PropertiesOf(Obj(base)).Keys
            && ("required" in base ==> "required" in result.members && result.members["required"] == base["required"])
  {
    NormalizeIsStep(document, schema, seen, own);
    parts := PartsIn(document, SeenWith(schema, seen), own).value;
    base := Combine(own, parts).value;
    ChildrenKeep(document, SeenWith(schema, seen), base);
  }

  /** The properties of a schema with allOf: those of any part, unless the schema has properties of its own,
      which then replace them all. */
  lemma AllOfProperties(document: Value, schema: Value, seen: set<string>, own: map<string, Value>, k: string)
    requires schema.Obj? && (RefOf(schema).Some? ==> RefOf(schema).value !in seen)
    requires Resolve(document, schema) == Some(Obj(own)) && "allOf" in own
    requires Normalize(document, schema, seen).Some?
    ensures PartsIn(document, SeenWith(schema, seen), own).Some?
    ensures k in PropertiesOf(Normalize(document, schema, seen).value) <==>
            if "properties" in own then own["properties"].Obj? && k in own["properties"].members
            else Provides(PartsIn(document, SeenWith(schema, seen), own).value, k)
  {
    var parts, base := AllOfBase(document, schema, seen, own);
    CombineMembers(own, parts);
    MergedKeys(parts, k);
    assert k in PropertiesOf(Obj(base)) <==> k in PropertiesOf(Normalize(document, schema, seen).value).Keys;
  }

  /** Likewise the required names, always sorted and without repetition. */
  lemma AllOfRequired(document: Value, schema: Value, seen: set<string>, own: map<string, Value>) returns (names: set<string>)
    requires schema.Obj? && (RefOf(schema).Some? ==> RefOf(schema).value !in seen)
    requires Resolve(document, schema) == Some(Obj(own)) && "allOf" in own
    requires Normalize(document, schema, seen).Some?
    ensures PartsIn(document, SeenWith(schema, seen), own).Some?
    ensures "required" in Normalize(document, schema, seen).value.members
    ensures Normalize(document, schema, seen).value.members["required"] == Strings(names)
    ensures forall name :: name in names <==>
            if "required" in own then Names(own["required"]).Some? && name in Names(own["required"]).value
            else Requires(PartsIn(document, SeenWith(schema, seen), own).value, name)
  {
    var parts, base := AllOfBase(document, schema, seen, own);
    names := if "required" in own then Names(own["required"]).value else MergedRequired(parts).value;
    forall name ensures name in MergedRequired(parts).value <==> Requires(parts, name) {
      MergedNames(parts, name);
    }
    assert base["required"] == Strings(names);
  }

  lemma ChildrenKeep(document: Value, seen: set<string>, base: map<string, Value>)
    requires Children(document, seen, base).Some?
    ensures Children(document, seen, base).value.Obj?
    ensures PropertiesOf(Children(document, seen, base).value).Keys == PropertiesOf(Obj(base)).Keys
    ensures "required" in base ==>
      "required" in Children(document, seen, base).value.members && Children(document, seen, base).value.members["required"] == base["required"]
  {
  }

  /** The last part that provides a property. */
  ghost predicate LastProvider(parts: seq<Value>, k: string, i: nat)
  {
    i < |parts| && k in PropertiesOf(parts[i]) && forall j :: i < j < |parts| ==> k !in PropertiesOf(parts[j])
  }

  /** Later parts override earlier ones. */
  lemma {:induction false} LastPartWins(parts: seq<Value>, k: string, i: nat)
    requires LastProvider(parts, k, i)
    ensures k in MergedProperties(parts) && MergedProperties(parts)[k] == PropertiesOf(parts[i])[k]
  {
    var last := |parts| - 1;
    if i < last {
      assert LastProvider(parts[..last], k, i) by {
        assert forall j :: i < j < last ==> parts[..last][j] == parts[j];
      }
      LastPartWins(parts[..last], k, i);
    }
  }

  /** Every property of the result is the normalized property of what the children step started from; other members but
      items are as they were. */
  lemma ChildrenValues(document: Value, seen: set<string>, base: map<string, Value>, k: string)
    requires Children(document, seen, base).Some?
    ensures Children(document, seen, base).value.Obj?
    ensures k in PropertiesOf(Obj(base)) ==>
              var result := PropertiesOf(Children(document, seen, base).value);
              k in result && Normalize(document, PropertiesOf(Obj(base))[k], seen) == Some(result[k])
    ensures k in base && k !in {"properties", "items"} ==>
              k in Children(document, seen, base).value.members && Children(document, seen, base).value.members[k] == base[k]
    ensures "items" in base ==>
              "items" in Children(document, seen, base).value.members &&
              Normalize(document, base["items"], seen) == Some(Children(document, seen, base).value.members["items"])
    ensures k in Children(document, seen, base).value.members <==> k in base
  {
  }

  /** The value of a property under allOf: the normalization of the schema's own property if it has properties, and
      otherwise of the last part's that provides it. */
  lemma AllOfPropertyValue(document: Value, schema: Value, seen: set<string>, own: map<string, Value>, k: string, i: nat)
    requires schema.Obj? && (RefOf(schema).Some? ==> RefOf(schema).value !in seen)
    requires Resolve(document, schema) == Some(Obj(own)) && "allOf" in own
    requires Normalize(document, schema, seen).Some?
    requires PartsIn(document, SeenWith(schema, seen), own).Some?
    ensures var result, parts := PropertiesOf(Normalize(document, schema, seen).value), PartsIn(document, SeenWith(schema, seen), own).value;
            if "properties" in own then
              PropertiesOf(Obj(own)).Keys == result.Keys &&
              (k in result ==> Normalize(document, PropertiesOf(Obj(own))[k], SeenWith(schema, seen)) == Some(result[k]))
            else LastProvider(parts, k, i) ==>
              k in result && Normalize(document, PropertiesOf(parts[i])[k], SeenWith(schema, seen)) == Some(result[k])
  {
    var parts, base := AllOfBase(document, schema, seen, own);
    NormalizeIsStep(document, schema, seen, own);
    CombineMembers(own, parts);
    ChildrenKeep(document, SeenWith(schema, seen), base);
    ChildrenValues(document, SeenWith(schema, seen), base, k);
    if "properties" !in own && LastProvider(parts, k, i) {
      LastPartWins(parts, k, i);
    }
  }

  /** The other members under allOf: those of the schema stay, and the type is object unless the schema says otherwise. */
  lemma AllOfMembers(document: Value, schema: Value, seen: set<string>, own: map<string, Value>, k: string)
    requires schema.Obj? && (RefOf(schema).Some? ==> RefOf(schema).value !in seen)
    requires Resolve(document, schema) == Some(Obj(own)) && "allOf" in own
    requires Normalize(document, schema, seen).Some? && k !in {"allOf", "required", "properties", "items"}
    ensures var result := Normalize(document, schema, seen).value;
            && result.Obj? && (k in result.members <==> k in own || k == "type")
            && (k in own ==> result.members[k] == own[k])
            && (k !in own && k == "type" ==> result.members[k] == Str("object"))
  {
    NormalizeIsStep(document, schema, seen, own);
    var parts := PartsIn(document, SeenWith(schema, seen), own).value;
    CombinedMember(own, parts, k);
    ChildrenValues(document, SeenWith(schema, seen), Combine(own, parts).value, k);
  }

  lemma CombinedMember(own: map<string, Value>, parts: seq<Value>, k: string)
    requires Combine(own, parts).Some? && k !in {"allOf", "required", "properties", "items"}
    ensures var combined := Combine(own, parts).value;
            && (k in combined <==> k in own || k == "type")
            && (k in combined ==> combined[k] == if k in own then own[k] else Str("object"))
  {
  }

  /** What does not recurse: a schema that is no object becomes the empty one, and a reference met a second time on its
      way is marked instead of followed. */
  lemma EndsOfRecursion(document: Value, schema: Value, seen: set<string>)
    ensures !schema.Obj? ==> Normalize(document, schema, seen) == Some(Obj(map[]))
    ensures schema.Obj? && RefOf(schema).Some? && RefOf(schema).value in seen ==>
              var r := Normalize(document, schema, seen);
              r.Some? && r.value.Obj? && r.value.members == map["type" := Str("object"), "x-recursive-ref" := schema.members["$ref"]]
  {
  }

  /** The names in a `required` text are its characters. */
  lemma NamesOfText(text: string, name: string)
    ensures Names(Str(text)).Some? && (name in Names(Str(text)).value <==> |name| == 1 && name[0] in text)
  {
    if |name| == 1 && name[0] in text {
      var i :| 0 <= i < |text| && text[i] == name[0];
      assert name == [text[i]];
    }
  }

  /** The names in a `required` list of strings. */
  lemma NamesOfList(xs: seq<Value>, name: string)
    ensures Names(Arr(xs)).Some? <==> forall i :: 0 <= i < |xs| ==> xs[i].Str?
    ensures Names(Arr(xs)).Some? ==> (name in Names(Arr(xs)).value <==> Str(name) in xs)
  {
  }

  /** Without allOf: every property and the items are normalized, everything else stays as it resolved. */
  lemma WithoutAllOf(document: Value, schema: Value, seen: set<string>, own: map<string, Value>, k: string)
    requires schema.Obj? && (RefOf(schema).Some? ==> RefOf(schema).value !in seen)
    requires Resolve(document, schema) == Some(Obj(own)) && "allOf" !in own
    requires Normalize(document, schema, seen).Some?
    ensures var result := Normalize(document, schema, seen).value;
            && result.Obj? && result.members.Keys == own.Keys
            && (k in own && k !in {"properties", "items"} ==> result.members[k] == own[k])
            && ("items" in own ==> Normalize(document, own["items"], SeenWith(schema, seen)) == Some(result.members["items"]))
            && (k in PropertiesOf(Obj(own)) ==> k in PropertiesOf(result))
            && (k in PropertiesOf(Obj(own)) ==>
                  Normalize(document, PropertiesOf(Obj(own))[k], SeenWith(schema, seen)) == Some(PropertiesOf(result)[k]))
  {
    NormalizeIsStep(document, schema, seen, own);
    ChildrenValues(document, SeenWith(schema, seen), own, k);
    forall name ensures name in Normalize(document, schema, seen).value.members <==> name in own {
      ChildrenValues(document, SeenWith(schema, seen), own, name);
    }
  }

  /* ---------- references ---------- */

  /** Resolving a local reference: members beside it win, the others are the target's, and the reference itself is gone
      unless the target has one. Without a local reference the schema is left alone. */
  lemma ResolvedMembers(document: Value, schema: Value, k: string)
    requires schema.Obj? && Resolve(document, schema).Some?
    ensures Resolve(document, schema).value.Obj?
    ensures var own, result := schema.members, Resolve(document, schema).value.members;
            if "$ref" !in own || !IsLocal(own["$ref"]) then result == own
            else
              var target := Lookup(document, PartsOf(own["$ref"].text));
              && target.Some? && target.value.Obj?
              && (k in result <==> k in target.value.members || (k in own && k != "$ref"))
              && (k in own && k != "$ref" ==> result[k] == own[k])
              && (k in result && (k !in own || k == "$ref") ==> result[k] == target.value.members[k])
  {
  }

  /** A reference written from keys leads through exactly those keys. */
  lemma ReferenceOfKeys(keys: seq<string>)
    requires keys != []
    ensures IsLocal(Str("#" + Pointer.Render(keys))) && PartsOf("#" + Pointer.Render(keys)) == keys
  {
    Pointer.TokensOfRender(keys);
    var path := Pointer.Render(keys);
    assert path != "" && path[0] == '/';
    assert ("#" + path)[2..] == path[1..];
    Text.SplitCons('/', path[1..], '/');
    assert ['/'] + path[1..] == path;
  }

  /** It is followed as the patch applier follows a pointer, except that every step must be a member of an object. */
  lemma {:induction false} LookupIsWalk(node: Value, parts: seq<string>)
    ensures Lookup(node, parts).Some? <==>
              Patch.Walk(node, parts).Success? && forall i :: 0 <= i < |parts| ==> AtObject(node, parts[..i])
    ensures Lookup(node, parts).Some? ==> Patch.Walk(node, parts) == Success(Lookup(node, parts).value)
    decreases |parts|
  {
    if parts != [] {
      assert parts[..0] == [];
      if node.Obj? && parts[0] in node.members {
        LookupIsWalk(node.members[parts[0]], parts[1..]);
        forall i | 0 < i <= |parts| ensures AtObject(node, parts[..i]) <==> AtObject(node.members[parts[0]], parts[1..][..i - 1]) {
          assert parts[..i][0] == parts[0] && parts[..i][1..] == parts[1..][..i - 1];
        }
        WalkedObjects(node, parts);
      } else {
        assert node.Obj? || !AtObject(node, parts[..0]);
      }
    }
  }

  predicate AtObject(node: Value, parts: seq<string>)
  {
    Patch.Walk(node, parts).Success? && Patch.Walk(node, parts).value.Obj?
  }

  lemma WalkedObjects(node: Value, parts: seq<string>)
    requires parts != [] && node.Obj? && parts[0] in node.members
    requires forall i :: 0 < i <= |parts| ==> (AtObject(node, parts[..i]) <==> AtObject(node.members[parts[0]], parts[1..][..i - 1]))
    ensures (forall i :: 0 <= i < |parts| ==> AtObject(node, parts[..i])) <==>
            (forall i :: 0 <= i < |parts| - 1 ==> AtObject(node.members[parts[0]], parts[1..][..i]))
  {
    assert parts[..0] == [] && AtObject(node, []);
    if forall i :: 0 <= i < |parts| ==> AtObject(node, parts[..i]) {
      forall i | 0 <= i < |parts| - 1 ensures AtObject(node.members[parts[0]], parts[1..][..i]) {
        assert AtObject(node, parts[..i + 1]);
      }
    }
  }
}
