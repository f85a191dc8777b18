/** Normalizing a JSON schema: local references are expanded once per path, `allOf` parts are merged, and
    property and item schemas follow suit.
    Source: src/difoundry/discovery/schema.py:10-50. */
module Schema {
  import opened Wrappers
  import opened Json
  import Pointer
  import Sorting
  import Text

  /* ---------- resolving a local reference ---------- */

  /** Following decoded path segments through nested objects; anything else raises. */
  function Lookup(current: Value, parts: seq<string>): Option<Value>
    decreases |parts|
  {
    if parts == [] then Some(current)
    else if current.Obj? && parts[0] in current.members then Lookup(current.members[parts[0]], parts[1..])
    else None
  }

  predicate IsLocal(ref: Value) {
    ref.Str? && |ref.text| >= 2 && ref.text[..2] == "#/"
  }

  function PartsOf(ref: string): seq<string>
    requires |ref| >= 2
  {
    Pointer.UnescapeAll(Text.Split(ref[2..], '/'))
  }

  function Merged(target: map<string, Value>, own: map<string, Value>): map<string, Value>
  {
    target + (own - {"$ref"})
  }

  /** None: the reference is dangling, or does not lead to an object. */
  function Resolve(document: Value, value: Value): Option<Value>
  {
    if !value.Obj? || "$ref" !in value.members || !IsLocal(value.members["$ref"]) then Some(value)
    else
      match Lookup(document, PartsOf(value.members["$ref"].text))
      case Some(Obj(target)) => Some(Obj(Merged(target, value.members)))
      case _ => None
  }

  /** The code walks the document in a loop, decoding one segment at a time. */
  method ResolveLocalRef(document: Value, value: Value) returns (r: Option<Value>)
    ensures r == Resolve(document, value)
  {
    if !value.Obj? || "$ref" !in value.members {
      return Some(value);
    }
    var ref := value.members["$ref"];
    if !IsLocal(ref) {
      return Some(value);
    }
    var raws := Text.Split(ref.text[2..], '/');
    var current := document;
    for i := 0 to |raws|
      invariant Lookup(document, PartsOf(ref.text)) == Lookup(current, Pointer.UnescapeAll(raws[i..]))
    {
      assert Pointer.UnescapeAll(raws[i..])[1..] == Pointer.UnescapeAll(raws[i + 1..]);
      var part := Pointer.Unescape(raws[i]);
      if !current.Obj? || part !in current.members {
        return None;
      }
      current := current.members[part];
    }
    if !current.Obj? {
      return None;
    }
    r := Some(Obj(Merged(current.members, value.members)));
  }

  /* ---------- what the termination argument counts ---------- */

  /** Every reference string anywhere inside a value. */
  ghost function Refs(v: Value): set<string>
  {
    match v
    case Obj(m) => OwnRef(m) + (set k, r | k in m && r in Refs(m[k]) :: r)
    case Arr(xs) => set i, r | 0 <= i < |xs| && r in Refs(xs[i]) :: r
    case _ => {}
  }

  function OwnRef(m: map<string, Value>): set<string>
  {
    if "$ref" in m && m["$ref"].Str? then {m["$ref"].text} else {}
  }

  /** No `allOf` is reachable through properties and items. */
  ghost predicate Flat(v: Value)
  {
    v.Obj? ==>
      && "allOf" !in v.members
      && ("properties" in v.members && v.members["properties"].Obj?
          ==> forall k :: k in v.members["properties"].members ==> Flat(v.members["properties"].members[k]))
      && ("items" in v.members ==> Flat(v.members["items"]))
  }

  /** What the normalizer returns: every schema reachable through properties and items is an object without
      `allOf`. */
  ghost predicate Normalized(v: Value)
  {
    && v.Obj? && "allOf" !in v.members
    && ("properties" in v.members ==>
          v.members["properties"].Obj?
          && forall k :: k in v.members["properties"].members ==> Normalized(v.members["properties"].members[k]))
    && ("items" in v.members ==> Normalized(v.members["items"]))
  }

  lemma {:induction false} NormalizedIsFlat(v: Value)
    requires Normalized(v)
    ensures Flat(v)
  {
    if "properties" in v.members {
      forall k | k in v.members["properties"].members ensures Flat(v.members["properties"].members[k]) {
        NormalizedIsFlat(v.members["properties"].members[k]);
      }
    }
    if "items" in v.members {
      NormalizedIsFlat(v.members["items"]);
    }
  }

  /** What the references of a call can ever be: those of the document and those of the schema itself. */
  ghost function Universe(document: Value, schema: Value): set<string>
  {
    Refs(document) + Refs(schema)
  }

  lemma RefsOfMember(m: map<string, Value>, k: string)
    requires k in m
    ensures Refs(m[k]) <= Refs(Obj(m))
  {
    assert forall r :: r in Refs(m[k]) ==> r in (set k, r | k in m && r in Refs(m[k]) :: r);
  }

  lemma RefsOfItem(xs: seq<Value>, i: nat)
    requires i < |xs|
    ensures Refs(xs[i]) <= Refs(Arr(xs))
  {
  }

  /** An object mentions no more than a set that covers its own reference and its members. */
  lemma RefsWithin(m: map<string, Value>, all: set<string>)
    requires OwnRef(m) <= all && forall k :: k in m ==> Refs(m[k]) <= all
    ensures Refs(Obj(m)) <= all
  {
  }

  lemma {:induction false} RefsOfLookup(current: Value, parts: seq<string>)
    ensures Lookup(current, parts).Some? ==> Refs(Lookup(current, parts).value) <= Refs(current)
    decreases |parts|
  {
    if parts != [] && current.Obj? && parts[0] in current.members {
      RefsOfMember(current.members, parts[0]);
      RefsOfLookup(current.members[parts[0]], parts[1..]);
    }
  }

  lemma RefsOfResolve(document: Value, schema: Value)
    requires schema.Obj?
    ensures Resolve(document, schema).Some? ==>
      Resolve(document, schema).value.Obj? && Refs(Resolve(document, schema).value) <= Universe(document, schema)
  {
    var resolved := Resolve(document, schema);
    if resolved.Some? && resolved.value != schema {
      var parts := PartsOf(schema.members["$ref"].text);
      RefsOfLookup(document, parts);
      var target := Lookup(document, parts).value.members;
      var merged := Merged(target, schema.members);
      forall k | k in merged ensures Refs(merged[k]) <= Universe(document, schema) {
        if k in schema.members && k != "$ref" { RefsOfMember(schema.members, k); } else { RefsOfMember(target, k); }
      }
      RefsWithin(merged, Universe(document, schema));
    }
  }

  /* ---------- merging `allOf` ---------- */

  /** The parts of `allOf`. Iterating an object or a string yields strings, which contribute nothing; other
      values cannot be iterated. */
  function AllOfParts(v: Value): Option<seq<Value>>
  {
    match v
    case Arr(xs) => Some(xs)
    case Obj(_) => Some([])
    case Str(_) => Some([])
    case _ => None
  }

  function PropertiesOf(normalized: Value): map<string, Value>
  {
    if normalized.Obj? && "properties" in normalized.members && normalized.members["properties"].Obj?
    then normalized.members["properties"].members else map[]
  }

  /** `required.extend(...)` and `sorted(set(...))`: lists of strings, and what Python iterates as strings.
      Other lists are taken to raise. */
  function Names(v: Value): Option<set<string>>
  {
    match v
    case Arr(xs) =>
      if forall i :: 0 <= i < |xs| ==> xs[i].Str? then Some(set i | 0 <= i < |xs| :: xs[i].text) else None
    case Str(text) => Some(set i | 0 <= i < |text| :: [text[i]])
    case Obj(m) => Some(m.Keys)
    case _ => None
  }

  function RequiredOf(normalized: Value): Option<set<string>>
  {
    if normalized.Obj? && "required" in normalized.members then Names(normalized.members["required"]) else Some({})
  }

  /** The merged properties, later parts overriding earlier ones. */
  function MergedProperties(parts: seq<Value>): map<string, Value>
  {
    if parts == [] then map[] else MergedProperties(parts[..|parts| - 1]) + PropertiesOf(parts[|parts| - 1])
  }

  function MergedRequired(parts: seq<Value>): Option<set<string>>
  {
    if parts == [] then Some({})
    else
      var before, last := MergedRequired(parts[..|parts| - 1]), RequiredOf(parts[|parts| - 1]);
      if before.Some? && last.Some? then Some(before.value + last.value) else None
  }

  function Strings(names: set<string>): Value
  {
    var sorted := Sorting.Sorted(names);
    Arr(seq(|sorted|, i requires 0 <= i < |sorted| => Str(sorted[i])))
  }

  /** The merged schema: own members override what the parts gave, so own properties replace the merged ones,
      and own required names the merged ones. */
  function Combine(own: map<string, Value>, parts: seq<Value>): Option<map<string, Value>>
  {
    var required := if "required" in own then Names(own["required"]) else MergedRequired(parts);
    var partsRequired := MergedRequired(parts);
    if required.None? || partsRequired.None? then None
    else
      var base := map["type" := Str("object"), "properties" := Obj(MergedProperties(parts))];
      Some((base + (own - {"allOf"}))["required" := Strings(required.value)])
  }

  lemma RefsOfStrings(names: set<string>)
    ensures Refs(Strings(names)) == {}
  {
  }

  lemma {:induction false} MergedFromParts(parts: seq<Value>, all: set<string>)
    requires forall i :: 0 <= i < |parts| ==> Normalized(parts[i]) && Refs(parts[i]) <= all
    ensures forall k :: k in MergedProperties(parts) ==> Normalized(MergedProperties(parts)[k]) && Refs(MergedProperties(parts)[k]) <= all
  {
    if parts != [] {
      var last := parts[|parts| - 1];
      MergedFromParts(parts[..|parts| - 1], all);
      forall k | k in PropertiesOf(last) ensures Normalized(PropertiesOf(last)[k]) && Refs(PropertiesOf(last)[k]) <= all {
        RefsOfMember(last.members["properties"].members, k);
        RefsOfMember(last.members, "properties");
      }
    }
  }

  lemma CombineMembers(own: map<string, Value>, parts: seq<Value>)
    requires Combine(own, parts).Some?
    ensures var combined := Combine(own, parts).value;
            && "allOf" !in combined && "properties" in combined
            && ("items" in combined <==> "items" in own)
            && ("properties" !in own ==> combined["properties"] == Obj(MergedProperties(parts)))
            && (forall k :: k in own && k != "allOf" && k != "required" ==> k in combined && combined[k] == own[k])
            && (forall k :: k in combined ==> k in own || k in {"type", "properties", "required"})
  {
  }

  lemma CombinedMemberRefs(own: map<string, Value>, parts: seq<Value>, all: set<string>, k: string)
    requires Refs(Obj(own)) <= all && Refs(Obj(MergedProperties(parts))) <= all
    requires Combine(own, parts).Some? && k in Combine(own, parts).value
    ensures Refs(Combine(own, parts).value[k]) <= all
  {
    if k == "required" {
      RefsOfStrings(if "required" in own then Names(own["required"]).value else MergedRequired(parts).value);
    } else if k in own && k != "allOf" {
      RefsOfMember(own, k);
    }
  }

  lemma MergedRefs(parts: seq<Value>, all: set<string>)
    requires forall i :: 0 <= i < |parts| ==> Normalized(parts[i]) && Refs(parts[i]) <= all
    ensures Refs(Obj(MergedProperties(parts))) <= all
  {
    MergedFromParts(parts, all);
    RefsWithin(MergedProperties(parts), all);
  }

  /** Merging adds no reference. */
  lemma CombineRefs(own: map<string, Value>, parts: seq<Value>, all: set<string>)
    requires Refs(Obj(own)) <= all && Refs(Obj(MergedProperties(parts))) <= all
    requires Combine(own, parts).Some?
    ensures Refs(Obj(Combine(own, parts).value)) <= all
  {
    var combined := Combine(own, parts).value;
    forall k | k in combined ensures Refs(combined[k]) <= all {
      CombinedMemberRefs(own, parts, all, k);
    }
    CombineOwnRef(own, parts, all);
    RefsWithin(combined, all);
  }

  lemma CombineOwnRef(own: map<string, Value>, parts: seq<Value>, all: set<string>)
    requires Refs(Obj(own)) <= all && Combine(own, parts).Some?
    ensures OwnRef(Combine(own, parts).value) <= all
  {
    CombineMembers(own, parts);
    assert "$ref" in Combine(own, parts).value ==> "$ref" in own;
  }

  /* ---------- the normalizer ---------- */

  function RefOf(schema: Value): Option<string>
    requires schema.Obj?
  {
    if "$ref" in schema.members && schema.members["$ref"].Str? then Some(schema.members["$ref"].text) else None
  }

  function Marker(ref: string): Value
  {
    Obj(map["type" := Str("object"), "x-recursive-ref" := Str(ref)])
  }

  function SeenWith(schema: Value, seen: set<string>): set<string>
    requires schema.Obj?
  {
    if RefOf(schema).Some? then seen + {RefOf(schema).value} else seen
  }

  ghost function Budget(document: Value, schema: Value, seen: set<string>): nat
  {
    |Universe(document, schema) - seen|
  }

  /** The order that every recursive call descends in: references not yet followed; then whether an allOf is
      left to merge; then the schema's own structure. */
  ghost predicate Below(document: Value, child: Value, seen': set<string>, schema: Value, seen: set<string>)
  {
    || Budget(document, child, seen') < Budget(document, schema, seen)
    || (Budget(document, child, seen') <= Budget(document, schema, seen)
        && ((Flat(child) && !Flat(schema)) || ((Flat(schema) ==> Flat(child)) && child < schema)))
  }

  lemma BudgetWithin(document: Value, child: Value, seen': set<string>, schema: Value, seen: set<string>)
    requires schema.Obj? && seen' == SeenWith(schema, seen)
    requires RefOf(schema).Some? ==> RefOf(schema).value !in seen
    requires Refs(child) <= Universe(document, schema)
    ensures Budget(document, child, seen') <= Budget(document, schema, seen)
    ensures RefOf(schema).Some? ==> Budget(document, child, seen') < Budget(document, schema, seen)
  {
    var fewer, more := Universe(document, child) - seen', Universe(document, schema) - seen;
    Fits(fewer, more);
    if RefOf(schema).Some? {
      assert RefOf(schema).value in more - fewer;
      Fits(fewer, more - {RefOf(schema).value});
    }
  }

  lemma Fits(few: set<string>, many: set<string>)
    requires few <= many
    ensures |few| <= |many|
  {
    assert many == few + (many - few);
    assert |many| == |few| + |many - few|;
  }

  /** A call on part of the schema as it stands, or on a merged property. */
  lemma StructurallyBelow(document: Value, child: Value, schema: Value, seen: set<string>)
    requires schema.Obj? && (RefOf(schema).Some? ==> RefOf(schema).value !in seen)
    requires Refs(child) <= Universe(document, schema)
    requires RefOf(schema).None? ==> (Flat(child) && !Flat(schema)) || ((Flat(schema) ==> Flat(child)) && child < schema)
    ensures Below(document, child, SeenWith(schema, seen), schema, seen)
  {
    BudgetWithin(document, child, SeenWith(schema, seen), schema, seen);
  }

  /** Every part of the resolved schema's allOf lies below the schema. */
  lemma PartBelow(document: Value, schema: Value, seen: set<string>, parts: seq<Value>, i: nat)
    requires schema.Obj? && (RefOf(schema).Some? ==> RefOf(schema).value !in seen)
    requires Resolve(document, schema).Some? && Resolve(document, schema).value.Obj?
    requires "allOf" in Resolve(document, schema).value.members
    requires AllOfParts(Resolve(document, schema).value.members["allOf"]) == Some(parts) && i < |parts|
    ensures Refs(parts[i]) <= Universe(document, schema)
    ensures Below(document, parts[i], SeenWith(schema, seen), schema, seen)
  {
    var resolved := Resolve(document, schema).value;
    RefsOfResolve(document, schema);
    RefsOfMember(resolved.members, "allOf");
    RefsOfItem(parts, i);
    StructurallyBelow(document, parts[i], schema, seen);
  }

  /** The schema whose properties and items are normalized next. */
  function Base(own: map<string, Value>, parts: seq<Value>): Option<map<string, Value>>
  {
    if "allOf" in own then Combine(own, parts) else Some(own)
  }

  ghost predicate GoodParts(parts: seq<Value>, all: set<string>) {
    forall i :: 0 <= i < |parts| ==> Normalized(parts[i]) && Refs(parts[i]) <= all
  }

  lemma BaseRefs(document: Value, schema: Value, parts: seq<Value>)
    requires schema.Obj? && Resolve(document, schema).Some? && Resolve(document, schema).value.Obj?
    requires GoodParts(parts, Universe(document, schema))
    requires Base(Resolve(document, schema).value.members, parts).Some?
    ensures Refs(Obj(Base(Resolve(document, schema).value.members, parts).value)) <= Universe(document, schema)
  {
    RefsOfResolve(document, schema);
    MergedRefs(parts, Universe(document, schema));
    if "allOf" in Resolve(document, schema).value.members {
      CombineRefs(Resolve(document, schema).value.members, parts, Universe(document, schema));
    }
  }

  lemma PropertyBelow(document: Value, schema: Value, seen: set<string>, parts: seq<Value>, k: string)
    requires schema.Obj? && (RefOf(schema).Some? ==> RefOf(schema).value !in seen)
    requires Resolve(document, schema).Some? && Resolve(document, schema).value.Obj?
    requires GoodParts(parts, Universe(document, schema))
    requires Base(Resolve(document, schema).value.members, parts).Some?
    requires k in PropertiesOf(Obj(Base(Resolve(document, schema).value.members, parts).value))
    ensures var child := PropertiesOf(Obj(Base(Resolve(document, schema).value.members, parts).value))[k];
            Refs(child) <= Universe(document, schema) && Below(document, child, SeenWith(schema, seen), schema, seen)
  {
    var own := Resolve(document, schema).value.members;
    var base := Base(own, parts).value;
    var child := PropertiesOf(Obj(base))[k];
    BaseRefs(document, schema, parts);
    RefsOfMember(base, "properties");
    RefsOfMember(base["properties"].members, k);
    if "allOf" in own {
      CombineMembers(own, parts);
      if "properties" !in own {
        MergedFromParts(parts, Universe(document, schema));
        NormalizedIsFlat(child);
      }
    }
    StructurallyBelow(document, child, schema, seen);
  }

  lemma ItemsBelow(document: Value, schema: Value, seen: set<string>, parts: seq<Value>)
    requires schema.Obj? && (RefOf(schema).Some? ==> RefOf(schema).value !in seen)
    requires Resolve(document, schema).Some? && Resolve(document, schema).value.Obj?
    requires GoodParts(parts, Universe(document, schema))
    requires Base(Resolve(document, schema).value.members, parts).Some?
    requires "items" in Base(Resolve(document, schema).value.members, parts).value
    ensures var child := Base(Resolve(document, schema).value.members, parts).value["items"];
            Refs(child) <= Universe(document, schema) && Below(document, child, SeenWith(schema, seen), schema, seen)
  {
    var own := Resolve(document, schema).value.members;
    var base := Base(own, parts).value;
    BaseRefs(document, schema, parts);
    RefsOfMember(base, "items");
    if "allOf" in own {
      CombineMembers(own, parts);
    }
    StructurallyBelow(document, base["items"], schema, seen);
  }

  function Unwrap(results: seq<Option<Value>>): (values: seq<Value>)
    requires forall i :: 0 <= i < |results| ==> results[i].Some?
    ensures |values| == |results|
  {
    seq(|results|, i requires 0 <= i < |results| => results[i].value)
  }

  ghost predicate GoodResult(r: Option<Value>, all: set<string>) {
    r.Some? ==> Normalized(r.value) && Refs(r.value) <= all
  }

  lemma UnwrapGood(results: seq<Option<Value>>, all: set<string>)
    requires forall i :: 0 <= i < |results| ==> results[i].Some? && GoodResult(results[i], all)
    ensures GoodParts(Unwrap(results), all)
  {
  }

  function Rebuild(base: map<string, Value>, properties: map<string, Value>, items: Option<Value>): Value
  {
    var withProperties := if "properties" in base then base["properties" := Obj(properties)] else base;
    Obj(if items.Some? then withProperties["items" := items.value] else withProperties)
  }

  lemma RebuildGood(base: map<string, Value>, properties: map<string, Value>, items: Option<Value>, all: set<string>)
    requires Refs(Obj(base)) <= all && "allOf" !in base
    requires forall k :: k in properties ==> Normalized(properties[k]) && Refs(properties[k]) <= all
    requires GoodResult(items, all) && (items.Some? <==> "items" in base)
    ensures GoodResult(Some(Rebuild(base, properties, items)), all)
  {
    var built := Rebuild(base, properties, items).members;
    RefsWithin(properties, all);
    forall k | k in built ensures Refs(built[k]) <= all {
      if k in base { RefsOfMember(base, k); }
    }
    assert OwnRef(built) <= OwnRef(base) <= Refs(Obj(base));
    RefsWithin(built, all);
  }

  /** The normalized schema, unless properties is no object or a child raised. */
  function Assemble(base: map<string, Value>, results: map<string, Option<Value>>, items: Option<Value>): Option<Value>
  {
    if ("properties" in base && !base["properties"].Obj?) || ("items" in base && items.None?) then None
    else if forall k :: k in results ==> results[k].Some? then Some(Rebuild(base, map k | k in results :: results[k].value, items))
    else None
  }

  lemma AssembleGood(base: map<string, Value>, results: map<string, Option<Value>>, items: Option<Value>, all: set<string>)
    requires Refs(Obj(base)) <= all && "allOf" !in base
    requires forall k :: k in results ==> GoodResult(results[k], all)
    requires GoodResult(items, all) && (items.Some? ==> "items" in base)
    ensures GoodResult(Assemble(base, results, items), all)
  {
    if Assemble(base, results, items).Some? {
      RebuildGood(base, map k | k in results :: results[k].value, items, all);
    }
  }

  lemma BaseFlat(own: map<string, Value>, parts: seq<Value>)
    requires Base(own, parts).Some?
    ensures "allOf" !in Base(own, parts).value
  {
  }

  /** None: the code raises. The recursion ends on every document and schema, cyclic references included. */
  function Normalize(document: Value, schema: Value, seen: set<string>): (r: Option<Value>)
    ensures GoodResult(r, Universe(document, schema))
    decreases Budget(document, schema, seen), if Flat(schema) then 0 else 1, schema, 3
  {
    if !schema.Obj? then Some(Obj(map[]))
    else if RefOf(schema).Some? && RefOf(schema).value in seen then Some(Marker(RefOf(schema).value))
    else
      RefsOfResolve(document, schema);
      var resolved := Resolve(document, schema);
      if resolved.None? then None
      else
        var own := resolved.value.members;
        var parts := NormalizeParts(document, schema, seen, own);
        if parts.None? || Base(own, parts.value).None? then None
        else NormalizeChildren(document, schema, seen, parts.value, Base(own, parts.value).value)
  }

  /** The recursive call on a part, property or item schema. */
  function NormalizeBelow(document: Value, child: Value, schema: Value, seen: set<string>): (r: Option<Value>)
    requires schema.Obj? && Refs(child) <= Universe(document, schema)
    requires Below(document, child, SeenWith(schema, seen), schema, seen)
    ensures GoodResult(r, Universe(document, schema))
    decreases Budget(document, schema, seen), if Flat(schema) then 0 else 1, schema, 0
  {
    Normalize(document, child, SeenWith(schema, seen))
  }

  function NormalizeParts(document: Value, schema: Value, seen: set<string>, own: map<string, Value>): (r: Option<seq<Value>>)
    requires schema.Obj? && (RefOf(schema).Some? ==> RefOf(schema).value !in seen)
    requires Resolve(document, schema) == Some(Obj(own))
    ensures r.Some? ==> GoodParts(r.value, Universe(document, schema))
    decreases Budget(document, schema, seen), if Flat(schema) then 0 else 1, schema, 1
  {
    if "allOf" !in own then Some([])
    else
      match AllOfParts(own["allOf"])
      case None => None
      case Some(parts) =>
        var results := seq(|parts|, i requires 0 <= i < |parts| =>
          (PartBelow(document, schema, seen, parts, i); NormalizeBelow(document, parts[i], schema, seen)));
        if forall i :: 0 <= i < |results| ==> results[i].Some? then
          UnwrapGood(results, Universe(document, schema));
          Some(Unwrap(results))
        else None
  }

  /** The property schemas, each on its own. */
  function NormalizeEach(document: Value, schema: Value, seen: set<string>, parts: seq<Value>, base: map<string, Value>): (r: map<string, Option<Value>>)
    requires schema.Obj? && (RefOf(schema).Some? ==> RefOf(schema).value !in seen)
    requires Resolve(document, schema).Some? && Resolve(document, schema).value.Obj?
    requires GoodParts(parts, Universe(document, schema))
    requires Base(Resolve(document, schema).value.members, parts) == Some(base)
    ensures r.Keys == PropertiesOf(Obj(base)).Keys
    ensures forall k :: k in r ==> GoodResult(r[k], Universe(document, schema))
    decreases Budget(document, schema, seen), if Flat(schema) then 0 else 1, schema, 1
  {
    map k | k in PropertiesOf(Obj(base)) ::
      (PropertyBelow(document, schema, seen, parts, k); NormalizeBelow(document, PropertiesOf(Obj(base))[k], schema, seen))
  }

  function NormalizeChildren(document: Value, schema: Value, seen: set<string>, parts: seq<Value>, base: map<string, Value>): (r: Option<Value>)
    requires schema.Obj? && (RefOf(schema).Some? ==> RefOf(schema).value !in seen)
    requires Resolve(document, schema).Some? && Resolve(document, schema).value.Obj?
    requires GoodParts(parts, Universe(document, schema))
    requires Base(Resolve(document, schema).value.members, parts) == Some(base)
    ensures GoodResult(r, Universe(document, schema))
    decreases Budget(document, schema, seen), if Flat(schema) then 0 else 1, schema, 2
  {
    var results := NormalizeEach(document, schema, seen, parts, base);
    var items := if "items" in base then
      (ItemsBelow(document, schema, seen, parts); NormalizeBelow(document, base["items"], schema, seen)) else None;
    BaseRefs(document, schema, parts);
    BaseFlat(Resolve(document, schema).value.members, parts);
    AssembleGood(base, results, items, Universe(document, schema));
    Assemble(base, results, items)
  }
}
