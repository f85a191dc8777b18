/** The structured repairs of `RepairGenerator.propose`, and why their rollbacks are always exact. */
module Generator {
  import opened Wrappers
  import opened Json
  import opened Text
  import opened Pointer
  import opened Patch
  import opened Rollback

  /** The evidence a structured repair carries, by repair type. */
  datatype Evidence =
    | FieldRenamed(mapping: nat, newField: string, observedSchema: Option<Value>)
    | RequiredFieldAdded(rule: Value, observedSchema: Option<Value>)
    | PermissionChanged(required: Value, granted: bool)
    | EndpointChanged(newPath: string)

  /** The attributed action and operation: `_action_location` and `operation_index`. */
  datatype Site = Site(route: nat, action: nat, operation: nat, systemId: string)

  function ActionLocation(site: Site): string
  {
    "/routes/" + Decimal(site.route) + "/actions/" + Decimal(site.action)
  }

  function ProfilePatch(site: Site, field: string, value: Value): ArtifactPatch
  {
    ArtifactPatch("profile:" + site.systemId, Replace, "/operations/" + Decimal(site.operation) + "/" + field, value)
  }

  function SchemaPatches(site: Site, observed: Option<Value>): seq<ArtifactPatch>
  {
    match observed
    case Some(schema) => [ProfilePatch(site, "request_schema", schema)]
    case None => []
  }

  function Proposed(evidence: Evidence, site: Site): seq<ArtifactPatch>
  {
    match evidence
    case FieldRenamed(mapping, newField, observed) =>
      [ArtifactPatch("contract", Replace, ActionLocation(site) + "/mappings/" + Decimal(mapping) + "/target", Str(newField))]
      + SchemaPatches(site, observed)
    case RequiredFieldAdded(rule, observed) =>
      [ArtifactPatch("contract", Add, ActionLocation(site) + "/mappings/" + "-", rule)] + SchemaPatches(site, observed)
    case PermissionChanged(required, granted) =>
      [ProfilePatch(site, "required_permissions", required),
       ArtifactPatch("contract", if granted then Replace else Add, PermissionPath(site.systemId), required)]
    case EndpointChanged(newPath) =>
      [ProfilePatch(site, "path", Str(newPath))]
  }

  const PERMISSIONS: string := "permissions"

  function PermissionPath(systemId: string): string
  {
    "/" + PERMISSIONS + "/" + Escape(systemId)
  }

  /** A dumped contract: an object whose `permissions` member is an object. */
  predicate ContractShape(documents: Documents)
  {
    "contract" in documents && documents["contract"].Obj? &&
    "permissions" in documents["contract"].members &&
    documents["contract"].members["permissions"].Obj?
  }

  /** `drift.target_system_id in contract.permissions`, read off the contract document. */
  predicate GrantedIn(documents: Documents, systemId: string)
    requires ContractShape(documents)
  {
    systemId in documents["contract"].members["permissions"].members
  }

  lemma TwoTokens(first: string, raw: string)
    requires '/' !in first && '~' !in first && '/' !in raw
    ensures Tokens("/" + first + "/" + raw) == [first, Unescape(raw)]
  {
    NoTilde(first);
    TokensAppend("", first);
    assert Tokens("") == [] && "" + "/" + first == "/" + first;
    TokensAppend("/" + first, raw);
    assert "/" + first + "/" + raw == ("/" + first) + "/" + raw;
  }

  lemma PermissionTokens(systemId: string)
    ensures Tokens(PermissionPath(systemId)) == [PERMISSIONS, systemId]
  {
    UnescapeEscape(systemId);
    TwoTokens(PERMISSIONS, Escape(systemId));
  }

  /** A replacement, or an append, is undoable wherever it applies. */
  lemma ReplaceOrAppendUndoable(document: Value, patch: ArtifactPatch)
    requires IsPointer(patch.path)
    requires ApplyPointer(document, patch).Success?
    requires patch.operation.Replace? ||
             (patch.operation.Add? && Inverse(document, patch).Success? && Tokens(patch.path)[|Tokens(patch.path)| - 1] == "-")
    ensures Undoable(document, patch)
  {
    if patch.operation.Add? {
      DashIsSuffix(patch.path);
      ResolvedAppend(document, patch.path);
      AppendParent(document, patch.path);
    }
  }

  /** The parent of an append that could be resolved is a list. */
  lemma AppendParent(document: Value, path: string)
    requires |path| >= 2 && Tokens(path) == Tokens(path[..|path| - 2]) + ["-"]
    requires Walk(document, Tokens(path[..|path| - 2])).Success? && Walk(document, Tokens(path[..|path| - 2])).value.Arr?
    ensures var parts := Tokens(path);
      parts != [] && Walk(document, parts[..|parts| - 1]).Success? && Walk(document, parts[..|parts| - 1]).value.Arr?
      && parts[|parts| - 1] == "-"
  {
    var parts := Tokens(path);
    assert parts[..|parts| - 1] == Tokens(path[..|path| - 2]);
  }

  lemma PermissionAddUndoable(documents: Documents, systemId: string, patch: ArtifactPatch)
    requires ContractShape(documents) && !GrantedIn(documents, systemId)
    requires patch.artifact == "contract" && patch.operation.Add? && patch.path == PermissionPath(systemId)
    ensures Undoable(documents["contract"], patch)
  {
    PermissionTokens(systemId);
    assert [PERMISSIONS, systemId][..1] == [PERMISSIONS];
    WalkOne(documents["contract"], PERMISSIONS);
  }

  /** The patch shapes `propose` emits. */
  predicate Shaped(patch: ArtifactPatch, documents: Documents, systemId: string)
    requires ContractShape(documents)
  {
    IsPointer(patch.path) &&
    ( patch.operation.Replace?
    || (patch.operation.Add? && Tokens(patch.path) != [] && Tokens(patch.path)[|Tokens(patch.path)| - 1] == "-")
    || (patch.artifact == "contract" && patch.operation.Add? && patch.path == PermissionPath(systemId)
        && !GrantedIn(documents, systemId)))
  }

  lemma ShapedUndoable(patch: ArtifactPatch, documents: Documents, systemId: string)
    requires ContractShape(documents) && Shaped(patch, documents, systemId)
    requires patch.artifact in documents
    requires ApplyPointer(documents[patch.artifact], patch).Success?
    requires Inverse(documents[patch.artifact], patch).Success?
    ensures Undoable(documents[patch.artifact], patch)
  {
    if patch.operation.Replace? || Tokens(patch.path)[|Tokens(patch.path)| - 1] == "-" {
      ReplaceOrAppendUndoable(documents[patch.artifact], patch);
    } else {
      PermissionAddUndoable(documents, systemId, patch);
    }
  }

  lemma ProposedShaped(evidence: Evidence, site: Site, documents: Documents)
    requires ContractShape(documents)
    requires evidence.PermissionChanged? ==> evidence.granted == GrantedIn(documents, site.systemId)
    ensures forall i :: 0 <= i < |Proposed(evidence, site)| ==> Shaped(Proposed(evidence, site)[i], documents, site.systemId)
    ensures 1 <= |Proposed(evidence, site)| <= 2
    ensures |Proposed(evidence, site)| == 2 ==> Proposed(evidence, site)[0].artifact != Proposed(evidence, site)[1].artifact
    ensures |Proposed(evidence, site)| == 2 && Proposed(evidence, site)[0].artifact == "contract"
      ==> Proposed(evidence, site)[1].operation.Replace?
  {
    assert ("profile:" + site.systemId)[0] == 'p' && "contract"[0] == 'c';
    if evidence.RequiredFieldAdded? {
      TokensAppend(ActionLocation(site) + "/mappings", "-");
      NoTilde("-");
      assert ActionLocation(site) + "/mappings/" + "-" == ActionLocation(site) + "/mappings" + "/" + "-";
    }
  }

  /** A second patch of another document is as undoable after the first as before it. */
  lemma SecondUndoable(second: ArtifactPatch, documents: Documents, next: Documents, systemId: string)
    requires ContractShape(documents) && Shaped(second, documents, systemId)
    requires second.artifact in documents && second.artifact in next && documents[second.artifact] == next[second.artifact]
    requires InversesOf([second], next).Success?
    ensures AllUndoable([second], next) && ApplyAll([second], next).Success?
  {
    assert [second][0] == second && [second][1..] == [];
    ShapedUndoable(second, documents, systemId);
    ApplyOne(second, next);
    assert AllUndoable([], ApplyTo(next, second).value);
  }

  /** Every structured repair the generator accepts is undone exactly by the rollback it generated. */
  lemma ProposedRollbackRestores(evidence: Evidence, site: Site, documents: Documents)
    requires ContractShape(documents)
    requires evidence.PermissionChanged? ==> evidence.granted == GrantedIn(documents, site.systemId)
    requires InversesOf(Proposed(evidence, site), documents).Success?
    ensures var patches := Proposed(evidence, site);
      && ApplyAll(patches, documents).Success?
      && ApplyAll(InversesOf(patches, documents).value, ApplyAll(patches, documents).value) == Success(documents)
  {
    var patches := Proposed(evidence, site);
    ProposedShaped(evidence, site, documents);
    ShapedUndoable(patches[0], documents, site.systemId);
    var next := ApplyTo(documents, patches[0]).value;
    if |patches| == 1 {
      assert patches == [patches[0]];
      ApplyOne(patches[0], documents);
    } else {
      assert patches[1..] == [patches[1]];
      SecondUndoable(patches[1], documents, next, site.systemId);
    }
    RollbackRestores(patches, documents);
  }

  /** The one structured repair the generator cannot roll back and therefore refuses: granting a first
      permission to a system called "-", whose path reads as an append. */
  lemma DashSystemIsRefused(documents: Documents, site: Site, required: Value)
    requires ContractShape(documents) && !GrantedIn(documents, site.systemId)
    ensures Inverse(documents["contract"], ArtifactPatch("contract", Add, PermissionPath(site.systemId), required)).Success?
       <==> site.systemId != "-"
  {
    var document, path := documents["contract"], PermissionPath(site.systemId);
    var patch := ArtifactPatch("contract", Add, path, required);
    PermissionTokens(site.systemId);
    if |path| >= 2 && path[|path| - 2..] == "/-" {
      var parentPath := path[..|path| - 2];
      assert path == parentPath + "/" + "-";
      TokensAppend(parentPath, "-");
      NoTilde("-");
      assert Tokens(parentPath) == Tokens(path)[..1] == [PERMISSIONS];
      WalkOne(document, PERMISSIONS);
    } else if site.systemId == "-" {
      DashIsSuffix(path);
    }
  }

  /* ---------- what a repair addresses ---------- */

  /** The patch does one operation on the document under a list of keys. */
  predicate Addresses(patch: ArtifactPatch, artifact: string, operation: Operation, keys: seq<string>, value: Value)
  {
    patch.artifact == artifact && patch.operation == operation && Tokens(patch.path) == keys && patch.value == value
  }

  /** A segment without special characters is one more key. */
  lemma OneKey(path: string, key: string)
    requires '/' !in key && '~' !in key
    ensures Tokens(path + "/" + key) == Tokens(path) + [key]
  {
    TokensAppend(path, key);
    NoTilde(key);
  }

  lemma DecimalPlain(n: nat)
    ensures '/' !in Decimal(n) && '~' !in Decimal(n)
  {
  }

  predicate Plain(key: string)
  {
    '/' !in key && '~' !in key
  }

  lemma ThreeKeys(a: string, b: string, c: string)
    requires Plain(a) && Plain(b) && Plain(c)
    ensures Tokens("/" + a + "/" + b + "/" + c) == [a, b, c]
  {
    var one, two := "" + "/" + a, "" + "/" + a + "/" + b;
    OneKey("", a);
    OneKey(one, b);
    OneKey(two, c);
    assert "" + "/" + a == "/" + a;
  }

  lemma FourKeys(a: string, b: string, c: string, d: string)
    requires Plain(a) && Plain(b) && Plain(c) && Plain(d)
    ensures Tokens("/" + a + "/" + b + "/" + c + "/" + d) == [a, b, c, d]
  {
    var one, two, three := "" + "/" + a, "" + "/" + a + "/" + b, "" + "/" + a + "/" + b + "/" + c;
    OneKey("", a);
    OneKey(one, b);
    OneKey(two, c);
    OneKey(three, d);
    assert "" + "/" + a == "/" + a;
  }

  lemma ActionTokens(site: Site)
    ensures Tokens(ActionLocation(site)) == ["routes", Decimal(site.route), "actions", Decimal(site.action)]
  {
    DecimalPlain(site.route);
    DecimalPlain(site.action);
    FourKeys("routes", Decimal(site.route), "actions", Decimal(site.action));
    SlashesAround(Decimal(site.route), Decimal(site.action));
  }

  lemma SlashesAround(route: string, action: string)
    ensures "/" + "routes" + "/" + route + "/" + "actions" + "/" + action == "/routes/" + route + "/actions/" + action
  {
    assert "/" + "routes" + "/" == "/routes/";
    assert "/" + "routes" + "/" + route + "/" + "actions" + "/" == "/routes/" + route + "/actions/";
  }

  lemma MappingTokens(site: Site, key: string)
    requires '/' !in key && '~' !in key
    ensures Tokens(ActionLocation(site) + "/mappings/" + key)
         == ["routes", Decimal(site.route), "actions", Decimal(site.action), "mappings", key]
  {
    ActionTokens(site);
    OneKey(ActionLocation(site), "mappings");
    OneKey(ActionLocation(site) + "/" + "mappings", key);
    assert ActionLocation(site) + "/" + "mappings" + "/" + key == ActionLocation(site) + "/mappings/" + key;
  }

  lemma OperationTokens(site: Site, field: string)
    requires '/' !in field && '~' !in field
    ensures Tokens("/operations/" + Decimal(site.operation) + "/" + field) == ["operations", Decimal(site.operation), field]
  {
    DecimalPlain(site.operation);
    ThreeKeys("operations", Decimal(site.operation), field);
    assert "/" + "operations" + "/" == "/operations/";
  }

  /** A renamed field: the target of the one mapping rule becomes the new name. */
  lemma RenameAddresses(site: Site, mapping: nat, newField: string, observed: Option<Value>)
    ensures var patches := Proposed(FieldRenamed(mapping, newField, observed), site);
            && patches != [] && patches[1..] == SchemaPatches(site, observed)
            && Addresses(patches[0], "contract", Replace,
                         ["routes", Decimal(site.route), "actions", Decimal(site.action), "mappings", Decimal(mapping), "target"],
                         Str(newField))
  {
    DecimalPlain(mapping);
    MappingTokens(site, Decimal(mapping));
    var path := ActionLocation(site) + "/mappings/" + Decimal(mapping);
    OneKey(path, "target");
    assert path + "/" + "target" == path + "/target";
  }

  /** A newly required field: one mapping rule is added behind the action's others. */
  lemma RequiredFieldAddresses(site: Site, rule: Value, observed: Option<Value>)
    ensures var patches := Proposed(RequiredFieldAdded(rule, observed), site);
            && patches != [] && patches[1..] == SchemaPatches(site, observed)
            && Addresses(patches[0], "contract", Add,
                         ["routes", Decimal(site.route), "actions", Decimal(site.action), "mappings", "-"], rule)
  {
    MappingTokens(site, "-");
  }

  /** An observed request schema replaces the operation's. */
  lemma SchemaAddresses(site: Site, observed: Option<Value>)
    ensures observed.None? ==> SchemaPatches(site, observed) == []
    ensures observed.Some? ==>
              |SchemaPatches(site, observed)| == 1 &&
              Addresses(SchemaPatches(site, observed)[0], "profile:" + site.systemId, Replace,
                        ["operations", Decimal(site.operation), "request_schema"], observed.value)
  {
    OperationTokens(site, "request_schema");
  }

  /** A changed permission: the operation's required permissions and the system's grant become what is now required. */
  lemma PermissionAddresses(site: Site, required: Value, granted: bool)
    ensures var patches := Proposed(PermissionChanged(required, granted), site);
            && |patches| == 2
            && Addresses(patches[0], "profile:" + site.systemId, Replace,
                         ["operations", Decimal(site.operation), "required_permissions"], required)
            && Addresses(patches[1], "contract", if granted then Replace else Add, ["permissions", site.systemId], required)
  {
    OperationTokens(site, "required_permissions");
    PermissionTokens(site.systemId);
  }

  /** A moved endpoint: the operation's path becomes the new one. */
  lemma EndpointAddresses(site: Site, newPath: string)
    ensures var patches := Proposed(EndpointChanged(newPath), site);
            |patches| == 1 &&
            Addresses(patches[0], "profile:" + site.systemId, Replace, ["operations", Decimal(site.operation), "path"], Str(newPath))
  {
    OperationTokens(site, "path");
  }
}
