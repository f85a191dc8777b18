/** Inverse patches: `RepairGenerator._rollback_patches`, and exactly when they undo a repair. */
module Rollback {
  import opened Wrappers
  import opened Json
  import opened Text
  import opened Pointer
  import opened Patch

  /** The scratch documents, keyed "contract" and "profile:<system id>". */
  type Documents = map<string, Value>

  /* ---------- the generator, as functions ---------- */

  /** `_resolved_add_path`: an append is undone at the index it will take. */
  function ResolvedAddPath(document: Value, path: string): Result<string, PatchError>
  {
    if |path| >= 2 && path[|path| - 2..] == "/-" then
      var parentPath := path[..|path| - 2];
      match ReadPointer(document, parentPath)
      case Some(Arr(items)) => Success(parentPath + "/" + Decimal(|items|))
      case _ => Failure(AppendTargetNotAList)
    else Success(path)
  }

  function Inverse(document: Value, patch: ArtifactPatch): Result<ArtifactPatch, PatchError>
    requires !patch.operation.Test?
  {
    match patch.operation
    case Add =>
      var path :- ResolvedAddPath(document, patch.path);
      Success(ArtifactPatch(patch.artifact, Remove, path, Null))
    case Remove =>
      (match ReadPointer(document, patch.path)
       case None => Failure(MissingValue)
       case Some(previous) => Success(ArtifactPatch(patch.artifact, Add, patch.path, previous)))
    case Replace =>
      (match ReadPointer(document, patch.path)
       case None => Failure(MissingValue)
       case Some(previous) => Success(ArtifactPatch(patch.artifact, Replace, patch.path, previous)))
  }

  function ApplyTo(documents: Documents, patch: ArtifactPatch): Result<Documents, PatchError>
  {
    if patch.artifact !in documents then Failure(UnknownArtifact)
    else
      var edited :- ApplyPointer(documents[patch.artifact], patch);
      Success(documents[patch.artifact := edited])
  }

  function ApplyAll(patches: seq<ArtifactPatch>, documents: Documents): Result<Documents, PatchError>
  {
    if patches == [] then Success(documents)
    else
      var next :- ApplyTo(documents, patches[0]);
      ApplyAll(patches[1..], next)
  }

  function InversesOf(patches: seq<ArtifactPatch>, documents: Documents): Result<seq<ArtifactPatch>, PatchError>
  {
    if patches == [] then Success([])
    else if patches[0].artifact !in documents then Failure(UnknownArtifact)
    else if patches[0].operation.Test? then InversesOf(patches[1..], documents)
    else
      var inverse :- Inverse(documents[patches[0].artifact], patches[0]);
      var next :- ApplyTo(documents, patches[0]);
      FollowedBy(InversesOf(patches[1..], next), [inverse])
  }

  function FollowedBy(patches: Result<seq<ArtifactPatch>, PatchError>, tail: seq<ArtifactPatch>)
    : (r: Result<seq<ArtifactPatch>, PatchError>)
    ensures tail == [] ==> r == patches
  {
    if patches.Failure? then patches
    else
      assert patches.value + [] == patches.value;
      Success(patches.value + tail)
  }

  lemma FollowedByTwice(patches: Result<seq<ArtifactPatch>, PatchError>, a: seq<ArtifactPatch>, b: seq<ArtifactPatch>)
    ensures FollowedBy(FollowedBy(patches, a), b) == FollowedBy(patches, a + b)
  {
    if patches.Success? {
      assert patches.value + a + b == patches.value + (a + b);
    }
  }

  /* ---------- the generator and the applier, as they run ---------- */

  /** Working copies of the artifacts; every edit is made in place. */
  class Workspace {
    var documents: Documents

    constructor (documents: Documents)
      ensures this.documents == documents
    {
      this.documents := documents;
    }

    /** `_apply_pointer`: walk to the parent, then edit it. */
    method ApplyPointer(patch: ArtifactPatch) returns (outcome: Result<(), PatchError>)
      requires patch.artifact in documents
      modifies this
      ensures match Patch.ApplyPointer(old(documents)[patch.artifact], patch)
              case Success(edited) => outcome == Success(()) && documents == old(documents)[patch.artifact := edited]
              case Failure(e) => outcome == Failure(e) && documents == old(documents)
    {
      var document := documents[patch.artifact];
      var parts := Tokens(patch.path);
      if parts == [] {
        return Failure(RootReplacement);
      }
      var last := |parts| - 1;
      ghost var above := parts[..last];
      var parent := document;
      var i := 0;
      while i < last
        invariant 0 <= i <= last && documents == old(documents)
        invariant Walk(document, above[..i]) == Success(parent)
      {
        WalkConcat(document, above[..i], above[i..]);
        WalkStep(document, above, i);
        assert above[..i] + above[i..] == above;
        var step := Child(parent, parts[i]);
        if step.Failure? {
          assert above[i..][0] == parts[i];
          return Failure(step.error);
        }
        parent := step.value;
        i := i + 1;
      }
      assert above[..last] == above;
      if patch.operation.Test? {
        var current := TestedValue(parent, parts[last]);
        if current.Failure? { return Failure(current.error); }
        if current.value != patch.value { return Failure(TestFailed); }
        assert documents[patch.artifact := document] == documents;
        return Success(());
      }
      var edited := Edit(parent, patch.operation, parts[last], patch.value);
      if edited.Failure? { return Failure(edited.error); }
      documents := documents[patch.artifact := Put(document, parts[..last], edited.value)];
      return Success(());
    }

    /** The patch loop of `ArtifactPatchApplier.apply`. */
    method Apply(patches: seq<ArtifactPatch>) returns (outcome: Result<(), PatchError>)
      modifies this
      ensures match ApplyAll(patches, old(documents))
              case Success(result) => outcome == Success(()) && documents == result
              case Failure(e) => outcome == Failure(e)
    {
      var i := 0;
      while i < |patches|
        invariant 0 <= i <= |patches|
        invariant ApplyAll(patches, old(documents)) == ApplyAll(patches[i..], documents)
      {
        var patch := patches[i];
        if patch.artifact !in documents { return Failure(UnknownArtifact); }
        var step := ApplyPointer(patch);
        if step.Failure? { return Failure(step.error); }
        assert patches[i..][1..] == patches[i + 1..];
        i := i + 1;
      }
      return Success(());
    }

    /** `_rollback_patches`: each inverse is computed on the state its patch is about to change,
        and inserted at the front. */
    method RollbackPatches(patches: seq<ArtifactPatch>) returns (outcome: Result<seq<ArtifactPatch>, PatchError>)
      modifies this
      ensures outcome == InversesOf(patches, old(documents))
    {
      var rollback: seq<ArtifactPatch> := [];
      var i := 0;
      while i < |patches|
        invariant 0 <= i <= |patches|
        invariant InversesOf(patches, old(documents)) == FollowedBy(InversesOf(patches[i..], documents), rollback)
      {
        var patch := patches[i];
        assert patches[i..][0] == patch && patches[i..][1..] == patches[i + 1..];
        if patch.artifact !in documents { return Failure(UnknownArtifact); }
        if !patch.operation.Test? {
          var inverse := Inverse(documents[patch.artifact], patch);
          if inverse.Failure? { return Failure(inverse.error); }
          rollback := [inverse.value] + rollback;
          var step := ApplyPointer(patch);
          if step.Failure? { return Failure(step.error); }
          FollowedByTwice(InversesOf(patches[i + 1..], documents), [inverse.value], rollback[1..]);
        }
        i := i + 1;
      }
      assert [] + rollback == rollback;
      return Success(rollback);
    }
  }

  lemma WalkStep(document: Value, above: seq<string>, i: nat)
    requires i < |above| && Walk(document, above[..i]).Success?
    ensures Walk(document, above[..i + 1]) == Child(Walk(document, above[..i]).value, above[i])
  {
    assert above[..i + 1] == above[..i] + [above[i]];
    WalkConcat(document, above[..i], [above[i]]);
    var parent := Walk(document, above[..i]).value;
    match Child(parent, above[i])
    case Success(child) => assert Walk(child, []) == Success(child);
    case Failure(_) =>
  }

  /* ---------- one step ---------- */

  /** Inserting at index `i`: in range, or the one negative index that still denotes the front, or
      next to an equal item. */
  predicate UndoableInsert(items: seq<Value>, i: int, value: Value)
  {
    var n := |items|;
    if 0 <= i then i <= n else i + n + 1 == 0 || (0 <= i + n && items[i + n] == value)
  }

  /** Removing index `i`: not addressed from the end, except the first item or one whose left
      neighbour is equal. */
  predicate UndoableRemoval(items: seq<Value>, i: int)
  {
    var n := |items|;
    0 <= i || i + n <= 0 || (i + n < n && items[i + n - 1] == items[i + n])
  }

  /** What a caller can check at the parent before applying a patch. An added member must be absent;
      list indices must meet the conditions above. Replacements are always undone. */
  predicate UndoableAt(parent: Value, operation: Operation, leaf: string, value: Value)
    requires !operation.Test?
  {
    match (parent, operation)
    case (Obj(members), Add) => leaf !in members
    case (Arr(items), Add) => leaf == "-" || (ParseInt(leaf).Some? && UndoableInsert(items, ParseInt(leaf).value, value))
    case (Arr(items), Remove) => ParseInt(leaf).Some? && UndoableRemoval(items, ParseInt(leaf).value)
    case _ => true
  }

  predicate Undoable(document: Value, patch: ArtifactPatch)
    requires !patch.operation.Test?
  {
    var parts := Tokens(patch.path);
    parts != [] &&
    match Walk(document, parts[..|parts| - 1])
    case Success(parent) => UndoableAt(parent, patch.operation, parts[|parts| - 1], patch.value)
    case Failure(_) => false
  }

  /** The edit the inverse patch makes at the parent. */
  function UndoAt(parent: Value, edited: Value, operation: Operation, leaf: string): Edited
    requires !operation.Test?
    requires !operation.Add? ==> Child(parent, leaf).Success?
  {
    match operation
    case Add =>
      var at := if parent.Arr? && leaf == "-" then Decimal(|parent.items|) else leaf;
      Edit(edited, Remove, at, Null)
    case Remove => Edit(edited, Add, leaf, Child(parent, leaf).value)
    case Replace => Edit(edited, Replace, leaf, Child(parent, leaf).value)
  }

  /** Popping right behind an insertion, or one further, for every position. */
  lemma PopAfterInsert(items: seq<Value>, p: nat, q: nat, value: Value)
    requires p <= |items| && (q == p || (q == p + 1 && p < |items|))
    ensures var longer := items[..p] + [value] + items[p..];
      && |longer| == |items| + 1
      && longer[..q] + longer[q + 1..] == if q == p then items else items[p := value]
  {
    var longer := items[..p] + [value] + items[p..];
    if q == p {
      assert longer[..q] == items[..p] && longer[q + 1..] == items[p..];
    } else {
      assert longer[..q] == items[..p] + [value] && longer[q + 1..] == items[p + 1..];
    }
  }

  function Inserted(items: seq<Value>, p: nat, value: Value): seq<Value>
    requires p <= |items|
  {
    items[..p] + [value] + items[p..]
  }

  function Popped(items: seq<Value>, q: nat): seq<Value>
    requires q < |items|
  {
    items[..q] + items[q + 1..]
  }

  lemma InsertThenPop(items: seq<Value>, i: int, value: Value)
    ensures var longer := Inserted(items, InsertAt(|items|, i), value);
      match Subscript(|items| + 1, i)
      case None => !UndoableInsert(items, i, value)
      case Some(q) => Popped(longer, q) == items <==> UndoableInsert(items, i, value)
  {
    var p := InsertAt(|items|, i);
    match Subscript(|items| + 1, i)
    case None =>
    case Some(q) =>
      PopAfterInsert(items, p, q, value);
      assert q == p + 1 ==> (items[p := value] == items <==> items[p] == value);
  }

  lemma PopThenInsert(items: seq<Value>, i: int, q: nat)
    requires Subscript(|items|, i) == Some(q)
    ensures Inserted(Popped(items, q), InsertAt(|items| - 1, i), items[q]) == items <==> UndoableRemoval(items, i)
  {
    var p := InsertAt(|items| - 1, i);
    if p != q {
      InsertedBefore(items, q);
    } else {
      assert Inserted(Popped(items, q), q, items[q]) == items;
    }
  }

  /** Putting an item back one place too early restores the list only if the two neighbours are equal. */
  lemma InsertedBefore(items: seq<Value>, q: nat)
    requires 0 < q < |items|
    ensures Inserted(Popped(items, q), q - 1, items[q]) == items <==> items[q - 1] == items[q]
  {
    var back := Inserted(Popped(items, q), q - 1, items[q]);
    assert back[q - 1] == items[q] && back[q] == items[q - 1];
    if items[q - 1] == items[q] {
      assert back == items;
    }
  }

  lemma UndoAppendedItem(items: seq<Value>, value: Value)
    ensures UndoAt(Arr(items), Arr(items + [value]), Add, "-") == Success(Arr(items))
  {
    var n := |items|;
    ParseIntOfDecimal(n);
    assert Popped(items + [value], n) == items;
  }

  lemma UndoAddedItem(items: seq<Value>, leaf: string, value: Value)
    requires Edit(Arr(items), Add, leaf, value).Success?
    ensures UndoAt(Arr(items), Edit(Arr(items), Add, leaf, value).value, Add, leaf) == Success(Arr(items))
       <==> UndoableAt(Arr(items), Add, leaf, value)
  {
    if leaf == "-" {
      UndoAppendedItem(items, value);
    } else {
      InsertThenPop(items, ParseInt(leaf).value, value);
    }
  }

  lemma UndoRemovedItem(items: seq<Value>, leaf: string)
    requires Edit(Arr(items), Remove, leaf, Null).Success?
    ensures Child(Arr(items), leaf).Success?
    ensures UndoAt(Arr(items), Edit(Arr(items), Remove, leaf, Null).value, Remove, leaf) == Success(Arr(items))
       <==> UndoableAt(Arr(items), Remove, leaf, Null)
  {
    PopThenInsert(items, ParseInt(leaf).value, ListPosition(items, leaf).value);
    RemovedText(items, leaf);
  }

  /** A removable index is an integer, so the inverse inserts at the same text. */
  lemma RemovedText(items: seq<Value>, leaf: string)
    requires ListPosition(items, leaf).Success?
    ensures leaf != "-" && ParseInt(leaf).Some?
  {
  }

  /** At the parent: the inverse edit gives the parent back exactly when the patch is undoable there. */
  lemma UndoAtIff(parent: Value, operation: Operation, leaf: string, value: Value)
    requires !operation.Test? && Edit(parent, operation, leaf, value).Success?
    requires !operation.Add? ==> Child(parent, leaf).Success?
    ensures UndoAt(parent, Edit(parent, operation, leaf, value).value, operation, leaf) == Success(parent)
       <==> UndoableAt(parent, operation, leaf, value)
  {
    match (parent, operation)
    case (Arr(items), Add) => UndoAddedItem(items, leaf, value);
    case (Arr(items), Remove) => UndoRemovedItem(items, leaf);
    case (Arr(items), Replace) =>
      var p := ListPosition(items, leaf).value;
      assert items[p := value][p := items[p]] == items;
    case (Obj(members), Add) =>
      if leaf !in members {
        assert members[leaf := value] - {leaf} == members;
      } else {
        assert leaf !in members[leaf := value] - {leaf};
      }
    case (Obj(members), Remove) =>
      assert (members - {leaf})[leaf := members[leaf]] == members;
    case (Obj(members), Replace) =>
      assert members[leaf := value][leaf := members[leaf]] == members;
  }

  lemma {:induction false} JoinLast(parts: seq<string>, last: string, sep: char)
    requires |parts| >= 1
    ensures Join(parts + [last], sep) == Join(parts, sep) + [sep] + last
  {
    if |parts| > 1 {
      JoinLast(parts[1..], last, sep);
      assert (parts + [last])[1..] == parts[1..] + [last];
    } else {
      assert (parts + [last])[1..] == [last];
    }
  }

  /** A last token "-" is always written "-", so the suffix test on the path sees every append. */
  lemma DashIsSuffix(path: string)
    requires IsPointer(path) && Tokens(path) != [] && Tokens(path)[|Tokens(path)| - 1] == "-"
    ensures |path| >= 2 && path[|path| - 2..] == "/-"
  {
    var all := Split(path, '/');
    var raw := all[|all| - 1];
    assert Unescape(raw) == "-";
    UnescapeIsOnePass(raw);
    DashIsPlain(raw);
    SplitThenJoin(path, '/');
    assert all == all[..|all| - 1] + ["-"];
    JoinLast(all[..|all| - 1], "-", '/');
  }

  lemma DashIsPlain(raw: string)
    ensures Unescape1(raw) == "-" ==> raw == "-"
  {
    if |raw| >= 2 {
      var rest := raw[1..];
      assert Unescape1(rest) != "";
      assert |Unescape1(raw)| >= 2 || Unescape1(raw)[0] in {'/', '~'};
    }
  }

  /** A plain last token is read back as written. */
  lemma AppendTokens(parentPath: string, last: string)
    requires '/' !in last && '~' !in last
    ensures Tokens(parentPath + "/" + last) == Tokens(parentPath) + [last]
  {
    TokensAppend(parentPath, last);
    NoTilde(last);
  }

  /** The resolved path of an append keeps the parent and names the index the item takes. */
  lemma ResolvedTokens(document: Value, path: string)
    requires IsPointer(path) && Tokens(path) != [] && ResolvedAddPath(document, path).Success?
    requires Walk(document, Tokens(path)[..|Tokens(path)| - 1]).Success?
    ensures var parts := Tokens(path);
      var above, leaf := parts[..|parts| - 1], parts[|parts| - 1];
      var parent := Walk(document, above).value;
      Tokens(ResolvedAddPath(document, path).value)
        == above + [if parent.Arr? && leaf == "-" then Decimal(|parent.items|) else leaf]
  {
    var parts := Tokens(path);
    if |path| >= 2 && path[|path| - 2..] == "/-" {
      ResolvedAppend(document, path);
    } else {
      if parts[|parts| - 1] == "-" {
        DashIsSuffix(path);
      }
      assert parts == parts[..|parts| - 1] + [parts[|parts| - 1]];
    }
  }

  lemma ResolvedAppend(document: Value, path: string)
    requires IsPointer(path) && |path| >= 2 && path[|path| - 2..] == "/-"
    requires ResolvedAddPath(document, path).Success?
    ensures Tokens(path) == Tokens(path[..|path| - 2]) + ["-"]
    ensures Walk(document, Tokens(path[..|path| - 2])).Success? && Walk(document, Tokens(path[..|path| - 2])).value.Arr?
    ensures Tokens(ResolvedAddPath(document, path).value)
         == Tokens(path[..|path| - 2]) + [Decimal(|Walk(document, Tokens(path[..|path| - 2])).value.items|)]
  {
    var parentPath := path[..|path| - 2];
    AppendTokens(parentPath, "-");
    assert path == parentPath + "/" + "-";
    var items := ReadPointer(document, parentPath).value.items;
    AppendTokens(parentPath, Decimal(|items|));
  }

  /** The parent and leaf of the inverse patch. */
  lemma InverseTokens(document: Value, patch: ArtifactPatch)
    requires IsPointer(patch.path) && !patch.operation.Test?
    requires Inverse(document, patch).Success? && ApplyPointer(document, patch).Success?
    ensures var parts := Tokens(patch.path);
      var above, leaf := parts[..|parts| - 1], parts[|parts| - 1];
      var parent := Walk(document, above).value;
      var at := if patch.operation.Add? && parent.Arr? && leaf == "-" then Decimal(|parent.items|) else leaf;
      Tokens(Inverse(document, patch).value.path) == above + [at]
  {
    var parts := Tokens(patch.path);
    if patch.operation.Add? {
      ResolvedTokens(document, patch.path);
    } else {
      assert parts == parts[..|parts| - 1] + [parts[|parts| - 1]];
    }
  }

  /** Whenever the generator produces an inverse, applying it after the patch restores the document
      exactly when the patch is undoable. */
  lemma InverseRestoresIff(document: Value, patch: ArtifactPatch)
    requires IsPointer(patch.path) && !patch.operation.Test?
    requires Inverse(document, patch).Success? && ApplyPointer(document, patch).Success?
    ensures ApplyPointer(ApplyPointer(document, patch).value, Inverse(document, patch).value) == Success(document)
       <==> Undoable(document, patch)
  {
    var parts := Tokens(patch.path);
    var above, leaf := parts[..|parts| - 1], parts[|parts| - 1];
    var parent := Walk(document, above).value;
    var edited := Edit(parent, patch.operation, leaf, patch.value).value;
    var inverse := Inverse(document, patch).value;
    var result := Put(document, above, edited);
    InverseTokens(document, patch);
    var back := Tokens(inverse.path);
    assert back[..|back| - 1] == above;
    WalkPut(document, above, edited);
    if !patch.operation.Add? {
      assert above + [leaf] == parts;
      WalkConcat(document, above, [leaf]);
      assert Walk(parent, [leaf]) == Child(parent, leaf) by { WalkOne(parent, leaf); }
    }
    UndoAtIff(parent, patch.operation, leaf, patch.value);
    var undone := UndoAt(parent, edited, patch.operation, leaf);
    assert undone == Edit(edited, inverse.operation, back[|back| - 1], inverse.value);
    if undone.Success? {
      PutPut(document, above, edited, undone.value);
      PutWalk(document, above);
      if Put(document, above, undone.value) == document {
        PutInjective(document, above, undone.value, parent);
      }
    }
  }

  lemma WalkOne(node: Value, part: string)
    ensures Walk(node, [part]) == Child(node, part)
  {
    assert [part][1..] == [];
    match Child(node, part)
    case Success(child) => assert Walk(child, []) == Success(child);
    case Failure(_) =>
  }

  /* ---------- a whole patch list ---------- */

  predicate WellFormed(patches: seq<ArtifactPatch>)
  {
    forall i :: 0 <= i < |patches| ==> IsPointer(patches[i].path)
  }

  /** Every patch is undoable in the state it meets. */
  predicate AllUndoable(patches: seq<ArtifactPatch>, documents: Documents)
  {
    patches == [] ||
    match ApplyTo(documents, patches[0])
    case Success(next) =>
      && (patches[0].operation.Test? || Undoable(documents[patches[0].artifact], patches[0]))
      && AllUndoable(patches[1..], next)
    case Failure(_) => false
  }

  lemma {:induction false} ApplyAllConcat(a: seq<ArtifactPatch>, b: seq<ArtifactPatch>, documents: Documents)
    ensures ApplyAll(a + b, documents) ==
            (match ApplyAll(a, documents) case Success(next) => ApplyAll(b, next) case Failure(e) => Failure(e))
  {
    if a == [] {
      assert a + b == b;
    } else {
      assert (a + b)[1..] == a[1..] + b;
      match ApplyTo(documents, a[0])
      case Success(next) => ApplyAllConcat(a[1..], b, next);
      case Failure(_) =>
    }
  }

  lemma ApplyOne(patch: ArtifactPatch, documents: Documents)
    ensures ApplyAll([patch], documents) == ApplyTo(documents, patch)
  {
    assert [patch][1..] == [];
    match ApplyTo(documents, patch)
    case Success(next) => assert ApplyAll([], next) == Success(next);
    case Failure(_) =>
  }

  lemma FirstPatchUndoneIff(patch: ArtifactPatch, documents: Documents)
    requires IsPointer(patch.path) && !patch.operation.Test? && patch.artifact in documents
    requires Inverse(documents[patch.artifact], patch).Success? && ApplyTo(documents, patch).Success?
    ensures ApplyAll([Inverse(documents[patch.artifact], patch).value], ApplyTo(documents, patch).value) == Success(documents)
       <==> Undoable(documents[patch.artifact], patch)
  {
    var document, next := documents[patch.artifact], ApplyTo(documents, patch).value;
    var inverse := Inverse(document, patch).value;
    InverseRestoresIff(document, patch);
    ApplyOne(inverse, next);
    match ApplyPointer(next[patch.artifact], inverse)
    case Success(back) => OneDocumentBack(documents, patch.artifact, next[patch.artifact], back);
    case Failure(_) =>
  }

  lemma OneDocumentBack(documents: Documents, artifact: string, edited: Value, back: Value)
    requires artifact in documents
    ensures documents[artifact := edited][artifact := back] == documents <==> back == documents[artifact]
  {
    var undone := documents[artifact := edited][artifact := back];
    assert undone[artifact] == back;
    if back == documents[artifact] { assert undone == documents; }
  }

  /** Rollback is exact: applying the patches and then the generated inverses gives back every document. */
  lemma {:induction false} RollbackRestores(patches: seq<ArtifactPatch>, documents: Documents)
    requires WellFormed(patches) && AllUndoable(patches, documents)
    requires InversesOf(patches, documents).Success? && ApplyAll(patches, documents).Success?
    ensures ApplyAll(InversesOf(patches, documents).value, ApplyAll(patches, documents).value) == Success(documents)
  {
    if patches != [] {
      var patch, later := patches[0], patches[1..];
      var next := ApplyTo(documents, patch).value;
      if patch.operation.Test? {
        assert next == documents;
        RollbackRestores(later, next);
      } else {
        RollbackRestores(later, next);
        FirstPatchUndoneIff(patch, documents);
        ApplyAllConcat(InversesOf(later, next).value, [Inverse(documents[patch.artifact], patch).value], ApplyAll(later, next).value);
      }
    }
  }

  /** A one-patch repair is rolled back exactly when its patch is undoable. */
  lemma OnePatchRollbackIff(patch: ArtifactPatch, documents: Documents)
    requires IsPointer(patch.path) && !patch.operation.Test?
    requires InversesOf([patch], documents).Success? && ApplyAll([patch], documents).Success?
    ensures ApplyAll(InversesOf([patch], documents).value, ApplyAll([patch], documents).value) == Success(documents)
       <==> Undoable(documents[patch.artifact], patch)
  {
    var inverse := Inverse(documents[patch.artifact], patch).value;
    ApplyOne(patch, documents);
    assert [patch][1..] == [] && InversesOf([], ApplyTo(documents, patch).value) == Success([]);
    assert [] + [inverse] == [inverse];
    FirstPatchUndoneIff(patch, documents);
  }

  /* ---------- retracing every step ---------- */

  /** The rollback of a list ends with the inverse of its first patch; a test adds none and changes nothing. */
  lemma FirstInverse(patches: seq<ArtifactPatch>, documents: Documents)
    requires patches != [] && InversesOf(patches, documents).Success? && ApplyAll(patches, documents).Success?
    ensures patches[0].artifact in documents && ApplyTo(documents, patches[0]).Success?
    ensures var patch, later, next := patches[0], patches[1..], ApplyTo(documents, patches[0]).value;
      && InversesOf(later, next).Success? && ApplyAll(later, next) == ApplyAll(patches, documents)
      && (patch.operation.Test? ==> next == documents && InversesOf(patches, documents) == InversesOf(later, next))
      && (!patch.operation.Test? ==> Inverse(documents[patch.artifact], patch).Success?)
      && (!patch.operation.Test? ==>
            InversesOf(patches, documents).value == InversesOf(later, next).value + [Inverse(documents[patch.artifact], patch).value])
  {
    if patches[0].operation.Test? {
      assert ApplyTo(documents, patches[0]).value == documents;
    }
  }

  /** The rollback, applied to the final documents, passes back through every intermediate state: the inverses of all
      later patches lead to each state in turn. */
  predicate Retraces(patches: seq<ArtifactPatch>, documents: Documents, final: Documents)
    requires InversesOf(patches, documents).Success? && ApplyAll(patches, documents).Success?
  {
    && ApplyAll(InversesOf(patches, documents).value, final) == Success(documents)
    && (patches == [] ||
        (FirstInverse(patches, documents); Retraces(patches[1..], ApplyTo(documents, patches[0]).value, final)))
  }

  /** For lists of any length: the rollback retraces every step if and only if every patch is undoable in the state
      it meets. */
  lemma {:induction false} RetracesIff(patches: seq<ArtifactPatch>, documents: Documents)
    requires WellFormed(patches) && InversesOf(patches, documents).Success? && ApplyAll(patches, documents).Success?
    ensures Retraces(patches, documents, ApplyAll(patches, documents).value) <==> AllUndoable(patches, documents)
  {
    if patches != [] {
      FirstInverse(patches, documents);
      RetracesIff(patches[1..], ApplyTo(documents, patches[0]).value);
      if AllUndoable(patches[1..], ApplyTo(documents, patches[0]).value) {
        FirstStepBackIff(patches, documents);
      }
    }
  }

  /** Once the later patches are undone, the first inverse meets the state right after its patch. */
  lemma FirstStepBackIff(patches: seq<ArtifactPatch>, documents: Documents)
    requires WellFormed(patches) && InversesOf(patches, documents).Success? && ApplyAll(patches, documents).Success?
    requires patches != [] && AllUndoable(patches[1..], ApplyTo(documents, patches[0]).value)
    ensures ApplyAll(InversesOf(patches, documents).value, ApplyAll(patches, documents).value) == Success(documents)
       <==> AllUndoable(patches, documents)
  {
    FirstInverse(patches, documents);
    var patch, later := patches[0], patches[1..];
    var next := ApplyTo(documents, patch).value;
    RollbackRestores(later, next);
    AllUndoableUnfolds(patches, documents);
    if !patch.operation.Test? {
      FirstPatchUndoneIff(patch, documents);
      ApplyAllConcat(InversesOf(later, next).value, [Inverse(documents[patch.artifact], patch).value], ApplyAll(later, next).value);
    }
  }

  lemma AllUndoableUnfolds(patches: seq<ArtifactPatch>, documents: Documents)
    requires patches != [] && patches[0].artifact in documents && ApplyTo(documents, patches[0]).Success?
    ensures AllUndoable(patches, documents) <==>
      (patches[0].operation.Test? || Undoable(documents[patches[0].artifact], patches[0]))
      && AllUndoable(patches[1..], ApplyTo(documents, patches[0]).value)
  {
  }

  lemma TokensOfK()
    ensures Tokens("/k") == ["k"] && IsPointer("/k") && "/k"[|"/k"| - 2..] == "/k"
  {
    TokensAppend("", "k");
    UnescapeIsOnePass("k");
    assert "" + "/" + "k" == "/k";
    assert Tokens("") == [];
  }

  /** The documented promise fails for an `add` onto a member that exists: the rollback removes it. */
  lemma AddOntoExistingMemberIsNotRestored(present: Value, value: Value)
    ensures var documents := map["contract" := Obj(map["k" := present])];
      var patch := ArtifactPatch("contract", Add, "/k", value);
      && InversesOf([patch], documents).Success? && ApplyAll([patch], documents).Success?
      && ApplyAll(InversesOf([patch], documents).value, ApplyAll([patch], documents).value) != Success(documents)
  {
    var document := Obj(map["k" := present]);
    var documents := map["contract" := document];
    var patch := ArtifactPatch("contract", Add, "/k", value);
    TokensOfK();
    assert ["k"][..0] == [] && Walk(document, []) == Success(document);
    ApplyOne(patch, documents);
    OneInverse(patch, documents);
    OnePatchRollbackIff(patch, documents);
  }

  lemma OneInverse(patch: ArtifactPatch, documents: Documents)
    requires !patch.operation.Test? && patch.artifact in documents
    requires Inverse(documents[patch.artifact], patch).Success? && ApplyTo(documents, patch).Success?
    ensures InversesOf([patch], documents) == Success([Inverse(documents[patch.artifact], patch).value])
  {
    var next := ApplyTo(documents, patch).value;
    assert [patch][1..] == [] && InversesOf([], next) == Success([]);
    assert [] + [Inverse(documents[patch.artifact], patch).value] == [Inverse(documents[patch.artifact], patch).value];
  }

  /** Without retracing, a rollback can still end where it should: here a second patch overwrites a member, which its
      inverse removes, and the inverse of the first patch writes the member anew. */
  lemma MaskedPatchIsStillRolledBack(before: Value, first: Value, second: Value)
    ensures var documents := Holding(map["k" := before]);
      var patches := [AtK(Replace, first), AtK(Add, second)];
      && InversesOf(patches, documents).Success? && ApplyAll(patches, documents).Success?
      && !AllUndoable(patches, documents)
      && ApplyAll(InversesOf(patches, documents).value, ApplyAll(patches, documents).value) == Success(documents)
  {
    MaskedForwards(before, first, second);
    MaskedBackwards(before, second);
  }

  lemma MaskedForwards(before: Value, first: Value, second: Value)
    ensures var documents := Holding(map["k" := before]);
      var patches := [AtK(Replace, first), AtK(Add, second)];
      && ApplyAll(patches, documents) == Success(Holding(map["k" := second])) && !AllUndoable(patches, documents)
      && InversesOf(patches, documents) == Success([AtK(Remove, Null), AtK(Replace, before)])
  {
    var replace, add := AtK(Replace, first), AtK(Add, second);
    ReplaceK(before, first);
    AddOverK(first, second);
    TwoPatches(replace, add, Holding(map["k" := before]), Holding(map["k" := first]));
  }

  lemma ReplaceK(was: Value, becomes: Value)
    ensures ApplyTo(Holding(map["k" := was]), AtK(Replace, becomes)) == Success(Holding(map["k" := becomes]))
    ensures Inverse(Obj(map["k" := was]), AtK(Replace, becomes)) == Success(AtK(Replace, was))
  {
    EditK(map["k" := was], Replace, becomes);
    assert map["k" := was]["k" := becomes] == map["k" := becomes];
  }

  lemma AddOverK(was: Value, becomes: Value)
    ensures ApplyTo(Holding(map["k" := was]), AtK(Add, becomes)) == Success(Holding(map["k" := becomes]))
    ensures Inverse(Obj(map["k" := was]), AtK(Add, becomes)) == Success(AtK(Remove, Null))
    ensures !Undoable(Obj(map["k" := was]), AtK(Add, becomes))
  {
    EditK(map["k" := was], Add, becomes);
    assert map["k" := was]["k" := becomes] == map["k" := becomes];
  }

  lemma MaskedBackwards(before: Value, second: Value)
    ensures ApplyAll([AtK(Remove, Null), AtK(Replace, before)], Holding(map["k" := second])) == Success(Holding(map["k" := before]))
  {
    EditK(map["k" := second], Remove, Null);
    EditK(map[], Replace, before);
    assert map["k" := second] - {"k"} == map[];
    TwoPatches(AtK(Remove, Null), AtK(Replace, before), Holding(map["k" := second]), Holding(map[]));
  }

  function Holding(members: map<string, Value>): Documents
  {
    map["contract" := Obj(members)]
  }

  function AtK(operation: Operation, value: Value): ArtifactPatch
  {
    ArtifactPatch("contract", operation, "/k", value)
  }

  lemma EditK(members: map<string, Value>, operation: Operation, value: Value)
    requires !operation.Test? && (operation.Remove? ==> "k" in members)
    ensures ApplyTo(Holding(members), AtK(operation, value))
         == Success(Holding(if operation.Remove? then members - {"k"} else members["k" := value]))
    ensures operation.Add? ==> Inverse(Obj(members), AtK(operation, value)) == Success(AtK(Remove, Null))
    ensures operation.Replace? && "k" in members ==> Inverse(Obj(members), AtK(operation, value)) == Success(AtK(Replace, members["k"]))
    ensures operation.Add? ==> (Undoable(Obj(members), AtK(operation, value)) <==> "k" !in members)
  {
    TokensOfK();
    assert ["k"][..0] == [] && ["k"][1..] == [];
    assert Walk(Obj(members), []) == Success(Obj(members));
    WalkOne(Obj(members), "k");
    var edited := if operation.Remove? then members - {"k"} else members["k" := value];
    assert Holding(members)["contract" := Obj(edited)] == Holding(edited);
  }

  lemma TwoPatches(a: ArtifactPatch, b: ArtifactPatch, documents: Documents, next: Documents)
    requires !a.operation.Test? && !b.operation.Test? && a.artifact in documents && b.artifact in next
    requires ApplyTo(documents, a) == Success(next)
    ensures ApplyAll([a, b], documents) == ApplyTo(next, b)
    ensures AllUndoable([a, b], documents) ==> Undoable(next[b.artifact], b)
    ensures Inverse(documents[a.artifact], a).Success? && Inverse(next[b.artifact], b).Success? && ApplyTo(next, b).Success?
      ==> InversesOf([a, b], documents) == Success([Inverse(next[b.artifact], b).value, Inverse(documents[a.artifact], a).value])
  {
    assert [a, b][1..] == [b] && [b][1..] == [];
    ApplyOne(b, next);
    AllUndoableUnfolds([a, b], documents);
    if ApplyTo(next, b).Success? {
      AllUndoableUnfolds([b], next);
      if Inverse(documents[a.artifact], a).Success? && Inverse(next[b.artifact], b).Success? {
        OneInverse(b, next);
        var y, x := Inverse(next[b.artifact], b).value, Inverse(documents[a.artifact], a).value;
        assert InversesOf([a, b], documents) == FollowedBy(Success([y]), [x]);
        assert [y] + [x] == [y, x];
      }
    }
  }

  /* ---------- when a rollback can be written ---------- */

  /** The generator finds an inverse for every addition that does not append to something other than a list, and for every
      removal or replacement of a value that is there; the inverse of a removal or replacement carries that value. */
  lemma InverseMeans(document: Value, patch: ArtifactPatch)
    requires !patch.operation.Test?
    ensures patch.operation.Add? ==>
              (Inverse(document, patch).Success? <==>
                 (|patch.path| >= 2 && patch.path[|patch.path| - 2..] == "/-" ==>
                    var parent := ReadPointer(document, patch.path[..|patch.path| - 2]);
                    parent.Some? && parent.value.Arr?))
    ensures !patch.operation.Add? ==> (Inverse(document, patch).Success? <==> ReadPointer(document, patch.path).Some?)
    ensures Inverse(document, patch).Success? ==>
              var inverse := Inverse(document, patch).value;
              && inverse.artifact == patch.artifact
              && inverse.operation == (if patch.operation.Add? then Remove else if patch.operation.Remove? then Add else Replace)
              && (!patch.operation.Add? ==> inverse.path == patch.path && ReadPointer(document, patch.path) == Some(inverse.value))
  {
  }

  /** The last patch is applied last, to what the others left. */
  lemma LastPatchLast(patches: seq<ArtifactPatch>, last: ArtifactPatch, documents: Documents)
    ensures ApplyAll(patches + [last], documents) ==
            match ApplyAll(patches, documents) case Success(next) => ApplyTo(next, last) case Failure(e) => Failure(e)
  {
    ApplyAllConcat(patches, [last], documents);
    match ApplyAll(patches, documents)
    case Success(next) => ApplyOne(last, next);
    case Failure(_) =>
  }
}
