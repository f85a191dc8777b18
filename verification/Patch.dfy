/** Applying one artifact patch: `ArtifactPatchApplier._apply_pointer` and
    `RepairGenerator._read_pointer` over JSON documents. */
module Patch {
  import opened Wrappers
  import opened Json
  import opened Text
  import opened Pointer

  datatype Operation = Add | Replace | Remove | Test

  datatype ArtifactPatch = ArtifactPatch(artifact: string, operation: Operation, path: string, value: Value)

  /** The exceptions a patch can raise, named by cause. */
  datatype PatchError =
    | RootReplacement
    | MissingKey
    | IndexOutOfRange
    | NotAnInteger
    | NotAContainer
    | TestFailed
    | UnknownArtifact
    | MissingValue
    | AppendTargetNotAList

  type Edited = Result<Value, PatchError>

  /* ---------- Python list positions ---------- */

  /** `items[i]`: the position a subscript denotes, counting from the end when negative. */
  function Subscript(length: nat, i: int): (r: Option<nat>)
    ensures r.Some? ==> r.value < length
  {
    if 0 <= i < length then Some(i)
    else if i < 0 <= i + length then Some(i + length)
    else None
  }

  /** `items.insert(i, …)`: the clamped position the new item takes. */
  function InsertAt(length: nat, i: int): (p: nat)
    ensures p <= length
  {
    if i >= length then length
    else if i >= 0 then i
    else if length + i >= 0 then length + i
    else 0
  }

  function Distance(a: int, b: int): nat
  {
    if a <= b then b - a else a - b
  }

  /** A subscript denotes the position that agrees with it modulo the length, if it is within one length of 0. */
  lemma SubscriptIs(length: nat, i: int)
    ensures Subscript(length, i).Some? <==> 0 <= length + i && i < length
    ensures Subscript(length, i).Some? ==> (Subscript(length, i).value - i) % length == 0
  {
  }

  /** No position of the list is nearer to the one asked for than the one an insertion takes. */
  lemma InsertAtIs(length: nat, i: int, q: nat)
    requires q <= length
    ensures var asked := if i < 0 then length + i else i;
            Distance(InsertAt(length, i), asked) <= Distance(q, asked)
  {
  }

  function ListPosition(items: seq<Value>, part: string): (r: Result<nat, PatchError>)
    ensures r.Success? ==> r.value < |items|
  {
    match ParseInt(part)
    case None => Failure(NotAnInteger)
    case Some(i) =>
      match Subscript(|items|, i)
      case None => Failure(IndexOutOfRange)
      case Some(p) => Success(p)
  }

  /* ---------- walking to a parent ---------- */

  /** One step of the walk: a list subscript or a member lookup. */
  function Child(node: Value, part: string): Edited
  {
    match node
    case Arr(items) =>
      var p :- ListPosition(items, part);
      Success(items[p])
    case Obj(members) =>
      if part in members then Success(members[part]) else Failure(MissingKey)
    case _ => Failure(NotAContainer)
  }

  function Walk(node: Value, parts: seq<string>): Edited
    decreases |parts|
  {
    if parts == [] then Success(node)
    else
      var child :- Child(node, parts[0]);
      Walk(child, parts[1..])
  }

  function ReadPointer(document: Value, path: string): Option<Value>
  {
    match Walk(document, Tokens(path))
    case Success(v) => Some(v)
    case Failure(_) => None
  }

  /* ---------- editing at the parent ---------- */

  /** What `current` is compared with by a `test` patch. */
  function TestedValue(parent: Value, leaf: string): Edited
  {
    match parent
    case Arr(items) =>
      var p :- ListPosition(items, leaf);
      Success(items[p])
    case Obj(members) => Success(if leaf in members then members[leaf] else Null)
    case _ => Failure(NotAContainer)
  }

  function EditList(items: seq<Value>, operation: Operation, leaf: string, value: Value): Result<seq<Value>, PatchError>
    requires !operation.Test?
  {
    match operation
    case Add =>
      if leaf == "-" then Success(items + [value])
      else (
        match ParseInt(leaf)
        case None => Failure(NotAnInteger)
        case Some(i) =>
          var p := InsertAt(|items|, i);
          Success(items[..p] + [value] + items[p..]))
    case Replace =>
      var p :- ListPosition(items, leaf);
      Success(items[p := value])
    case Remove =>
      var p :- ListPosition(items, leaf);
      Success(items[..p] + items[p + 1..])
  }

  function Edit(parent: Value, operation: Operation, leaf: string, value: Value): Edited
    requires !operation.Test?
  {
    match parent
    case Arr(items) =>
      var edited :- EditList(items, operation, leaf, value);
      Success(Arr(edited))
    case Obj(members) =>
      if operation.Remove? then
        if leaf in members then Success(Obj(members - {leaf})) else Failure(MissingKey)
      else Success(Obj(members[leaf := value]))
    case _ => Failure(NotAContainer)
  }

  /** The document after the node at `parts`, which the walk reached by reference, became `x`. */
  function Put(node: Value, parts: seq<string>, x: Value): Value
    requires Walk(node, parts).Success?
    decreases |parts|
  {
    if parts == [] then x
    else
      var child := Put(Child(node, parts[0]).value, parts[1..], x);
      match node
      case Arr(items) => Arr(items[ListPosition(items, parts[0]).value := child])
      case Obj(members) => Obj(members[parts[0] := child])
  }

  function ApplyPointer(document: Value, patch: ArtifactPatch): Edited
  {
    var parts := Tokens(patch.path);
    if parts == [] then Failure(RootReplacement)
    else
      var above, leaf := parts[..|parts| - 1], parts[|parts| - 1];
      var parent :- Walk(document, above);
      if patch.operation.Test? then
        var current :- TestedValue(parent, leaf);
        if current == patch.value then Success(document) else Failure(TestFailed)
      else
        var edited :- Edit(parent, patch.operation, leaf, patch.value);
        Success(Put(document, above, edited))
  }

  /* ---------- walk and put are a lens ---------- */

  lemma {:induction false} WalkConcat(node: Value, a: seq<string>, b: seq<string>)
    ensures Walk(node, a + b) ==
            (match Walk(node, a) case Success(n) => Walk(n, b) case Failure(e) => Failure(e))
    decreases |a|
  {
    if a == [] {
      assert a + b == b;
    } else {
      assert (a + b)[1..] == a[1..] + b;
      match Child(node, a[0])
      case Success(child) => WalkConcat(child, a[1..], b);
      case Failure(_) =>
    }
  }

  lemma {:induction false} WalkPut(node: Value, parts: seq<string>, x: Value)
    requires Walk(node, parts).Success?
    ensures Walk(Put(node, parts, x), parts) == Success(x)
    decreases |parts|
  {
    if parts != [] {
      WalkPut(Child(node, parts[0]).value, parts[1..], x);
    }
  }

  lemma {:induction false} PutWalk(node: Value, parts: seq<string>)
    requires Walk(node, parts).Success?
    ensures Put(node, parts, Walk(node, parts).value) == node
    decreases |parts|
  {
    if parts != [] {
      PutWalk(Child(node, parts[0]).value, parts[1..]);
    }
  }

  /** A node with one child exchanged. */
  function WithChild(node: Value, part: string, child: Value): Value
    requires Child(node, part).Success?
  {
    match node
    case Arr(items) => Arr(items[ListPosition(items, part).value := child])
    case Obj(members) => Obj(members[part := child])
  }

  lemma PutStep(node: Value, parts: seq<string>, x: Value)
    requires parts != [] && Walk(node, parts).Success?
    ensures Child(node, parts[0]).Success? && Walk(Child(node, parts[0]).value, parts[1..]).Success?
    ensures Put(node, parts, x) == WithChild(node, parts[0], Put(Child(node, parts[0]).value, parts[1..], x))
  {
  }

  lemma ReplaceTwice(node: Value, part: string, a: Value, b: Value)
    requires Child(node, part).Success?
    ensures Child(WithChild(node, part, a), part) == Success(a)
    ensures WithChild(WithChild(node, part, a), part, b) == WithChild(node, part, b)
  {
  }

  lemma {:induction false} PutPut(node: Value, parts: seq<string>, x: Value, y: Value)
    requires Walk(node, parts).Success?
    ensures Walk(Put(node, parts, x), parts).Success?
    ensures Put(Put(node, parts, x), parts, y) == Put(node, parts, y)
    decreases |parts|
  {
    WalkPut(node, parts, x);
    if parts != [] {
      PutPut(Child(node, parts[0]).value, parts[1..], x, y);
      PutStep(node, parts, x);
      PutStep(node, parts, y);
      PutStep(Put(node, parts, x), parts, y);
      ReplaceTwice(node, parts[0], Put(Child(node, parts[0]).value, parts[1..], x), Put(Child(node, parts[0]).value, parts[1..], y));
    }
  }

  lemma PutInjective(node: Value, parts: seq<string>, x: Value, y: Value)
    requires Walk(node, parts).Success?
    requires Put(node, parts, x) == Put(node, parts, y)
    ensures x == y
  {
    WalkPut(node, parts, x);
    WalkPut(node, parts, y);
  }

  /* ---------- what a patch does, seen from outside ---------- */

  /** Exactly one position of the list changed, the one the operation addresses. */
  ghost predicate ListChange(before: seq<Value>, after: seq<Value>, operation: Operation, leaf: string, value: Value)
  {
    match operation
    case Add =>
      exists p :: 0 <= p < |after| && after[p] == value && after[..p] + after[p + 1..] == before
                  && (leaf == "-" ==> p == |before|)
                  && (leaf != "-" ==> ParseInt(leaf).Some? && p == InsertAt(|before|, ParseInt(leaf).value))
    case Replace =>
      exists p :: 0 <= p < |before| && after == before[p := value] && ListPosition(before, leaf) == Success(p)
    case Remove =>
      exists p :: 0 <= p < |before| && after == before[..p] + before[p + 1..] && ListPosition(before, leaf) == Success(p)
    case Test => before == after
  }

  /** Exactly one member changed. */
  ghost predicate MemberChange(before: map<string, Value>, after: map<string, Value>, operation: Operation, leaf: string, value: Value)
  {
    && after - {leaf} == before - {leaf}
    && (operation.Remove? ==> leaf in before && leaf !in after)
    && (operation.Add? || operation.Replace? ==> leaf in after && after[leaf] == value)
    && (operation.Test? ==> before == after)
  }

  lemma EditListChanges(items: seq<Value>, operation: Operation, leaf: string, value: Value)
    requires !operation.Test? && EditList(items, operation, leaf, value).Success?
    ensures ListChange(items, EditList(items, operation, leaf, value).value, operation, leaf, value)
  {
    var after := EditList(items, operation, leaf, value).value;
    if operation.Add? {
      var p := if leaf == "-" then |items| else InsertAt(|items|, ParseInt(leaf).value);
      assert after == items[..p] + [value] + items[p..];
      assert after[p] == value && after[..p] + after[p + 1..] == items;
    }
  }

  lemma EditMembersChanges(members: map<string, Value>, operation: Operation, leaf: string, value: Value)
    requires !operation.Test? && Edit(Obj(members), operation, leaf, value).Success?
    ensures MemberChange(members, Edit(Obj(members), operation, leaf, value).value.members, operation, leaf, value)
  {
    var after := Edit(Obj(members), operation, leaf, value).value.members;
    assert after - {leaf} == members - {leaf};
  }

  /** Reading the parent back after a successful patch shows exactly the addressed member or item changed. */
  lemma ReadAfterPatch(document: Value, patch: ArtifactPatch, result: Value)
    requires ApplyPointer(document, patch) == Success(result)
    ensures var parts := Tokens(patch.path);
      var above, leaf := parts[..|parts| - 1], parts[|parts| - 1];
      match (Walk(document, above), Walk(result, above)) {
        case (Success(Obj(before)), Success(Obj(after))) => MemberChange(before, after, patch.operation, leaf, patch.value)
        case (Success(Arr(before)), Success(Arr(after))) => ListChange(before, after, patch.operation, leaf, patch.value)
        case _ => false
      }
  {
    var parts := Tokens(patch.path);
    var above, leaf := parts[..|parts| - 1], parts[|parts| - 1];
    var parent := Walk(document, above).value;
    if !patch.operation.Test? {
      var edited := Edit(parent, patch.operation, leaf, patch.value).value;
      WalkPut(document, above, edited);
      match parent {
        case Obj(members) => EditMembersChanges(members, patch.operation, leaf, patch.value);
        case Arr(items) => EditListChanges(items, patch.operation, leaf, patch.value);
        case _ =>
      }
    }
  }

  /** The object or list a pointer's last token is looked up in, if the walk reaches one. */
  function ParentOf(document: Value, path: string): Option<Value>
  {
    var parts := Tokens(path);
    if parts == [] then None
    else
      match Walk(document, parts[..|parts| - 1])
      case Success(parent) => if parent.Obj? || parent.Arr? then Some(parent) else None
      case Failure(_) => None
  }

  function LastToken(path: string): string
    requires Tokens(path) != []
  {
    Tokens(path)[|Tokens(path)| - 1]
  }

  /** What reading a path gives in terms of its parent: a member, or the item a subscript denotes. */
  lemma ReadFromParent(document: Value, path: string)
    requires Tokens(path) != []
    ensures ReadPointer(document, path) ==
            match ParentOf(document, path)
            case Some(Obj(members)) => if LastToken(path) in members then Some(members[LastToken(path)]) else None
            case Some(Arr(items)) =>
              (match ListPosition(items, LastToken(path)) case Success(p) => Some(items[p]) case Failure(_) => None)
            case _ => None
  {
    var parts := Tokens(path);
    var above, leaf := parts[..|parts| - 1], parts[|parts| - 1];
    assert parts == above + [leaf];
    WalkConcat(document, above, [leaf]);
    match Walk(document, above)
    case Success(parent) => LastStep(parent, leaf);
    case Failure(_) =>
  }

  lemma LastStep(parent: Value, leaf: string)
    ensures Walk(parent, [leaf]) == Child(parent, leaf)
  {
    match Child(parent, leaf)
    case Success(child) => assert Walk(child, []) == Success(child);
    case Failure(_) =>
  }

  /** A test passes if and only if the path reads the expected value, where a missing member counts as null; it
      changes nothing. */
  lemma TestIff(document: Value, patch: ArtifactPatch)
    requires patch.operation.Test?
    ensures ApplyPointer(document, patch).Success? <==>
              Tokens(patch.path) != [] &&
              var parent := ParentOf(document, patch.path);
              || ReadPointer(document, patch.path) == Some(patch.value)
              || (parent.Some? && parent.value.Obj? && LastToken(patch.path) !in parent.value.members && patch.value == Null)
    ensures ApplyPointer(document, patch).Success? ==> ApplyPointer(document, patch).value == document
  {
    if Tokens(patch.path) != [] {
      ReadFromParent(document, patch.path);
    }
  }

  /** Any other patch applies if and only if its parent is reached and takes the operation: objects take every
      `add` and `replace`, lists an `add` at "-" or any integer, and everything else needs something to be there. */
  lemma AppliesIff(document: Value, patch: ArtifactPatch)
    requires !patch.operation.Test?
    ensures ApplyPointer(document, patch).Success? <==>
              Tokens(patch.path) != [] &&
              match ParentOf(document, patch.path)
              case Some(Obj(_)) => !patch.operation.Remove? || ReadPointer(document, patch.path).Some?
              case Some(Arr(_)) =>
                if patch.operation.Add? then LastToken(patch.path) == "-" || ParseInt(LastToken(patch.path)).Some?
                else ReadPointer(document, patch.path).Some?
              case _ => false
  {
    if Tokens(patch.path) != [] {
      ReadFromParent(document, patch.path);
    }
  }

  /** Where two walks part: the first position whose tokens select different children. */
  ghost predicate PartsFrom(node: Value, a: seq<string>, b: seq<string>)
    decreases |a|
  {
    && a != [] && b != []
    && match node {
         case Obj(members) =>
           if a[0] != b[0] then true
           else a[0] in members && PartsFrom(members[a[0]], a[1..], b[1..])
         case Arr(items) =>
           ListPosition(items, a[0]).Success? && ListPosition(items, b[0]).Success? &&
           var p, q := ListPosition(items, a[0]).value, ListPosition(items, b[0]).value;
           if p != q then true else PartsFrom(items[p], a[1..], b[1..])
         case _ => false
       }
  }

  /** A put below one branch leaves every walk that parts from it unchanged. */
  lemma {:induction false} PutFrame(node: Value, a: seq<string>, b: seq<string>, x: Value)
    requires Walk(node, a).Success? && PartsFrom(node, a, b)
    ensures Walk(Put(node, a, x), b) == Walk(node, b)
    decreases |a|
  {
    var child := Child(node, a[0]).value;
    match node {
      case Obj(members) =>
        if a[0] == b[0] { PutFrame(child, a[1..], b[1..], x); }
      case Arr(items) =>
        var p, q := ListPosition(items, a[0]).value, ListPosition(items, b[0]).value;
        if p == q { PutFrame(child, a[1..], b[1..], x); }
    }
  }
}
