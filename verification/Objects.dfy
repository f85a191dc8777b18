/** JSON values as Python holds them: dictionaries are objects with an identity, stored in a heap, and whoever
    holds one sees every write to it. `get_path` and `set_path` on such values. Lists are never written to here, so
    they need no identity. */
module Objects {
  import opened Wrappers
  import opened Json
  import opened Text
  import opened JsonPath

  datatype Node = Leaf(value: Value) | List(items: seq<Node>) | Dict(ref: nat)

  /** The dictionaries, by reference. */
  type Heap = seq<map<string, Node>>

  /** The JSON value a node stands for, if it stands for one: a node on a cycle stands for none. */
  predicate Represents(h: Heap, n: Node, v: Value)
    decreases v
  {
    match n
    case Leaf(x) => x == v && !v.Arr? && !v.Obj?
    case List(items) =>
      v.Arr? && |items| == |v.items| && forall i :: 0 <= i < |items| ==> Represents(h, items[i], v.items[i])
    case Dict(r) =>
      v.Obj? && r < |h| && h[r].Keys == v.members.Keys && forall k :: k in v.members ==> Represents(h, h[r][k], v.members[k])
  }

  lemma {:induction false} RepresentsOne(h: Heap, n: Node, v: Value, w: Value)
    requires Represents(h, n, v) && Represents(h, n, w)
    ensures v == w
    decreases v
  {
    match n
    case Leaf(_) =>
    case List(items) =>
      forall i | 0 <= i < |items| ensures v.items[i] == w.items[i] {
        RepresentsOne(h, items[i], v.items[i], w.items[i]);
      }
    case Dict(r) =>
      forall k | k in v.members ensures v.members[k] == w.members[k] {
        RepresentsOne(h, h[r][k], v.members[k], w.members[k]);
      }
      assert v.members == w.members;
  }

  /* ---------- reading ---------- */

  function StepTo(h: Heap, n: Node, token: string): Option<Node>
  {
    match n
    case Dict(r) => if r < |h| && token in h[r] then Some(h[r][token]) else None
    case List(items) =>
      if AllDigits(token) && DigitValue(token) < |items| then Some(items[DigitValue(token)]) else None
    case Leaf(_) => None
  }

  function Reach(h: Heap, n: Node, tokens: seq<string>): Option<Node>
    decreases |tokens|
  {
    if tokens == [] then Some(n)
    else
      match StepTo(h, n, tokens[0])
      case Some(child) => Reach(h, child, tokens[1..])
      case None => None
  }

  /** `get_path` without a default; the result is the object itself, not a copy. */
  function Read(h: Heap, n: Node, path: string): Option<Node>
  {
    if path in {"", "$", "."} then Some(n) else Reach(h, n, PathTokens(path))
  }

  /** The node found stands for the value found. */
  ghost predicate Same(h: Heap, n: Option<Node>, v: Option<Value>)
  {
    match (n, v)
    case (Some(node), Some(value)) => Represents(h, node, value)
    case (None, None) => true
    case _ => false
  }

  lemma {:induction false} ReachSame(h: Heap, n: Node, v: Value, tokens: seq<string>)
    requires Represents(h, n, v)
    ensures Same(h, Reach(h, n, tokens), Lookup(v, tokens))
    decreases |tokens|
  {
    if tokens != [] && Step(v, tokens[0]).Some? {
      ReachSame(h, StepTo(h, n, tokens[0]).value, Step(v, tokens[0]).value, tokens[1..]);
    }
  }

  lemma ReadSame(h: Heap, n: Node, v: Value, path: string)
    requires Represents(h, n, v)
    ensures Same(h, Read(h, n, path), GetPath(v, path))
  {
    ReachSame(h, n, v, PathTokens(path));
  }

  /* ---------- writing ---------- */

  predicate HoldsDict(h: Heap, r: nat, token: string)
    requires r < |h|
  {
    token in h[r] && h[r][token].Dict? && h[r][token].ref < |h|
  }

  /** A new empty dictionary under a token of dictionary r. */
  function WithChild(h: Heap, r: nat, token: string): (after: Heap)
    requires r < |h|
    ensures |after| == |h| + 1
  {
    h[r := h[r][token := Dict(|h|)]] + [map[]]
  }

  /** Walking down from dictionary r, creating dictionaries where none is found, and storing the node itself. */
  function Write(h: Heap, r: nat, tokens: seq<string>, n: Node): (after: Heap)
    requires r < |h| && tokens != []
    ensures |h| <= |after|
    decreases |tokens|
  {
    if |tokens| == 1 then h[r := h[r][tokens[0] := n]]
    else if HoldsDict(h, r, tokens[0]) then Write(h, h[r][tokens[0]].ref, tokens[1..], n)
    else Write(WithChild(h, r, tokens[0]), |h|, tokens[1..], n)
  }

  /** `set_path`; None where it raises. A root assignment clears the dictionary before it copies the members. */
  function WritePath(h: Heap, r: nat, path: string, n: Node): (after: Option<Heap>)
    requires r < |h|
    ensures after.Some? ==> |h| <= |after.value|
  {
    var tokens := PathTokens(path);
    if tokens != [] then Some(Write(h, r, tokens, n))
    else if n.Dict? && n.ref < |h| then Some(h[r := if n.ref == r then map[] else h[n.ref]])
    else None
  }

  /* ---------- the loops ---------- */

  class Store {
    var objects: Heap

    constructor (objects: Heap)
      ensures this.objects == objects
    {
      this.objects := objects;
    }

    /** `get_path`: one token at a time. */
    method Get(data: Node, path: string) returns (r: Option<Node>)
      ensures r == Read(objects, data, path)
    {
      if path in {"", "$", "."} { return Some(data); }
      var tokens := PathTokens(path);
      var current := data;
      for i := 0 to |tokens|
        invariant Reach(objects, data, tokens) == Reach(objects, current, tokens[i..])
      {
        assert tokens[i..][1..] == tokens[i + 1..];
        match StepTo(objects, current, tokens[i]) {
          case Some(child) => current := child;
          case None => return None;
        }
      }
      return Some(current);
    }

    /** `set_path`: each dictionary on the way is the stored one, or a new one stored in place of what was there. */
    method Set(data: nat, path: string, value: Node) returns (ok: bool)
      requires data < |objects|
      modifies this
      ensures ok <==> WritePath(old(objects), data, path, value).Some?
      ensures objects == if ok then WritePath(old(objects), data, path, value).value else old(objects)
    {
      var tokens := PathTokens(path);
      if tokens == [] {
        if !value.Dict? || value.ref >= |objects| { return false; }
        var members := if value.ref == data then map[] else objects[value.ref];
        objects := objects[data := members];
        return true;
      }
      var current: nat := data;
      for i := 0 to |tokens| - 1
        invariant current < |objects| && |old(objects)| <= |objects|
        invariant Write(old(objects), data, tokens, value) == Write(objects, current, tokens[i..], value)
      {
        assert tokens[i..][0] == tokens[i] && tokens[i..][1..] == tokens[i + 1..];
        if HoldsDict(objects, current, tokens[i]) {
          current := objects[current][tokens[i]].ref;
        } else {
          var created := |objects|;
          objects := WithChild(objects, current, tokens[i]);
          current := created;
        }
      }
      assert tokens[|tokens| - 1..] == [tokens[|tokens| - 1]];
      objects := objects[current := objects[current][tokens[|tokens| - 1] := value]];
      return true;
    }
  }
}
