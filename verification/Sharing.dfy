/** Which dictionaries a mapped payload shares with the objects its values came from, and what writing into it does
    to them. A call of the mapper creates dictionary o for its output; everything older has a smaller reference. */
module Sharing {
  import opened Wrappers
  import opened Json
  import opened JsonPath
  import opened Objects

  /** A node none of whose dictionaries were created by the call. */
  predicate Outside(n: Node, o: nat)
    decreases n
  {
    match n
    case Leaf(_) => true
    case List(items) => forall i :: 0 <= i < |items| ==> Outside(items[i], o)
    case Dict(r) => r < o
  }

  /** The older dictionaries hold nothing that the call created. */
  predicate Apart(h: Heap, o: nat)
  {
    o <= |h| && forall r, k :: 0 <= r < o && k in h[r] ==> Outside(h[r][k], o)
  }

  /** A node from outside, standing for a value. */
  predicate Stands(h: Heap, o: nat, n: Node, v: Value)
  {
    Outside(n, o) && Represents(h, n, v)
  }

  /** Everything outside that stood for a value still stands for it. */
  ghost predicate Calm(h: Heap, after: Heap, o: nat)
  {
    |h| <= |after| && forall n, v :: Outside(n, o) && Represents(h, n, v) ==> Represents(after, n, v)
  }

  predicate SameBelow(h: Heap, after: Heap, o: nat)
  {
    o <= |h| <= |after| && forall r :: 0 <= r < o ==> after[r] == h[r]
  }

  lemma {:induction false} OutsideFrame(h: Heap, after: Heap, o: nat, n: Node, v: Value)
    requires Apart(h, o) && SameBelow(h, after, o) && Outside(n, o) && Represents(h, n, v)
    ensures Represents(after, n, v)
    decreases v
  {
    match n
    case Leaf(_) =>
    case List(items) =>
      forall i | 0 <= i < |items| ensures Represents(after, items[i], v.items[i]) {
        OutsideFrame(h, after, o, items[i], v.items[i]);
      }
    case Dict(r) =>
      forall k | k in v.members ensures Represents(after, h[r][k], v.members[k]) {
        OutsideFrame(h, after, o, h[r][k], v.members[k]);
      }
  }

  lemma SameBelowIsCalm(h: Heap, after: Heap, o: nat)
    requires Apart(h, o) && SameBelow(h, after, o)
    ensures Calm(h, after, o) && Apart(after, o)
  {
    forall n, v | Outside(n, o) && Represents(h, n, v) ensures Represents(after, n, v) {
      OutsideFrame(h, after, o, n, v);
    }
  }

  /* ---------- the shape of the output ---------- */

  /** What the output holds under a path: an object it shares, or a dictionary that the call created. */
  datatype Shape = Shared | Made(members: map<string, Shape>)

  /** The paths, inside the output, of the dictionaries that the call created. */
  type Own = map<nat, seq<string>>

  predicate Owned(h: Heap, own: Own, o: nat)
  {
    forall x :: x in own ==> o <= x < |h|
  }

  /** A node of the output has a shape and stands for a value. */
  predicate Mirrors(h: Heap, own: Own, o: nat, n: Node, path: seq<string>, shape: Shape, v: Value)
    decreases shape
  {
    match shape
    case Shared => Outside(n, o) && Represents(h, n, v)
    case Made(members) =>
      n.Dict? && v.Obj? && n.ref < |h| && n.ref in own && own[n.ref] == path &&
      h[n.ref].Keys == v.members.Keys == members.Keys &&
      forall k :: k in members ==> Mirrors(h, own, o, h[n.ref][k], path + [k], members[k], v.members[k])
  }

  lemma {:induction false} MirrorsRepresents(h: Heap, own: Own, o: nat, n: Node, path: seq<string>, shape: Shape, v: Value)
    requires Mirrors(h, own, o, n, path, shape, v)
    ensures Represents(h, n, v)
    decreases shape
  {
    if shape.Made? {
      forall k | k in shape.members ensures Represents(h, h[n.ref][k], v.members[k]) {
        MirrorsRepresents(h, own, o, h[n.ref][k], path + [k], shape.members[k], v.members[k]);
      }
    }
  }

  /** The call's dictionaries at or below a path are as before. */
  predicate Untouched(h: Heap, after: Heap, own: Own, ownAfter: Own, path: seq<string>)
  {
    forall x :: x in own && path <= own[x] ==>
      x in ownAfter && ownAfter[x] == own[x] && x < |h| && x < |after| && after[x] == h[x]
  }

  lemma {:induction false} MirrorsFrame(h: Heap, after: Heap, own: Own, ownAfter: Own, o: nat, n: Node, path: seq<string>,
                                        shape: Shape, v: Value)
    requires Mirrors(h, own, o, n, path, shape, v) && Calm(h, after, o)
    requires Untouched(h, after, own, ownAfter, path)
    ensures Mirrors(after, ownAfter, o, n, path, shape, v)
    decreases shape
  {
    if shape.Made? {
      forall k | k in shape.members
        ensures Mirrors(after, ownAfter, o, h[n.ref][k], path + [k], shape.members[k], v.members[k])
      {
        assert forall x :: x in own && path + [k] <= own[x] ==> path <= own[x];
        MirrorsFrame(h, after, own, ownAfter, o, h[n.ref][k], path + [k], shape.members[k], v.members[k]);
      }
    }
  }

  /** The call's dictionaries keep their places, and only those at or below a path change. */
  predicate Confined(h: Heap, after: Heap, own: Own, ownAfter: Own, path: seq<string>)
  {
    forall x :: x in own ==>
      x in ownAfter && ownAfter[x] == own[x] && x < |h| && x < |after| && (path <= own[x] || after[x] == h[x])
  }

  /* ---------- what a write does to the shape ---------- */

  /** The shape of the dictionary a write descends into under a token. */
  function ShapeBelow(shape: Shape, members: Members, token: string): Shape
    requires shape.Made?
  {
    if token in members && members[token].Obj? && token in shape.members then shape.members[token] else Made(map[])
  }

  function ShapeAfter(shape: Shape, members: Members, tokens: seq<string>): Shape
    requires tokens != []
    decreases |tokens|
  {
    match shape
    case Shared => Shared
    case Made(below) =>
      Made(below[tokens[0] := if |tokens| == 1 then Shared
                              else ShapeAfter(ShapeBelow(shape, members, tokens[0]), Descend(members, tokens[0]), tokens[1..])])
  }

  /** The write goes into a shared object and stores something else than what is there. */
  predicate Disturbs(shape: Shape, members: Members, tokens: seq<string>, value: Value)
    requires tokens != []
    decreases |tokens|
  {
    match shape
    case Shared => Assign(members, tokens, value) != members
    case Made(_) =>
      |tokens| > 1 &&
      Disturbs(ShapeBelow(shape, members, tokens[0]), Descend(members, tokens[0]), tokens[1..], value)
  }

  /** Besides dictionary r, only dictionaries at or below its member `key` change. */
  predicate ConfinedTo(h: Heap, after: Heap, own: Own, ownAfter: Own, r: nat, path: seq<string>, key: string)
  {
    forall x :: x in own ==>
      x in ownAfter && ownAfter[x] == own[x] && x < |h| && x < |after| &&
      (x == r || path + [key] <= own[x] || after[x] == h[x])
  }

  lemma SiblingUntouched(h: Heap, after: Heap, own: Own, ownAfter: Own, r: nat, path: seq<string>, key: string, k: string)
    requires ConfinedTo(h, after, own, ownAfter, r, path, key) && r in own && own[r] == path && k != key
    ensures Untouched(h, after, own, ownAfter, path + [k])
  {
    forall x | x in own && path + [k] <= own[x] ensures after[x] == h[x] {
      assert own[x][|path|] == (path + [k])[|path|] == k;
      assert (path + [key])[|path|] == key;
      assert !(path + [key] <= own[x]);
    }
  }

  lemma SiblingKept(h: Heap, after: Heap, own: Own, ownAfter: Own, o: nat, r: nat, path: seq<string>, key: string,
                    n: Node, k: string, shape: Shape, v: Value)
    requires ConfinedTo(h, after, own, ownAfter, r, path, key) && r in own && own[r] == path && k != key
    requires Mirrors(h, own, o, n, path + [k], shape, v) && Calm(h, after, o)
    ensures Mirrors(after, ownAfter, o, n, path + [k], shape, v)
  {
    SiblingUntouched(h, after, own, ownAfter, r, path, key, k);
    MirrorsFrame(h, after, own, ownAfter, o, n, path + [k], shape, v);
  }

  /** A member of a created dictionary is replaced, and everything it holds under other keys stays. */
  lemma MemberReplaced(h: Heap, after: Heap, own: Own, ownAfter: Own, o: nat, r: nat, path: seq<string>,
                       shape: Shape, m: Members, key: string, n: Node, below: Shape, v: Value)
    requires Mirrors(h, own, o, Dict(r), path, shape, Obj(m)) && shape.Made?
    requires Calm(h, after, o) && ConfinedTo(h, after, own, ownAfter, r, path, key)
    requires after[r] == h[r][key := n]
    requires Mirrors(after, ownAfter, o, n, path + [key], below, v)
    ensures Mirrors(after, ownAfter, o, Dict(r), path, Made(shape.members[key := below]), Obj(m[key := v]))
    ensures Confined(h, after, own, ownAfter, path)
  {
    forall k | k in shape.members && k != key
      ensures Mirrors(after, ownAfter, o, h[r][k], path + [k], shape.members[k], m[k])
    {
      SiblingKept(h, after, own, ownAfter, o, r, path, key, h[r][k], k, shape.members[k], m[k]);
    }
    assert forall x :: x in own && path + [key] <= own[x] ==> path <= own[x];
  }

  /* ---------- writes into shared objects ---------- */

  /** A member replaced by a node that stands for the same value changes what no node stands for. */
  lemma {:induction false} ReplaceEqual(h: Heap, c: nat, key: string, n: Node, v: Value, node: Node, w: Value)
    requires c < |h| && key in h[c] && Represents(h, h[c][key], v) && Represents(h, n, v)
    requires Represents(h, node, w)
    ensures Represents(h[c := h[c][key := n]], node, w)
    decreases w
  {
    var after := h[c := h[c][key := n]];
    match node
    case Leaf(_) =>
    case List(items) =>
      forall i | 0 <= i < |items| ensures Represents(after, items[i], w.items[i]) {
        ReplaceEqual(h, c, key, n, v, items[i], w.items[i]);
      }
    case Dict(r) =>
      forall k | k in w.members ensures Represents(after, after[r][k], w.members[k]) {
        if r == c && k == key {
          RepresentsOne(h, h[c][key], v, w.members[k]);
          ReplaceEqual(h, c, key, n, v, n, w.members[k]);
        } else {
          ReplaceEqual(h, c, key, n, v, h[r][k], w.members[k]);
        }
      }
  }

  /** Every node stands for what it stood for, and only older dictionaries changed. */
  ghost predicate Unseen(h: Heap, after: Heap, o: nat)
  {
    |after| == |h| && Apart(after, o) &&
    (forall x :: o <= x < |h| ==> after[x] == h[x]) &&
    forall n, v :: Represents(h, n, v) ==> Represents(after, n, v)
  }

  lemma DescendsEqual(m: Members, tokens: seq<string>, v: Value)
    requires |tokens| > 1 && Assign(m, tokens, v) == m
    ensures tokens[0] in m && m[tokens[0]].Obj?
    ensures Assign(m[tokens[0]].members, tokens[1..], v) == m[tokens[0]].members
  {
    assert Assign(m, tokens, v)[tokens[0]] == Obj(Assign(Descend(m, tokens[0]), tokens[1..], v));
  }

  /** Storing in a shared object what is already there is not seen. */
  lemma {:induction false} EqualWriteUnseen(h: Heap, o: nat, c: nat, m: Members, tokens: seq<string>, n: Node, v: Value)
    requires Apart(h, o) && c < o && Represents(h, Dict(c), Obj(m))
    requires Outside(n, o) && Represents(h, n, v)
    requires tokens != [] && Assign(m, tokens, v) == m
    ensures Unseen(h, Write(h, c, tokens, n), o)
    decreases |tokens|
  {
    var key := tokens[0];
    if |tokens| == 1 {
      assert m[key := v][key] == v;
      var after := h[c := h[c][key := n]];
      forall node, w | Represents(h, node, w) ensures Represents(after, node, w) {
        ReplaceEqual(h, c, key, n, v, node, w);
      }
    } else {
      DescendsEqual(m, tokens, v);
      assert Represents(h, h[c][key], m[key]);
      EqualWriteUnseen(h, o, h[c][key].ref, m[key].members, tokens[1..], n, v);
    }
  }

  /** A write into a dictionary at the end of the heap leaves the others alone. */
  lemma {:induction false} FreshWrite(h: Heap, r: nat, tokens: seq<string>, n: Node)
    requires r + 1 == |h| && h[r] == map[] && tokens != []
    ensures forall x :: 0 <= x < r ==> Write(h, r, tokens, n)[x] == h[x]
    decreases |tokens|
  {
    if |tokens| > 1 {
      FreshWrite(WithChild(h, r, tokens[0]), |h|, tokens[1..], n);
    }
  }

  lemma ChildCreated(h: Heap, c: nat, tokens: seq<string>, n: Node)
    requires c < |h| && |tokens| > 1 && !HoldsDict(h, c, tokens[0])
    ensures var after := Write(h, c, tokens, n); tokens[0] in after[c] && after[c][tokens[0]] == Dict(|h|)
  {
    FreshWrite(WithChild(h, c, tokens[0]), |h|, tokens[1..], n);
  }

  lemma CalmStoreIsEqual(h: Heap, o: nat, c: nat, m: Members, key: string, n: Node, v: Value)
    requires c < o <= |h| && Represents(h, Dict(c), Obj(m)) && Stands(h, o, n, v)
    requires Calm(h, h[c := h[c][key := n]], o)
    ensures m[key := v] == m
  {
    var after := h[c := h[c][key := n]];
    assert Represents(after, Dict(c), Obj(m)) && Represents(after, n, m[key]);
    RepresentsOne(after, n, v, m[key]);
  }

  lemma DictHeld(h: Heap, c: nat, m: Members, key: string)
    requires Represents(h, Dict(c), Obj(m))
    ensures HoldsDict(h, c, key) <==> key in m && m[key].Obj?
    ensures HoldsDict(h, c, key) ==> Represents(h, Dict(h[c][key].ref), m[key])
  {
    assert key in m ==> Represents(h, h[c][key], m[key]);
  }

  /** A new dictionary inside a shared object is noticed. */
  lemma CreatingIsNoticed(h: Heap, o: nat, c: nat, m: Members, tokens: seq<string>, n: Node)
    requires c < o <= |h| && Represents(h, Dict(c), Obj(m)) && |tokens| > 1 && !HoldsDict(h, c, tokens[0])
    ensures !Calm(h, Write(h, c, tokens, n), o)
  {
    var after := Write(h, c, tokens, n);
    DictHeld(h, c, m, tokens[0]);
    ChildCreated(h, c, tokens, n);
    assert Outside(Dict(c), o);
    assert !Represents(after, Dict(c), Obj(m));
  }

  /** A write into a shared object that nothing outside notices stores what is already there. */
  lemma {:induction false} CalmWriteIsEqual(h: Heap, o: nat, c: nat, m: Members, tokens: seq<string>, n: Node, v: Value)
    requires Apart(h, o) && c < o && Represents(h, Dict(c), Obj(m)) && Stands(h, o, n, v)
    requires tokens != [] && Calm(h, Write(h, c, tokens, n), o)
    ensures Assign(m, tokens, v) == m
    decreases |tokens|
  {
    var key := tokens[0];
    if |tokens| == 1 {
      CalmStoreIsEqual(h, o, c, m, key, n, v);
    } else if HoldsDict(h, c, key) {
      DictHeld(h, c, m, key);
      assert Outside(h[c][key], o);
      CalmWriteIsEqual(h, o, h[c][key].ref, m[key].members, tokens[1..], n, v);
    } else {
      CreatingIsNoticed(h, o, c, m, tokens, n);
    }
  }

  /* ---------- writes into the output ---------- */

  /** The state between two rules: the output mirrors a value, the older dictionaries stand apart. */
  predicate Fits(h: Heap, own: Own, o: nat, n: Node, path: seq<string>, shape: Shape, v: Value)
  {
    Apart(h, o) && Owned(h, own, o) && Mirrors(h, own, o, n, path, shape, v)
  }

  /** An undisturbing write: the output then mirrors the value with the assignment done. */
  lemma {:induction false} WriteFits(h: Heap, own: Own, o: nat, r: nat, path: seq<string>, shape: Shape, m: Members,
                                     tokens: seq<string>, n: Node, v: Value) returns (ownAfter: Own)
    requires Fits(h, own, o, Dict(r), path, shape, Obj(m)) && shape.Made? && Stands(h, o, n, v)
    requires tokens != [] && !Disturbs(shape, m, tokens, v)
    ensures var after := Write(h, r, tokens, n);
            Fits(after, ownAfter, o, Dict(r), path, ShapeAfter(shape, m, tokens), Obj(Assign(m, tokens, v))) &&
            Calm(h, after, o) && Confined(h, after, own, ownAfter, path)
    decreases |tokens|, 1
  {
    var after := Write(h, r, tokens, n);
    var key := tokens[0];
    if |tokens| == 1 {
      ownAfter := own;
      SameBelowIsCalm(h, after, o);
      MemberReplaced(h, after, own, own, o, r, path, shape, m, key, n, Shared, v);
    } else if !HoldsDict(h, r, key) {
      ownAfter := FreshChild(h, own, o, r, path, shape, m, tokens, n, v);
    } else {
      ownAfter := ChildWrite(h, own, o, r, path, shape, m, tokens, n, v);
    }
  }

  lemma CalmTwice(h: Heap, mid: Heap, after: Heap, o: nat)
    requires Calm(h, mid, o) && Calm(mid, after, o)
    ensures Calm(h, after, o)
  {
  }

  /** Where the output holds no dictionary, Python finds none either. */
  lemma HoldsDictIff(h: Heap, own: Own, o: nat, r: nat, path: seq<string>, shape: Shape, m: Members, key: string)
    requires Mirrors(h, own, o, Dict(r), path, shape, Obj(m)) && shape.Made?
    ensures HoldsDict(h, r, key) <==> key in m && m[key].Obj?
  {
    if key in m {
      MirrorsRepresents(h, own, o, h[r][key], path + [key], shape.members[key], m[key]);
    }
  }

  lemma {:induction false} FreshChild(h: Heap, own: Own, o: nat, r: nat, path: seq<string>, shape: Shape, m: Members,
                                      tokens: seq<string>, n: Node, v: Value) returns (ownAfter: Own)
    requires Fits(h, own, o, Dict(r), path, shape, Obj(m)) && shape.Made? && Stands(h, o, n, v)
    requires |tokens| > 1 && !HoldsDict(h, r, tokens[0])
    ensures var after := Write(h, r, tokens, n);
            Fits(after, ownAfter, o, Dict(r), path, ShapeAfter(shape, m, tokens), Obj(Assign(m, tokens, v))) &&
            Calm(h, after, o) && Confined(h, after, own, ownAfter, path)
    decreases |tokens|, 0
  {
    var key := tokens[0];
    var mid := WithChild(h, r, key);
    var ownMid := own[|h| := path + [key]];
    SameBelowIsCalm(h, mid, o);
    HoldsDictIff(h, own, o, r, path, shape, m, key);
    NothingSharedBelow(map[], tokens[1..], v);
    ownAfter := WriteFits(mid, ownMid, o, |h|, path + [key], Made(map[]), map[], tokens[1..], n, v);
    var after := Write(h, r, tokens, n);
    CalmTwice(h, mid, after, o);
    assert after[r] == h[r][key := Dict(|h|)];
    MemberReplaced(h, after, own, ownAfter, o, r, path, shape, m, key, Dict(|h|),
                   ShapeAfter(Made(map[]), map[], tokens[1..]), Obj(Assign(map[], tokens[1..], v)));
  }

  lemma {:induction false} ChildWrite(h: Heap, own: Own, o: nat, r: nat, path: seq<string>, shape: Shape, m: Members,
                                      tokens: seq<string>, n: Node, v: Value) returns (ownAfter: Own)
    requires Fits(h, own, o, Dict(r), path, shape, Obj(m)) && shape.Made? && Stands(h, o, n, v)
    requires |tokens| > 1 && HoldsDict(h, r, tokens[0]) && !Disturbs(shape, m, tokens, v)
    ensures var after := Write(h, r, tokens, n);
            Fits(after, ownAfter, o, Dict(r), path, ShapeAfter(shape, m, tokens), Obj(Assign(m, tokens, v))) &&
            Calm(h, after, o) && Confined(h, after, own, ownAfter, path)
    decreases |tokens|, 0
  {
    var key := tokens[0];
    HoldsDictIff(h, own, o, r, path, shape, m, key);
    var child, below, members := h[r][key], shape.members[key], m[key].members;
    var after := Write(h, r, tokens, n);
    assert Mirrors(h, own, o, child, path + [key], below, m[key]);
    if below == Shared {
      ownAfter := own;
      EqualWriteUnseen(h, o, child.ref, members, tokens[1..], n, v);
      assert after[r] == h[r];
    } else {
      ownAfter := WriteFits(h, own, o, child.ref, path + [key], below, members, tokens[1..], n, v);
      assert after[r] == h[r];
    }
    assert h[r][key := child] == h[r];
    MemberReplaced(h, after, own, ownAfter, o, r, path, shape, m, key, child, ShapeAfter(below, members, tokens[1..]),
                   Obj(Assign(members, tokens[1..], v)));
  }

  /** A disturbing write is noticed outside. */
  lemma {:induction false} DisturbingWrite(h: Heap, own: Own, o: nat, r: nat, path: seq<string>, shape: Shape, m: Members,
                                           tokens: seq<string>, n: Node, v: Value)
    requires Fits(h, own, o, Dict(r), path, shape, Obj(m)) && Stands(h, o, n, v)
    requires tokens != [] && Disturbs(shape, m, tokens, v)
    ensures !Calm(h, Write(h, r, tokens, n), o)
    decreases |tokens|
  {
    if shape == Shared {
      if Calm(h, Write(h, r, tokens, n), o) {
        CalmWriteIsEqual(h, o, r, m, tokens, n, v);
      }
    } else {
      var key := tokens[0];
      HoldsDictIff(h, own, o, r, path, shape, m, key);
      if key in m && m[key].Obj? {
        assert Mirrors(h, own, o, h[r][key], path + [key], shape.members[key], m[key]);
        DisturbingWrite(h, own, o, h[r][key].ref, path + [key], shape.members[key], m[key].members, tokens[1..], n, v);
      } else {
        NothingSharedBelow(map[], tokens[1..], v);
      }
    }
  }

  lemma {:induction false} NothingSharedBelow(m: Members, tokens: seq<string>, v: Value)
    requires tokens != []
    ensures !Disturbs(Made(map[]), m, tokens, v)
    decreases |tokens|
  {
    if |tokens| > 1 {
      NothingSharedBelow(Descend(m, tokens[0]), tokens[1..], v);
    }
  }
}
