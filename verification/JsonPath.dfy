/** Dotted paths: `get_path` and `set_path` of `jsonpath.py`. */
module JsonPath {
  import opened Wrappers
  import opened Json
  import opened Text

  type Members = map<string, Value>

  function RemovePrefix(s: string, prefix: string): string
  {
    if prefix <= s then s[|prefix|..] else s
  }

  function NonEmpty(parts: seq<string>): seq<string>
  {
    if parts == [] then []
    else (if parts[0] == "" then [] else [parts[0]]) + NonEmpty(parts[1..])
  }

  /** The tokens both functions walk: empty ones are skipped. */
  function PathTokens(path: string): seq<string>
  {
    NonEmpty(Split(RemovePrefix(RemovePrefix(path, "$."), "."), '.'))
  }

  predicate AllDigits(token: string)
  {
    token != "" && forall i :: 0 <= i < |token| ==> IsDigit(token[i])
  }

  function Step(node: Value, token: string): Option<Value>
  {
    match node
    case Obj(members) => if token in members then Some(members[token]) else None
    case Arr(items) =>
      if AllDigits(token) && DigitValue(token) < |items| then Some(items[DigitValue(token)]) else None
    case _ => None
  }

  function Lookup(node: Value, tokens: seq<string>): Option<Value>
    decreases |tokens|
  {
    if tokens == [] then Some(node)
    else
      match Step(node, tokens[0])
      case Some(child) => Lookup(child, tokens[1..])
      case None => None
  }

  /** `get_path` without a default; None where it raises KeyError. */
  function GetPath(data: Value, path: string): Option<Value>
  {
    if path in {"", "$", "."} then Some(data) else Lookup(data, PathTokens(path))
  }

  /** The members an assignment descends into: anything but an object is replaced by a new one. */
  function Descend(members: Members, token: string): Members
  {
    if token in members && members[token].Obj? then members[token].members else map[]
  }

  function Assign(members: Members, tokens: seq<string>, value: Value): Members
    requires tokens != []
    decreases |tokens|
  {
    if |tokens| == 1 then members[tokens[0] := value]
    else members[tokens[0] := Obj(Assign(Descend(members, tokens[0]), tokens[1..], value))]
  }

  /** `set_path`; None where it raises ValueError for a root assignment. */
  function SetPath(members: Members, path: string, value: Value): Option<Members>
  {
    var tokens := PathTokens(path);
    if tokens != [] then Some(Assign(members, tokens, value))
    else if value.Obj? then Some(value.members)
    else None
  }

  lemma OnePartPath(a: string)
    requires a != "" && '.' !in a && a[0] != '$'
    ensures PathTokens(a) == [a] && a !in {"", "$", "."}
  {
    SplitWithoutSeparator(a, '.');
    assert [a][1..] == [] && NonEmpty([]) == [];
  }

  lemma TwoPartPath(a: string, b: string)
    requires a != "" && b != "" && '.' !in a && '.' !in b && a[0] != '$'
    ensures PathTokens(a + "." + b) == [a, b] && a + "." + b !in {"", "$", "."}
  {
    var path := a + "." + b;
    SplitConcat(a, b, '.');
    SplitWithoutSeparator(a, '.');
    SplitWithoutSeparator(b, '.');
    assert a + ['.'] + b == path && path[0] == a[0];
    assert RemovePrefix(RemovePrefix(path, "$."), ".") == path;
    assert [a, b][1..] == [b] && [b][1..] == [] && NonEmpty([]) == [];
    assert NonEmpty([b]) == [b];
  }

  lemma {:induction false} NothingSkipped(parts: seq<string>)
    requires forall i :: 0 <= i < |parts| ==> parts[i] != ""
    ensures NonEmpty(parts) == parts
  {
    if parts != [] {
      NothingSkipped(parts[1..]);
      assert parts == [parts[0]] + parts[1..];
    }
  }

  lemma {:induction false} SplitOfJoin(parts: seq<string>)
    requires parts != [] && forall i :: 0 <= i < |parts| ==> '.' !in parts[i]
    ensures Split(Join(parts, '.'), '.') == parts
  {
    if |parts| == 1 {
      SplitWithoutSeparator(parts[0], '.');
    } else {
      SplitOfJoin(parts[1..]);
      SplitWithoutSeparator(parts[0], '.');
      SplitConcat(parts[0], Join(parts[1..], '.'), '.');
      assert parts == [parts[0]] + parts[1..];
    }
  }

  /** A path written from names, with or without the leading "$.", is read back as those names; without it, provided the
      first name is not "$" with something behind it. */
  lemma TokensOfJoin(parts: seq<string>)
    requires parts != [] && forall i :: 0 <= i < |parts| ==> parts[i] != "" && '.' !in parts[i]
    ensures PathTokens("$." + Join(parts, '.')) == parts
    ensures !(parts[0] == "$" && |parts| > 1) ==> PathTokens(Join(parts, '.')) == parts
  {
    SplitOfJoin(parts);
    NothingSkipped(parts);
    JoinStarts(parts);
    PlainTokens(Join(parts, '.'));
    if "$." <= Join(parts, '.') {
      JoinDollar(parts);
    }
  }

  lemma PlainTokens(path: string)
    requires path != "" && path[0] != '.'
    ensures PathTokens("$." + path) == NonEmpty(Split(path, '.'))
    ensures !("$." <= path) ==> PathTokens(path) == NonEmpty(Split(path, '.'))
  {
    assert RemovePrefix(path, ".") == path;
    assert ("$." + path)[2..] == path && "$." <= "$." + path;
  }

  lemma JoinStarts(parts: seq<string>)
    requires parts != [] && parts[0] != "" && '.' !in parts[0]
    ensures Join(parts, '.') != "" && Join(parts, '.')[0] == parts[0][0] != '.'
  {
  }

  lemma JoinDollar(parts: seq<string>)
    requires parts != [] && parts[0] != "" && '.' !in parts[0] && "$." <= Join(parts, '.')
    ensures parts[0] == "$" && |parts| > 1
  {
    var path := Join(parts, '.');
    JoinPrefix(parts);
    assert path[0] == '$' && path[1] == '.';
    assert parts[0] == path[..|parts[0]|];
  }

  lemma JoinPrefix(parts: seq<string>)
    requires parts != []
    ensures parts[0] <= Join(parts, '.') && (|parts| == 1 ==> parts[0] == Join(parts, '.'))
  {
  }

  /** A list is read by position, written in decimal; anything else that is not an object holds nothing to step into. */
  lemma ItemRead(items: seq<Value>, i: nat, token: string)
    ensures Step(Arr(items), Decimal(i)) == if i < |items| then Some(items[i]) else None
    ensures !AllDigits(token) ==> Step(Arr(items), token) == None
  {
    DigitValueOfDecimal(i);
  }

  /* ---------- the loops ---------- */

  /** `get_path`: one token at a time, falling back to the default or failing. */
  method Get(data: Value, path: string, fallback: Option<Value>) returns (r: Option<Value>)
    ensures r == match GetPath(data, path) case Some(v) => Some(v) case None => fallback
  {
    if path in {"", "$", "."} { return Some(data); }
    var tokens := PathTokens(path);
    var current := data;
    for i := 0 to |tokens|
      invariant Lookup(data, tokens) == Lookup(current, tokens[i..])
    {
      assert tokens[i..][1..] == tokens[i + 1..];
      match Step(current, tokens[i]) {
        case Some(child) => current := child;
        case None => return fallback;
      }
    }
    return Some(current);
  }

  lemma AssignStep(members: Members, tokens: seq<string>, i: nat, value: Value)
    requires i + 1 < |tokens|
    ensures Assign(members, tokens[i..], value)
         == members[tokens[i] := Obj(Assign(Descend(members, tokens[i]), tokens[i + 1..], value))]
  {
    assert tokens[i..][0] == tokens[i] && tokens[i..][1..] == tokens[i + 1..];
  }

  /** A dictionary that `set_path` writes into. */
  class Dictionary {
    var members: Members

    constructor ()
      ensures members == map[]
    {
      members := map[];
    }

    /** `set_path`: descend, creating objects on the way, then write; the visited dictionaries hold the
        new children afterwards. */
    method Set(path: string, value: Value) returns (ok: bool)
      modifies this
      ensures ok <==> SetPath(old(members), path, value).Some?
      ensures members == if ok then SetPath(old(members), path, value).value else old(members)
    {
      var tokens := PathTokens(path);
      if tokens == [] {
        if !value.Obj? { return false; }
        members := value.members;
        return true;
      }
      var last := |tokens| - 1;
      var visited := [members];
      var i := 0;
      while i < last
        invariant 0 <= i <= last && |visited| == i + 1
        invariant members == old(members) && visited[0] == members
        invariant forall j :: 0 <= j < i ==> visited[j + 1] == Descend(visited[j], tokens[j])
      {
        visited := visited + [Descend(visited[i], tokens[i])];
        i := i + 1;
      }
      var current := visited[last][tokens[last] := value];
      while i > 0
        invariant 0 <= i <= last
        invariant current == Assign(visited[i], tokens[i..], value)
      {
        i := i - 1;
        assert visited[i + 1] == Descend(visited[i], tokens[i]);
        AssignStep(visited[i], tokens, i, value);
        current := visited[i][tokens[i] := Obj(current)];
      }
      assert tokens[0..] == tokens;
      members := current;
      return true;
    }
  }

  /* ---------- reading what was written ---------- */

  lemma {:induction false} LookupAfterAssign(members: Members, tokens: seq<string>, value: Value)
    requires tokens != []
    ensures Lookup(Obj(Assign(members, tokens, value)), tokens) == Some(value)
    decreases |tokens|
  {
    if |tokens| == 1 {
      assert tokens[1..] == [];
    } else {
      LookupAfterAssign(Descend(members, tokens[0]), tokens[1..], value);
    }
  }

  lemma NotItsOwnMember(v: Value, key: string)
    requires v.Obj? && key in v.members
    ensures v.members[key] != v
  {
    assert (v decreases to v.members[key]);
  }

  /** A path just set reads back the value, for every path but "$", which is written as a member named
      "$" and read as the root. */
  lemma GetAfterSet(members: Members, path: string, value: Value)
    requires SetPath(members, path, value).Some?
    ensures GetPath(Obj(SetPath(members, path, value).value), path) == Some(value) <==> path != "$"
  {
    var tokens := PathTokens(path);
    if path == "$" {
      assert Split("$", '.') == ["$"] by { SplitWithoutSeparator("$", '.'); }
      assert tokens == ["$"] by { assert ["$"][1..] == []; assert NonEmpty([]) == []; }
      NotItsOwnMember(Obj(members["$" := value]), "$");
    } else if tokens != [] {
      LookupAfterAssign(members, tokens, value);
      RootSpellings();
    }
  }

  lemma RootSpellings()
    ensures PathTokens("") == [] && PathTokens(".") == []
  {
    assert [""][1..] == [] && NonEmpty([]) == [];
    assert NonEmpty([""]) == [];
    assert "."[1..] == "";
  }

  /** "$." and "$.." name the root of a write as well, and an empty name is skipped. */
  lemma EmptyNamesSkipped(parts: seq<string>)
    ensures PathTokens("$.") == [] && PathTokens("$..") == []
    ensures NonEmpty([""] + parts) == NonEmpty(parts)
  {
    RootSpellings();
    assert "$."[2..] == "" && "$.."[2..] == ".";
    assert ([""] + parts)[1..] == parts;
  }

  /* ---------- writes to unrelated paths ---------- */

  predicate Unrelated(a: seq<string>, b: seq<string>)
  {
    !(a <= b) && !(b <= a)
  }

  lemma UnrelatedTails(a: seq<string>, b: seq<string>)
    requires Unrelated(a, b)
    ensures a != [] && b != []
    ensures a[0] == b[0] ==> |a| >= 2 && |b| >= 2 && Unrelated(a[1..], b[1..])
  {
    if a[0] == b[0] {
      assert a == [a[0]] + a[1..] && b == [b[0]] + b[1..];
    }
  }

  /** Writes to unrelated paths commute. */
  lemma {:induction false} AssignCommutes(members: Members, a: seq<string>, b: seq<string>, x: Value, y: Value)
    requires Unrelated(a, b)
    ensures a != [] && b != []
    ensures Assign(Assign(members, a, x), b, y) == Assign(Assign(members, b, y), a, x)
    decreases |a|
  {
    UnrelatedTails(a, b);
    if a[0] == b[0] {
      var below := Descend(members, a[0]);
      AssignCommutes(below, a[1..], b[1..], x, y);
      AssignTwice(members, a, b, x, y);
      AssignTwice(members, b, a, y, x);
    } else {
      AssignApart(members, a, b, x, y);
    }
  }

  lemma AssignTwice(members: Members, a: seq<string>, b: seq<string>, x: Value, y: Value)
    requires |a| >= 2 && |b| >= 2 && a[0] == b[0]
    ensures Assign(Assign(members, a, x), b, y)
         == members[a[0] := Obj(Assign(Assign(Descend(members, a[0]), a[1..], x), b[1..], y))]
  {
    var once := Assign(members, a, x);
    assert Descend(once, a[0]) == Assign(Descend(members, a[0]), a[1..], x);
    var inner := Obj(Assign(Descend(once, a[0]), b[1..], y));
    assert members[a[0] := once[a[0]]][a[0] := inner] == members[a[0] := inner];
  }

  /** The member a write stores under its first token. */
  function Stored(members: Members, a: seq<string>, x: Value): Value
    requires a != []
  {
    if |a| == 1 then x else Obj(Assign(Descend(members, a[0]), a[1..], x))
  }

  lemma AssignApart(members: Members, a: seq<string>, b: seq<string>, x: Value, y: Value)
    requires a != [] && b != [] && a[0] != b[0]
    ensures Assign(Assign(members, a, x), b, y) == Assign(Assign(members, b, y), a, x)
  {
    var p, q := Stored(members, a, x), Stored(members, b, y);
    assert Assign(members, a, x) == members[a[0] := p];
    assert Assign(members, b, y) == members[b[0] := q];
    assert Stored(members[a[0] := p], b, y) == q;
    assert Stored(members[b[0] := q], a, x) == p;
    assert members[a[0] := p][b[0] := q] == members[b[0] := q][a[0] := p];
  }

  lemma {:induction false} LookupInFresh(a: seq<string>, b: seq<string>, x: Value)
    requires Unrelated(a, b)
    ensures a != [] && Lookup(Obj(Assign(map[], a, x)), b) == None
    decreases |a|
  {
    UnrelatedTails(a, b);
    if a[0] == b[0] {
      LookupInFresh(a[1..], b[1..], x);
    }
  }

  /** Writing `a` replaces a value that is not an object but that reading `b` goes through. */
  predicate Shadows(members: Members, a: seq<string>, b: seq<string>)
    decreases |a|
  {
    a != [] && b != [] && a[0] == b[0] && a[0] in members &&
    if members[a[0]].Obj? then Shadows(members[a[0]].members, a[1..], b[1..]) else Lookup(members[a[0]], b[1..]).Some?
  }

  /** A write to an unrelated path changes what another path reads exactly when it replaces a list that
      the other path reads through. */
  lemma {:induction false} LookupFrame(members: Members, a: seq<string>, b: seq<string>, x: Value)
    requires Unrelated(a, b)
    ensures a != [] && (Lookup(Obj(Assign(members, a, x)), b) == Lookup(Obj(members), b) <==> !Shadows(members, a, b))
    ensures Shadows(members, a, b) ==> Lookup(Obj(Assign(members, a, x)), b) == None
    decreases |a|
  {
    UnrelatedTails(a, b);
    if a[0] == b[0] {
      if a[0] in members && members[a[0]].Obj? {
        LookupFrame(members[a[0]].members, a[1..], b[1..], x);
      } else {
        LookupInFresh(a[1..], b[1..], x);
      }
    }
  }

  /** Once written, a path runs through objects only, so unrelated writes never shadow it. */
  predicate Spine(members: Members, b: seq<string>)
    decreases |b|
  {
    |b| >= 2 ==> b[0] in members && members[b[0]].Obj? && Spine(members[b[0]].members, b[1..])
  }

  lemma {:induction false} AssignMakesSpine(members: Members, b: seq<string>, y: Value)
    requires b != []
    ensures Spine(Assign(members, b, y), b)
    decreases |b|
  {
    if |b| >= 2 {
      AssignMakesSpine(Descend(members, b[0]), b[1..], y);
    }
  }

  lemma {:induction false} SpineKept(members: Members, a: seq<string>, b: seq<string>, x: Value)
    requires Unrelated(a, b) && Spine(members, b)
    ensures a != [] && Spine(Assign(members, a, x), b) && !Shadows(members, a, b)
    decreases |a|
  {
    UnrelatedTails(a, b);
    if a[0] == b[0] {
      SpineKept(Descend(members, a[0]), a[1..], b[1..], x);
    }
  }
}
