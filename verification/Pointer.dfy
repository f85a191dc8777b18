/** JSON Pointer text: RFC 6901, sections 3 and 4, as `repair.py` reads and writes it. */
module Pointer {
  import opened Text

  /** `RepairGenerator._escape`. */
  function Escape(key: string): string
  {
    ReplaceChar(ReplaceChar(key, '~', "~0"), '/', "~1")
  }

  /** `ArtifactPatchApplier._unescape`: "~1" first, then "~0". */
  function Unescape(raw: string): string
  {
    ReplacePair(ReplacePair(raw, '~', '1', '/'), '~', '0', '~')
  }

  /** What the `ArtifactPatch` validator admits. */
  predicate IsPointer(path: string)
  {
    path == "" || path[0] == '/'
  }

  /** The raw reference tokens: `path.split("/")[1:] if path else []`. */
  function RawTokens(path: string): seq<string>
  {
    if path == "" then [] else Split(path, '/')[1..]
  }

  function UnescapeAll(raws: seq<string>): (tokens: seq<string>)
    ensures |tokens| == |raws|
  {
    seq(|raws|, i requires 0 <= i < |raws| => Unescape(raws[i]))
  }

  /** The unescaped reference tokens that both the applier and the generator walk. */
  function Tokens(path: string): seq<string>
  {
    UnescapeAll(RawTokens(path))
  }

  /** A pointer written from keys, the way the generator builds `/permissions/<escaped id>`. */
  function Render(keys: seq<string>): (path: string)
    ensures IsPointer(path)
  {
    if keys == [] then "" else Render(keys[..|keys| - 1]) + "/" + Escape(keys[|keys| - 1])
  }

  /** Every '~' is followed by '0' or '1': what RFC 6901 section 3 allows in a reference token. */
  predicate WellEscaped(raw: string)
  {
    '/' !in raw && forall i :: 0 <= i < |raw| && raw[i] == '~' ==> i + 1 < |raw| && raw[i + 1] in {'0', '1'}
  }

  /* ---------- escape and unescape ---------- */

  /** One-pass forms that the two chained replacements are shown to compute. */
  function Escape1(s: string): string
  {
    if s == [] then []
    else (if s[0] == '~' then "~0" else if s[0] == '/' then "~1" else [s[0]]) + Escape1(s[1..])
  }

  function Unescape1(s: string): string
  {
    if |s| < 2 then s
    else if s[0] == '~' && s[1] == '1' then "/" + Unescape1(s[2..])
    else if s[0] == '~' && s[1] == '0' then "~" + Unescape1(s[2..])
    else [s[0]] + Unescape1(s[1..])
  }

  lemma {:induction false} ReplaceCharConcat(x: string, y: string, a: char, to: string)
    ensures ReplaceChar(x + y, a, to) == ReplaceChar(x, a, to) + ReplaceChar(y, a, to)
  {
    if x == [] {
      assert x + y == y;
    } else {
      ReplaceCharConcat(x[1..], y, a, to);
      assert (x + y)[1..] == x[1..] + y;
    }
  }

  lemma {:induction false} EscapeIsOnePass(s: string)
    ensures Escape(s) == Escape1(s)
  {
    if s != [] {
      EscapeIsOnePass(s[1..]);
      var head := if s[0] == '~' then "~0" else [s[0]];
      ReplaceCharConcat(head, ReplaceChar(s[1..], '~', "~0"), '/', "~1");
      assert ReplaceChar("~0", '/', "~1") == "~0" by {
        assert "~0"[1..] == "0" && "0"[1..] == "";
        assert ReplaceChar("0", '/', "~1") == "0";
      }
      assert [s[0]][1..] == "";
    }
  }

  lemma {:induction false} UnescapeIsOnePass(s: string)
    ensures Unescape(s) == Unescape1(s)
  {
    var inner := ReplacePair(s, '~', '1', '/');
    if |s| < 2 {
    } else if s[0] == '~' && s[1] == '1' {
      UnescapeIsOnePass(s[2..]);
      PairCons('/', ReplacePair(s[2..], '~', '1', '/'));
    } else {
      var rest := ReplacePair(s[1..], '~', '1', '/');
      UnescapeIsOnePass(s[1..]);
      assert inner == [s[0]] + rest;
      FirstOfReplace(s[1..]);
      if s[0] == '~' && s[1] == '0' {
        UnescapeIsOnePass(s[2..]);
        ZeroAfterTilde(s);
      } else {
        PairCons(s[0], rest);
      }
    }
  }

  /** The first replacement keeps a leading character unless it starts "~1". */
  lemma FirstOfReplace(s: string)
    requires |s| >= 1
    ensures |ReplacePair(s, '~', '1', '/')| >= 1
    ensures ReplacePair(s, '~', '1', '/')[0] == if |s| >= 2 && s[0] == '~' && s[1] == '1' then '/' else s[0]
  {
  }

  lemma PairCons(c: char, rest: string)
    requires c == '~' ==> rest == "" || rest[0] != '0'
    ensures ReplacePair([c] + rest, '~', '0', '~') == [c] + ReplacePair(rest, '~', '0', '~')
  {
    assert ([c] + rest)[1..] == rest;
  }

  lemma ZeroAfterTilde(s: string)
    requires |s| >= 2 && s[0] == '~' && s[1] == '0'
    ensures Unescape(s) == "~" + Unescape(s[2..])
  {
    var tail := ReplacePair(s[2..], '~', '1', '/');
    ReplaceZero(s[1..]);
    assert s[1..][1..] == s[2..];
    assert ReplacePair(s, '~', '1', '/') == "~" + ("0" + tail);
    assert ("~" + ("0" + tail))[2..] == tail;
  }

  lemma ReplaceZero(s: string)
    requires |s| >= 1 && s[0] == '0'
    ensures ReplacePair(s, '~', '1', '/') == "0" + ReplacePair(s[1..], '~', '1', '/')
  {
    if |s| == 1 {
      assert s == "0" && s[1..] == "";
    }
  }

  lemma {:induction false} Unescape1OfEscape1(s: string)
    ensures Unescape1(Escape1(s)) == s
  {
    if s != [] {
      Unescape1OfEscape1(s[1..]);
      var rest := Escape1(s[1..]);
      if s[0] == '~' {
        assert Escape1(s)[2..] == rest;
      } else if s[0] == '/' {
        assert Escape1(s)[2..] == rest;
      } else {
        assert Escape1(s) == [s[0]] + rest;
        assert Escape1(s)[1..] == rest;
        if |rest| == 0 { EmptyEscape(s[1..]); }
      }
    }
  }

  lemma EmptyEscape(s: string)
    requires Escape1(s) == ""
    ensures s == ""
  {
  }

  lemma {:induction false} Escape1HasNoSlash(s: string)
    ensures '/' !in Escape1(s)
  {
    if s != [] {
      Escape1HasNoSlash(s[1..]);
    }
  }

  /** Unescaping an escaped key gives the key back, for every string. */
  lemma UnescapeEscape(key: string)
    ensures Unescape(Escape(key)) == key
    ensures '/' !in Escape(key)
  {
    EscapeIsOnePass(key);
    UnescapeIsOnePass(Escape(key));
    Unescape1OfEscape1(key);
    Escape1HasNoSlash(key);
  }

  lemma {:induction false} Escape1OfUnescape1(raw: string)
    requires WellEscaped(raw)
    ensures Escape1(Unescape1(raw)) == raw
  {
    if |raw| >= 2 {
      if raw[0] == '~' {
        var rest := raw[2..];
        assert WellEscaped(rest) by {
          assert forall i :: 0 <= i < |rest| ==> rest[i] == raw[i + 2];
        }
        Escape1OfUnescape1(rest);
        assert Unescape1(raw)[1..] == Unescape1(rest);
        assert raw == [raw[0], raw[1]] + rest;
      } else {
        var rest := raw[1..];
        assert WellEscaped(rest) by {
          assert forall i :: 0 <= i < |rest| ==> rest[i] == raw[i + 1];
        }
        Escape1OfUnescape1(rest);
        assert Unescape1(raw)[1..] == Unescape1(rest);
        assert raw == [raw[0]] + rest;
      }
    } else if |raw| == 1 {
      assert raw[1..] == "";
    }
  }

  lemma {:induction false} Escape1IsWellEscaped(s: string)
    ensures WellEscaped(Escape1(s))
  {
    if s != [] {
      Escape1IsWellEscaped(s[1..]);
      Escape1HasNoSlash(s);
      var head := if s[0] == '~' then "~0" else if s[0] == '/' then "~1" else [s[0]];
      var rest := Escape1(s[1..]);
      var e := head + rest;
      forall i | 0 <= i < |e| && e[i] == '~'
        ensures i + 1 < |e| && e[i + 1] in {'0', '1'}
      {
        if i >= |head| {
          assert rest[i - |head|] == '~';
          assert e[i + 1] == rest[i + 1 - |head|];
        }
      }
    }
  }

  /** The other direction holds exactly on the tokens that RFC 6901 allows. */
  lemma EscapeUnescape(raw: string)
    ensures Escape(Unescape(raw)) == raw <==> WellEscaped(raw)
  {
    UnescapeIsOnePass(raw);
    EscapeIsOnePass(Unescape(raw));
    Escape1IsWellEscaped(Unescape1(raw));
    if WellEscaped(raw) {
      Escape1OfUnescape1(raw);
    }
  }

  /* ---------- tokens of a path ---------- */

  lemma UnescapeAllConcat(x: seq<string>, y: seq<string>)
    ensures UnescapeAll(x + y) == UnescapeAll(x) + UnescapeAll(y)
  {
  }

  /** Extending a pointer by "/" and a raw token without a slash adds exactly one token. */
  lemma TokensAppend(path: string, raw: string)
    requires '/' !in raw
    ensures Tokens(path + "/" + raw) == Tokens(path) + [Unescape(raw)]
  {
    SplitConcat(path, raw, '/');
    SplitWithoutSeparator(raw, '/');
    assert path + ['/'] + raw == path + "/" + raw;
    assert RawTokens(path + "/" + raw) == RawTokens(path) + [raw] by {
      if path == "" {
        assert (Split("", '/') + [raw])[1..] == [raw];
      } else {
        assert (Split(path, '/') + [raw])[1..] == Split(path, '/')[1..] + [raw];
      }
    }
    UnescapeAllConcat(RawTokens(path), [raw]);
    assert UnescapeAll([raw]) == [Unescape(raw)];
  }

  /** A pointer rendered from keys is read back as those keys: escaped keys stay one segment. */
  lemma {:induction false} TokensOfRender(keys: seq<string>)
    ensures Tokens(Render(keys)) == keys
  {
    if keys != [] {
      var init, last := keys[..|keys| - 1], keys[|keys| - 1];
      TokensOfRender(init);
      UnescapeEscape(last);
      TokensAppend(Render(init), Escape(last));
      assert init + [last] == keys;
    }
  }

  /** The first token of a pointer that starts with "/root/" is that root. */
  lemma TokensUnderRoot(root: string, rest: string)
    requires '/' !in root && '~' !in root
    ensures var tokens := Tokens("/" + root + "/" + rest);
      |tokens| >= 2 && tokens[0] == root
  {
    var path := "/" + root + "/" + rest;
    SplitConcat("/" + root, rest, '/');
    SplitConcat("", root, '/');
    SplitWithoutSeparator(root, '/');
    assert ("/" + root) + ['/'] + rest == path;
    assert "" + ['/'] + root == "/" + root;
    assert Split("/" + root, '/') == ["", root];
    assert Split(path, '/') == ["", root] + Split(rest, '/');
    assert RawTokens(path)[0] == root;
    NoTilde(root);
  }

  lemma {:induction false} NoTilde(raw: string)
    requires '~' !in raw
    ensures Unescape(raw) == raw
  {
    UnescapeIsOnePass(raw);
    PlainUnescape(raw);
  }

  lemma {:induction false} PlainUnescape(raw: string)
    requires '~' !in raw
    ensures Unescape1(raw) == raw
  {
    if |raw| >= 2 {
      PlainUnescape(raw[1..]);
      assert raw == [raw[0]] + raw[1..];
    }
  }
}
