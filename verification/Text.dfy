/** The string operations the repository relies on: split, join, two-character replacement,
    integer parsing and printing, and code-point order. */
module Text {
  import opened Wrappers

  /* ---------- split and join on one character ---------- */

  /** The split of a string with one more leading character. */
  function Push(c: char, parts: seq<string>, sep: char): (r: seq<string>)
    requires |parts| >= 1
    ensures |r| >= 1
  {
    if c == sep then [""] + parts else [[c] + parts[0]] + parts[1..]
  }

  /** `s.split(sep)` for a one-character separator. */
  function Split(s: string, sep: char): (parts: seq<string>)
    ensures |parts| >= 1
  {
    if s == [] then [""] else Push(s[0], Split(s[1..], sep), sep)
  }

  function Join(parts: seq<string>, sep: char): string
    requires |parts| >= 1
  {
    if |parts| == 1 then parts[0] else parts[0] + [sep] + Join(parts[1..], sep)
  }

  /** Splitting never leaves a separator inside a part, and joining the parts gives the string back. */
  lemma {:induction false} SplitThenJoin(s: string, sep: char)
    ensures Join(Split(s, sep), sep) == s
    ensures forall i :: 0 <= i < |Split(s, sep)| ==> sep !in Split(s, sep)[i]
  {
    if s != [] {
      SplitThenJoin(s[1..], sep);
      JoinPush(s[0], Split(s[1..], sep), sep);
      assert [s[0]] + s[1..] == s;
    }
  }

  lemma JoinPush(c: char, parts: seq<string>, sep: char)
    requires |parts| >= 1
    ensures Join(Push(c, parts, sep), sep) == [c] + Join(parts, sep)
  {
    var pushed := Push(c, parts, sep);
    if c == sep {
      assert pushed[0] == [] && pushed[1..] == parts;
    } else {
      assert pushed[0] == [c] + parts[0] && pushed[1..] == parts[1..];
    }
  }

  lemma {:induction false} SplitWithoutSeparator(s: string, sep: char)
    requires sep !in s
    ensures Split(s, sep) == [s]
  {
    if s != [] {
      SplitWithoutSeparator(s[1..], sep);
      assert [s[0]] + s[1..] == s;
    }
  }

  lemma PushConcat(c: char, x: seq<string>, y: seq<string>, sep: char)
    requires |x| >= 1
    ensures Push(c, x + y, sep) == Push(c, x, sep) + y
  {
    assert (x + y)[1..] == x[1..] + y;
  }

  lemma SplitCons(c: char, rest: string, sep: char)
    ensures Split([c] + rest, sep) == Push(c, Split(rest, sep), sep)
  {
    assert ([c] + rest)[1..] == rest;
  }

  /** Splitting distributes over an explicit separator. */
  lemma {:induction false} SplitConcat(a: string, b: string, sep: char)
    ensures Split(a + [sep] + b, sep) == Split(a, sep) + Split(b, sep)
  {
    if a == [] {
      assert [] + [sep] + b == [sep] + b;
      SplitCons(sep, b, sep);
    } else {
      var tail := a[1..] + [sep] + b;
      SplitConcat(a[1..], b, sep);
      assert a + [sep] + b == [a[0]] + tail;
      SplitCons(a[0], tail, sep);
      PushConcat(a[0], Split(a[1..], sep), Split(b, sep), sep);
    }
  }

  /* ---------- two-character replacement ---------- */

  /** `s.replace(a + b, [c])`: leftmost, non-overlapping occurrences. */
  function ReplacePair(s: string, a: char, b: char, c: char): string
  {
    if |s| < 2 then s
    else if s[0] == a && s[1] == b then [c] + ReplacePair(s[2..], a, b, c)
    else [s[0]] + ReplacePair(s[1..], a, b, c)
  }

  /** `s.replace([a], to)`. */
  function ReplaceChar(s: string, a: char, to: string): string
  {
    if s == [] then []
    else (if s[0] == a then to else [s[0]]) + ReplaceChar(s[1..], a, to)
  }

  /* ---------- decimal numbers ---------- */

  predicate IsDigit(c: char) { '0' <= c <= '9' }

  function DigitChar(d: nat): (c: char)
    requires d < 10
    ensures IsDigit(c) && c as int - '0' as int == d
  {
    ('0' as int + d) as char
  }

  /** `str(n)` for a natural number. */
  function Decimal(n: nat): (s: string)
    ensures |s| > 0
    ensures forall i :: 0 <= i < |s| ==> IsDigit(s[i])
  {
    if n < 10 then [DigitChar(n)] else Decimal(n / 10) + [DigitChar(n % 10)]
  }

  predicate IsSpace(c: char) { c in {' ', '\t', '\n', '\r'} }

  function LeftStrip(s: string): string
  {
    if s != [] && IsSpace(s[0]) then LeftStrip(s[1..]) else s
  }

  function RightStrip(s: string): string
  {
    if s != [] && IsSpace(s[|s| - 1]) then RightStrip(s[..|s| - 1]) else s
  }

  /** Digits with single underscores between them, as Python's integer literals allow. */
  predicate DigitGroups(s: string)
  {
    && s != [] && IsDigit(s[0]) && IsDigit(s[|s| - 1])
    && (forall i :: 0 <= i < |s| ==> IsDigit(s[i]) || s[i] == '_')
    && (forall i :: 0 <= i < |s| - 1 ==> !(s[i] == '_' && s[i + 1] == '_'))
  }

  function DigitValue(s: string): nat
    requires forall i :: 0 <= i < |s| ==> IsDigit(s[i]) || s[i] == '_'
  {
    if s == [] then 0
    else
      var last := s[|s| - 1];
      var before := DigitValue(s[..|s| - 1]);
      if IsDigit(last) then before * 10 + (last as int - '0' as int) else before
  }

  /** `int(s)`; None where Python raises ValueError. */
  function ParseInt(s: string): Option<int>
  {
    var t := RightStrip(LeftStrip(s));
    if t == [] then None
    else if t[0] == '-' then (if DigitGroups(t[1..]) then Some(0 - (DigitValue(t[1..]) as int)) else None)
    else
      var digits := if t[0] == '+' then t[1..] else t;
      if DigitGroups(digits) then Some(DigitValue(digits)) else None
  }

  lemma {:induction false} DigitValueOfDecimal(n: nat)
    ensures DigitValue(Decimal(n)) == n
  {
    if n < 10 {
      assert DigitValue([]) == 0;
      assert Decimal(n)[..0] == [];
    } else {
      DigitValueOfDecimal(n / 10);
      assert Decimal(n)[..|Decimal(n)| - 1] == Decimal(n / 10);
    }
  }

  /** Parsing a printed list length gives the length back. */
  lemma ParseIntOfDecimal(n: nat)
    ensures ParseInt(Decimal(n)) == Some(n)
  {
    var s := Decimal(n);
    assert LeftStrip(s) == s && RightStrip(s) == s;
    DigitValueOfDecimal(n);
  }

  lemma ParseNegative(n: nat)
    ensures ParseInt("-" + Decimal(n)) == Some(-(n as int))
  {
    var digits := Decimal(n);
    var s := "-" + digits;
    assert s[0] == '-' && s[|s| - 1] == digits[|digits| - 1] && s[1..] == digits;
    assert LeftStrip(s) == s && RightStrip(s) == s;
    DigitValueOfDecimal(n);
  }

  /* ---------- code-point order on strings ---------- */

  predicate Less(a: string, b: string)
  {
    if b == [] then false
    else if a == [] then true
    else if a[0] != b[0] then a[0] < b[0]
    else Less(a[1..], b[1..])
  }

  lemma {:induction false} LessTotal(a: string, b: string)
    ensures !(Less(a, b) && Less(b, a))
    ensures a == b <==> !Less(a, b) && !Less(b, a)
  {
    if a != [] && b != [] && a[0] == b[0] {
      LessTotal(a[1..], b[1..]);
      assert a == [a[0]] + a[1..] && b == [b[0]] + b[1..];
    }
  }

  lemma {:induction false} LessTransitive(a: string, b: string, c: string)
    requires Less(a, b) && Less(b, c)
    ensures Less(a, c)
  {
    if a != [] && a[0] == b[0] && b[0] == c[0] {
      LessTransitive(a[1..], b[1..], c[1..]);
    }
  }

  /** The strings agree up to position i, where the first one ends or has the smaller character. */
  predicate LessAt(a: string, b: string, i: nat)
  {
    i <= |a| && i < |b| && a[..i] == b[..i] && (i == |a| || a[i] < b[i])
  }

  lemma SameStart(a: string, b: string, i: nat)
    requires LessAt(a, b, i) && i > 0
    ensures a != [] && b != [] && a[0] == b[0]
  {
    assert a[..i][0] == b[..i][0];
  }

  /** What sorted() compares strings by: the first character that differs, a prefix coming first. */
  lemma {:induction false} LessMeans(a: string, b: string)
    ensures Less(a, b) <==> exists i: nat :: LessAt(a, b, i)
  {
    if a == [] {
      assert b != [] ==> LessAt(a, b, 0);
    } else if b != [] && a[0] == b[0] {
      LessMeans(a[1..], b[1..]);
      assert a == [a[0]] + a[1..] && b == [b[0]] + b[1..];
      if i: nat :| LessAt(a[1..], b[1..], i) {
        assert LessAt(a, b, i + 1);
      }
      if i: nat :| LessAt(a, b, i) {
        assert i > 0;
        assert a[..i][1..] == a[1..][..i - 1] && b[..i][1..] == b[1..][..i - 1];
        assert LessAt(a[1..], b[1..], i - 1);
      }
    } else if b != [] {
      if a[0] < b[0] {
        assert LessAt(a, b, 0);
      }
      if i: nat :| LessAt(a, b, i) {
        if i > 0 { SameStart(a, b, i); }
      }
    }
  }
}
