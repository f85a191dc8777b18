/** `sorted` on finite sets of strings, in code-point order. */
module Sorting {
  import opened Text

  predicate IsLeast(s: set<string>, m: string)
  {
    m in s && forall x :: x in s && x != m ==> Less(m, x)
  }

  lemma LeastExtends(s: set<string>, rest: set<string>, pick: string, m: string) returns (least: string)
    requires pick in s && rest == s - {pick} && IsLeast(rest, m)
    ensures IsLeast(s, least)
  {
    LessTotal(m, pick);
    if Less(pick, m) {
      forall x | x in s && x != pick ensures Less(pick, x) {
        if x != m { LessTransitive(pick, m, x); }
      }
      least := pick;
    } else {
      least := m;
    }
  }

  lemma {:induction false} LeastExists(s: set<string>) returns (m: string)
    requires s != {}
    ensures IsLeast(s, m)
    decreases |s|
  {
    var pick :| pick in s;
    var rest := s - {pick};
    if rest == {} {
      m := pick;
      assert forall x :: x in s && x != pick ==> x in rest;
    } else {
      var least := LeastExists(rest);
      m := LeastExtends(s, rest, pick, least);
    }
  }

  lemma LeastUnique(s: set<string>)
    requires s != {}
    ensures exists m :: IsLeast(s, m)
    ensures forall a, b :: IsLeast(s, a) && IsLeast(s, b) ==> a == b
  {
    var m := LeastExists(s);
    forall a, b | IsLeast(s, a) && IsLeast(s, b) ensures a == b {
      LessTotal(a, b);
    }
  }

  function Least(s: set<string>): (m: string)
    requires s != {}
    ensures IsLeast(s, m)
  {
    LeastUnique(s);
    var m :| m in s && IsLeast(s, m);
    m
  }

  /** `sorted(s)`. */
  function Sorted(s: set<string>): (r: seq<string>)
    ensures forall x :: x in r <==> x in s
    ensures forall i, j :: 0 <= i < j < |r| ==> Less(r[i], r[j])
    ensures |r| == |s|
    decreases |s|
  {
    if s == {} then []
    else
      var m := Least(s);
      [m] + Sorted(s - {m})
  }

  lemma SortedDistinct(s: set<string>)
    ensures forall i, j :: 0 <= i < j < |Sorted(s)| ==> Sorted(s)[i] != Sorted(s)[j]
  {
    forall i, j | 0 <= i < j < |Sorted(s)| ensures Sorted(s)[i] != Sorted(s)[j] {
      LessTotal(Sorted(s)[i], Sorted(s)[j]);
    }
  }

  /* ---------- sorting a list ---------- */

  predicate Ascending(s: seq<string>)
  {
    forall i, j :: 0 <= i < j < |s| ==> Less(s[i], s[j])
  }

  function Insert(sorted: seq<string>, x: string): seq<string>
  {
    if sorted == [] then [x]
    else if Less(x, sorted[0]) then [x] + sorted
    else [sorted[0]] + Insert(sorted[1..], x)
  }

  /** `sorted` on a list. */
  function SortList(s: seq<string>): seq<string>
  {
    if s == [] then [] else Insert(SortList(s[..|s| - 1]), s[|s| - 1])
  }

  lemma {:induction false} InsertElements(sorted: seq<string>, x: string)
    ensures forall y :: y in Insert(sorted, x) <==> y in sorted || y == x
  {
    if sorted != [] && !Less(x, sorted[0]) {
      InsertElements(sorted[1..], x);
      assert sorted == [sorted[0]] + sorted[1..];
    }
  }

  lemma {:induction false} InsertAscends(sorted: seq<string>, x: string)
    requires Ascending(sorted) && x !in sorted
    ensures Ascending(Insert(sorted, x))
  {
    if sorted != [] {
      if Less(x, sorted[0]) {
        forall j | 0 <= j < |sorted| ensures Less(x, sorted[j]) {
          if j > 0 { LessTransitive(x, sorted[0], sorted[j]); }
        }
      } else {
        LessTotal(x, sorted[0]);
        InsertAscends(sorted[1..], x);
        InsertElements(sorted[1..], x);
        forall y | y in Insert(sorted[1..], x) ensures Less(sorted[0], y) {
          if y != x {
            var j :| 0 <= j < |sorted[1..]| && sorted[1..][j] == y;
          }
        }
      }
    }
  }

  /** Sorting a list without repetitions gives its elements in ascending order. */
  lemma {:induction false} SortListAscends(s: seq<string>)
    requires forall i, j :: 0 <= i < j < |s| ==> s[i] != s[j]
    ensures Ascending(SortList(s)) && forall x :: x in SortList(s) <==> x in s
  {
    if s != [] {
      var front, last := s[..|s| - 1], s[|s| - 1];
      SortListAscends(front);
      InsertElements(SortList(front), last);
      InsertAscends(SortList(front), last);
      assert s == front + [last];
    }
  }

  lemma FirstIn(s: seq<string>)
    ensures s == [] || s[0] in s
  {
  }

  /** An ascending list is determined by its elements. */
  lemma {:induction false} AscendingUnique(a: seq<string>, b: seq<string>)
    requires Ascending(a) && Ascending(b) && forall x :: x in a <==> x in b
    ensures a == b
    decreases |a|
  {
    if a == [] {
      FirstIn(b);
    } else {
      assert a[0] in b;
      assert b[0] in a;
      SameFirst(a, b);
      forall x ensures x in a[1..] <==> x in b[1..] {
        TailElements(a, x);
        TailElements(b, x);
      }
      AscendingUnique(a[1..], b[1..]);
      assert a == [a[0]] + a[1..] && b == [b[0]] + b[1..];
    }
  }

  lemma SameFirst(a: seq<string>, b: seq<string>)
    requires Ascending(a) && Ascending(b) && a != [] && b != [] && a[0] in b && b[0] in a
    ensures a[0] == b[0]
  {
    LessTotal(a[0], b[0]);
  }

  lemma TailElements(a: seq<string>, x: string)
    requires Ascending(a) && a != []
    ensures x in a[1..] <==> x in a && x != a[0]
  {
    LessTotal(x, x);
    if x in a[1..] {
      var j :| 0 <= j < |a[1..]| && a[1..][j] == x;
      assert Less(a[0], a[j + 1]);
    }
  }

  /** So the order in which the elements are listed does not matter. */
  lemma SortListIsSorted(s: seq<string>, elements: set<string>)
    requires forall i, j :: 0 <= i < j < |s| ==> s[i] != s[j]
    requires forall x :: x in s <==> x in elements
    ensures SortList(s) == Sorted(elements)
  {
    SortListAscends(s);
    AscendingUnique(SortList(s), Sorted(elements));
  }
}
