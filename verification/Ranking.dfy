/** Python's stable descending sort by (activation, priority), as both routers use it, and what its first two
    entries mean.
    Source: src/difoundry/routing.py:46-48; src/difoundry/tissue.py:435-436, 443-445. */
module Ranking {
  /** A candidate with its position in the route's branch list. */
  datatype Row = Row(activation: real, priority: int, at: nat)

  predicate AtLeast(a: Row, b: Row) {
    a.activation > b.activation || (a.activation == b.activation && a.priority >= b.priority)
  }

  predicate Tied(a: Row, b: Row) {
    a.activation == b.activation && a.priority == b.priority
  }

  /** The total order of the result: higher key first, then the earlier position. */
  predicate Ahead(a: Row, b: Row) {
    AtLeast(a, b) && (Tied(a, b) ==> a.at < b.at)
  }

  lemma AheadAsymmetric(a: Row, b: Row)
    ensures !(Ahead(a, b) && Ahead(b, a))
  {
  }

  function Insert(ranked: seq<Row>, row: Row): seq<Row>
  {
    if ranked == [] then [row]
    else if AtLeast(ranked[0], row) then [ranked[0]] + Insert(ranked[1..], row)
    else [row] + ranked
  }

  function Rank(rows: seq<Row>): seq<Row>
  {
    if rows == [] then [] else Insert(Rank(rows[..|rows| - 1]), rows[|rows| - 1])
  }

  /** Rows are numbered by position. */
  ghost predicate Numbered(rows: seq<Row>) {
    forall i :: 0 <= i < |rows| ==> rows[i].at == i
  }

  ghost predicate Ordered(ranked: seq<Row>) {
    forall i, j :: 0 <= i < j < |ranked| ==> Ahead(ranked[i], ranked[j])
  }

  lemma {:induction false} InsertPermutes(ranked: seq<Row>, row: Row)
    ensures multiset(Insert(ranked, row)) == multiset(ranked) + multiset{row}
  {
    if ranked != [] && AtLeast(ranked[0], row) {
      InsertPermutes(ranked[1..], row);
      assert ranked == [ranked[0]] + ranked[1..];
    }
  }

  lemma {:induction false} InsertKeepsOrder(ranked: seq<Row>, row: Row)
    requires Ordered(ranked)
    requires forall r :: r in ranked ==> r.at < row.at
    ensures Ordered(Insert(ranked, row))
  {
    if ranked != [] && AtLeast(ranked[0], row) {
      InsertKeepsOrder(ranked[1..], row);
      InsertPermutes(ranked[1..], row);
      var rest := Insert(ranked[1..], row);
      forall j | 0 <= j < |rest| ensures Ahead(ranked[0], rest[j]) {
        assert rest[j] in multiset(rest);
        assert ranked[0] in ranked;
      }
    }
  }

  lemma {:induction false} RankPermutes(rows: seq<Row>)
    ensures multiset(Rank(rows)) == multiset(rows)
  {
    if rows != [] {
      RankPermutes(rows[..|rows| - 1]);
      InsertPermutes(Rank(rows[..|rows| - 1]), rows[|rows| - 1]);
      assert rows == rows[..|rows| - 1] + [rows[|rows| - 1]];
    }
  }

  /** The result is a permutation, descending by key, and stable. */
  lemma {:induction false} RankOrders(rows: seq<Row>)
    requires Numbered(rows)
    ensures multiset(Rank(rows)) == multiset(rows)
    ensures Ordered(Rank(rows))
  {
    RankPermutes(rows);
    if rows != [] {
      var front, last := rows[..|rows| - 1], rows[|rows| - 1];
      RankOrders(front);
      forall r | r in Rank(front) ensures r.at < last.at {
        assert r in multiset(front);
      }
      InsertKeepsOrder(Rank(front), last);
    }
  }

  lemma RankSize(rows: seq<Row>)
    ensures |Rank(rows)| == |rows|
  {
    RankPermutes(rows);
    assert |multiset(Rank(rows))| == |multiset(rows)|;
  }

  lemma InRank(rows: seq<Row>, k: nat)
    requires k < |rows|
    ensures rows[k] in Rank(rows)
  {
    RankPermutes(rows);
    assert rows[k] in multiset(Rank(rows));
  }

  lemma FromRank(rows: seq<Row>, p: nat)
    requires p < |Rank(rows)| && Numbered(rows)
    ensures Rank(rows)[p].at < |rows| && rows[Rank(rows)[p].at] == Rank(rows)[p]
  {
    RankPermutes(rows);
    assert Rank(rows)[p] in multiset(rows);
  }

  /** The first entry is the row ahead of every other one. */
  lemma First(rows: seq<Row>)
    requires rows != [] && Numbered(rows)
    ensures Rank(rows) != []
    ensures var best := Rank(rows)[0]; best.at < |rows| && rows[best.at] == best
    ensures forall j :: 0 <= j < |rows| && j != Rank(rows)[0].at ==> Ahead(Rank(rows)[0], rows[j])
  {
    RankSize(rows);
    RankOrders(rows);
    FromRank(rows, 0);
    forall j | 0 <= j < |rows| && j != Rank(rows)[0].at ensures Ahead(Rank(rows)[0], rows[j]) {
      InRank(rows, j);
      var p :| 0 <= p < |Rank(rows)| && Rank(rows)[p] == rows[j];
    }
  }

  /** A row ahead of every other one is the first entry. */
  lemma FirstIs(rows: seq<Row>, k: nat)
    requires Numbered(rows) && k < |rows|
    requires forall j :: 0 <= j < |rows| && j != k ==> Ahead(rows[k], rows[j])
    ensures Rank(rows) != [] && Rank(rows)[0] == rows[k]
  {
    First(rows);
    var top := Rank(rows)[0].at;
    AheadAsymmetric(rows[k], rows[top]);
  }

  /** The second entry is ahead of all but the first. */
  lemma Second(rows: seq<Row>)
    requires |rows| > 1 && Numbered(rows)
    ensures |Rank(rows)| > 1
    ensures var best, next := Rank(rows)[0], Rank(rows)[1];
            next.at < |rows| && rows[next.at] == next && next.at != best.at && Ahead(best, next)
    ensures forall j :: 0 <= j < |rows| && j != Rank(rows)[0].at && j != Rank(rows)[1].at ==> Ahead(Rank(rows)[1], rows[j])
  {
    RankSize(rows);
    RankOrders(rows);
    FromRank(rows, 0);
    FromRank(rows, 1);
    assert Ahead(Rank(rows)[0], Rank(rows)[1]);
    forall j | 0 <= j < |rows| && j != Rank(rows)[0].at && j != Rank(rows)[1].at ensures Ahead(Rank(rows)[1], rows[j]) {
      InRank(rows, j);
      var p :| 0 <= p < |Rank(rows)| && Rank(rows)[p] == rows[j];
    }
  }

  /** Some other row shares the key of row k. */
  ghost predicate Contested(rows: seq<Row>, k: nat)
    requires k < |rows|
  {
    exists j :: 0 <= j < |rows| && j != k && Tied(rows[j], rows[k])
  }

  /** To see a tie at the top it is enough to look at the second entry. */
  lemma {:induction false} TieIsWithSecond(rows: seq<Row>)
    requires |rows| > 1 && Numbered(rows)
    ensures |Rank(rows)| > 1 && Rank(rows)[0].at < |rows|
    ensures Contested(rows, Rank(rows)[0].at) <==> Tied(Rank(rows)[0], Rank(rows)[1])
  {
    First(rows);
    Second(rows);
    var best, next := Rank(rows)[0], Rank(rows)[1];
    if Contested(rows, best.at) {
      var j :| 0 <= j < |rows| && j != best.at && Tied(rows[j], rows[best.at]);
      assert j != next.at ==> Ahead(next, rows[j]);
    } else {
      assert !Tied(rows[next.at], rows[best.at]);
    }
  }
}
