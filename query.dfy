/**
 * The query specifications the views send to the `transactions` table, and what
 * they mean over a sequence of rows: the rows satisfying every filter clause,
 * ordered by the order clauses (later clauses break ties of earlier ones; rows
 * that tie on every clause keep the order in which the table was scanned).
 */
module Query {
  import opened Records

  datatype Column = CreatedAt | Amount

  /** A filter clause: `.eq("type", kind)`, `.gte("created_at", t)`, `.lt("created_at", t)`. */
  datatype Clause = TypeIs(kind: string) | CreatedFrom(instant: int) | CreatedBefore(instant: int)

  /** An order clause: `.order(column, { ascending })`. */
  datatype Order = OrderBy(column: Column, ascending: bool)

  datatype Query = Query(clauses: seq<Clause>, orders: seq<Order>)

  predicate Holds(c: Clause, r: Row)
  {
    match c
    case TypeIs(k) => r.kind == k
    case CreatedFrom(t) => t <= r.createdAt
    case CreatedBefore(t) => r.createdAt < t
  }

  predicate Matches(clauses: seq<Clause>, r: Row)
  {
    forall i :: 0 <= i < |clauses| ==> Holds(clauses[i], r)
  }

  lemma MatchesOne(c: Clause, r: Row)
    ensures Matches([c], r) <==> Holds(c, r)
  {
    assert [c][0] == c;
  }

  lemma MatchesTwo(c: Clause, d: Clause, r: Row)
    ensures Matches([c, d], r) <==> Holds(c, r) && Holds(d, r)
  {
    assert [c, d][0] == c && [c, d][1] == d;
  }

  lemma MatchesConcat(a: seq<Clause>, b: seq<Clause>, r: Row)
    ensures Matches(a + b, r) <==> Matches(a, r) && Matches(b, r)
  {
    if Matches(a, r) && Matches(b, r) {
      forall i | 0 <= i < |a + b| ensures Holds((a + b)[i], r) {
        if i >= |a| { assert (a + b)[i] == b[i - |a|]; }
      }
    }
    if Matches(a + b, r) {
      forall i | 0 <= i < |a| ensures Holds(a[i], r) {
        assert (a + b)[i] == a[i];
      }
      forall i | 0 <= i < |b| ensures Holds(b[i], r) {
        assert (a + b)[|a| + i] == b[i];
      }
    }
  }

  predicate NoDup(s: seq<Row>)
  {
    forall i, j :: 0 <= i < j < |s| ==> s[i] != s[j]
  }

  lemma NoDupCons(x: Row, s: seq<Row>)
    ensures NoDup([x] + s) <==> x !in s && NoDup(s)
  {
    var t := [x] + s;
    if x !in s && NoDup(s) {
      forall i, j | 0 <= i < j < |t| ensures t[i] != t[j] {
        if i > 0 { assert t[i] == s[i - 1] && t[j] == s[j - 1]; }
        else { assert t[j] == s[j - 1]; }
      }
    }
    if NoDup(t) {
      forall i, j | 0 <= i < j < |s| ensures s[i] != s[j] {
        assert t[i + 1] == s[i] && t[j + 1] == s[j];
      }
      forall k | 0 <= k < |s| ensures s[k] != x {
        assert t[0] == x && t[k + 1] == s[k];
      }
    }
  }

  /** The rows of `s` that satisfy every clause, in the order of `s`. */
  function Filter(clauses: seq<Clause>, s: seq<Row>): (f: seq<Row>)
    ensures forall r :: r in f <==> r in s && Matches(clauses, r)
    ensures multiset(f) <= multiset(s)
    ensures NoDup(s) ==> NoDup(f)
    decreases |s|
  {
    if s == [] then []
    else
      var rest := Filter(clauses, s[1..]);
      assert s == [s[0]] + s[1..];
      NoDupCons(s[0], s[1..]);
      if Matches(clauses, s[0]) then NoDupCons(s[0], rest); [s[0]] + rest else rest
  }

  /** The sort key of a row under one order clause; descending order sorts the negated key. */
  function Key(o: Order, r: Row): int
  {
    var k := match o.column case CreatedAt => r.createdAt case Amount => r.amount;
    if o.ascending then k else -k
  }

  lemma {:induction false} NoDupCount(s: seq<Row>, x: Row)
    requires NoDup(s)
    ensures multiset(s)[x] == if x in s then 1 else 0
    decreases |s|
  {
    if s != [] {
      assert s == [s[0]] + s[1..];
      NoDupCons(s[0], s[1..]);
      NoDupCount(s[1..], x);
    }
  }

  /** Two duplicate-free listings of the same rows hold the same multiset of rows. */
  lemma SameRowsSameMultiset(a: seq<Row>, b: seq<Row>)
    requires NoDup(a) && NoDup(b)
    requires forall x :: x in a <==> x in b
    ensures multiset(a) == multiset(b)
  {
    forall x ensures multiset(a)[x] == multiset(b)[x] {
      NoDupCount(a, x);
      NoDupCount(b, x);
    }
  }

  /** `a` may come before `b` under the order clauses: lexicographic on the keys. */
  predicate RowLe(orders: seq<Order>, a: Row, b: Row)
    decreases |orders|
  {
    orders == []
    || Key(orders[0], a) < Key(orders[0], b)
    || (Key(orders[0], a) == Key(orders[0], b) && RowLe(orders[1..], a, b))
  }

  lemma {:induction false} RowLeTotal(orders: seq<Order>, a: Row, b: Row)
    ensures RowLe(orders, a, b) || RowLe(orders, b, a)
    decreases |orders|
  {
    if orders != [] && Key(orders[0], a) == Key(orders[0], b) {
      RowLeTotal(orders[1..], a, b);
    }
  }

  lemma {:induction false} RowLeTransitive(orders: seq<Order>, a: Row, b: Row, c: Row)
    requires RowLe(orders, a, b) && RowLe(orders, b, c)
    ensures RowLe(orders, a, c)
    decreases |orders|
  {
    if orders != [] && Key(orders[0], a) == Key(orders[0], b) == Key(orders[0], c) {
      RowLeTransitive(orders[1..], a, b, c);
    }
  }

  lemma RowLeSingle(o: Order, a: Row, b: Row)
    ensures RowLe([o], a, b) <==> Key(o, a) <= Key(o, b)
  {
    assert [o][1..] == [];
  }

  predicate Sorted(orders: seq<Order>, s: seq<Row>)
  {
    forall i, j :: 0 <= i < j < |s| ==> RowLe(orders, s[i], s[j])
  }

  /** Inserts `x` before the first row it may precede. */
  function InsertInOrder(orders: seq<Order>, x: Row, s: seq<Row>): (r: seq<Row>)
    ensures multiset(r) == multiset(s) + multiset{x}
    decreases |s|
  {
    if s == [] then [x]
    else if RowLe(orders, x, s[0]) then [x] + s
    else
      assert s == [s[0]] + s[1..];
      [s[0]] + InsertInOrder(orders, x, s[1..])
  }

  lemma {:induction false} InsertSorted(orders: seq<Order>, x: Row, s: seq<Row>)
    requires Sorted(orders, s)
    ensures Sorted(orders, InsertInOrder(orders, x, s))
    decreases |s|
  {
    if s == [] {
    } else if RowLe(orders, x, s[0]) {
      var r := [x] + s;
      forall i, j | 0 <= i < j < |r| ensures RowLe(orders, r[i], r[j]) {
        if i == 0 {
          if j > 1 { RowLeTransitive(orders, x, s[0], s[j - 1]); }
        } else {
          assert r[i] == s[i - 1] && r[j] == s[j - 1];
        }
      }
    } else {
      RowLeTotal(orders, x, s[0]);
      var t := InsertInOrder(orders, x, s[1..]);
      InsertSorted(orders, x, s[1..]);
      var r := [s[0]] + t;
      forall i, j | 0 <= i < j < |r| ensures RowLe(orders, r[i], r[j]) {
        if i == 0 {
          assert r[j] == t[j - 1];
          assert t[j - 1] in multiset(t);
          if t[j - 1] != x {
            assert t[j - 1] in multiset(s[1..]);
            var k :| 0 <= k < |s[1..]| && s[1..][k] == t[j - 1];
            assert s[k + 1] == t[j - 1];
          }
        } else {
          assert r[i] == t[i - 1] && r[j] == t[j - 1];
        }
      }
    }
  }

  lemma {:induction false} InsertNoDup(orders: seq<Order>, x: Row, s: seq<Row>)
    requires NoDup(s) && x !in s
    ensures NoDup(InsertInOrder(orders, x, s))
    decreases |s|
  {
    NoDupCons(x, s);
    if s != [] && !RowLe(orders, x, s[0]) {
      assert s == [s[0]] + s[1..];
      NoDupCons(s[0], s[1..]);
      var t := InsertInOrder(orders, x, s[1..]);
      InsertNoDup(orders, x, s[1..]);
      assert s[0] !in multiset(t) by {
        assert multiset(t) == multiset(s[1..]) + multiset{x};
      }
      NoDupCons(s[0], t);
    }
  }

  /** Insertion sort: a stable sort under the order clauses. */
  function SortRows(orders: seq<Order>, s: seq<Row>): (r: seq<Row>)
    ensures multiset(r) == multiset(s)
    decreases |s|
  {
    if s == [] then []
    else
      assert s == [s[0]] + s[1..];
      InsertInOrder(orders, s[0], SortRows(orders, s[1..]))
  }

  lemma {:induction false} SortRowsSorted(orders: seq<Order>, s: seq<Row>)
    ensures Sorted(orders, SortRows(orders, s))
    decreases |s|
  {
    if s != [] {
      SortRowsSorted(orders, s[1..]);
      InsertSorted(orders, s[0], SortRows(orders, s[1..]));
    }
  }

  lemma {:induction false} SortRowsNoDup(orders: seq<Order>, s: seq<Row>)
    requires NoDup(s)
    ensures NoDup(SortRows(orders, s))
    decreases |s|
  {
    if s != [] {
      assert s == [s[0]] + s[1..];
      NoDupCons(s[0], s[1..]);
      var t := SortRows(orders, s[1..]);
      SortRowsNoDup(orders, s[1..]);
      assert s[0] !in multiset(t);
      InsertNoDup(orders, s[0], t);
    }
  }

  /** What a query answers over the rows `s` of a table, scanned in that order. */
  function Run(q: Query, s: seq<Row>): (r: seq<Row>)
    ensures Sorted(q.orders, r)
    ensures multiset(r) == multiset(Filter(q.clauses, s))
    ensures forall x :: x in r <==> x in s && Matches(q.clauses, x)
    ensures NoDup(s) ==> NoDup(r)
  {
    var f := Filter(q.clauses, s);
    SortRowsSorted(q.orders, f);
    var r := SortRows(q.orders, f);
    assert NoDup(s) ==> NoDup(r) by {
      if NoDup(s) { SortRowsNoDup(q.orders, f); }
    }
    assert forall x :: x in r <==> x in multiset(f);
    r
  }

  /** `rows` is a correct answer to `q` over the table: every row it lists is a row
      of the table (stored under its own id) satisfying the clauses, every such row
      is listed, none twice, in the order the order clauses ask for. */
  ghost predicate IsAnswer(q: Query, table: map<int, Row>, rows: seq<Row>)
  {
    (forall i :: 0 <= i < |rows| ==>
       rows[i].id in table && table[rows[i].id] == rows[i] && Matches(q.clauses, rows[i]))
    && (forall k :: k in table && Matches(q.clauses, table[k]) ==> table[k] in rows)
    && NoDup(rows)
    && Sorted(q.orders, rows)
  }

  function Reverse(s: seq<Row>): (r: seq<Row>)
    ensures |r| == |s|
    ensures forall i :: 0 <= i < |s| ==> r[i] == s[|s| - 1 - i]
    decreases |s|
  {
    if s == [] then [] else Reverse(s[1..]) + [s[0]]
  }

  lemma ReverseSameRows(s: seq<Row>)
    ensures forall x :: x in Reverse(s) <==> x in s
  {
    var r := Reverse(s);
    forall x ensures x in r <==> x in s {
      if x in s {
        var i :| 0 <= i < |s| && s[i] == x;
        assert r[|s| - 1 - i] == x;
      }
      if x in r {
        var i :| 0 <= i < |r| && r[i] == x;
        assert s[|s| - 1 - i] == x;
      }
    }
  }

  /** Reversing a list sorted ascending on a column sorts it descending on that column. */
  lemma ReverseFlipsDirection(c: Column, s: seq<Row>)
    requires Sorted([OrderBy(c, true)], s)
    ensures Sorted([OrderBy(c, false)], Reverse(s))
  {
    var r := Reverse(s);
    var n := |s|;
    forall i, j | 0 <= i < j < |r| ensures RowLe([OrderBy(c, false)], r[i], r[j]) {
      assert RowLe([OrderBy(c, true)], s[n - 1 - j], s[n - 1 - i]);
      RowLeSingle(OrderBy(c, true), s[n - 1 - j], s[n - 1 - i]);
      RowLeSingle(OrderBy(c, false), r[i], r[j]);
    }
  }

  /** Two answers to queries with the same filter clauses list the same rows. */
  lemma AnswersSameRows(q1: Query, q2: Query, table: map<int, Row>, a: seq<Row>, b: seq<Row>)
    requires q1.clauses == q2.clauses
    requires IsAnswer(q1, table, a) && IsAnswer(q2, table, b)
    ensures forall x :: x in a <==> x in b
  {
    forall x ensures x in a <==> x in b {
      if x in a {
        var i :| 0 <= i < |a| && a[i] == x;
        assert table[x.id] == x;
      }
      if x in b {
        var i :| 0 <= i < |b| && b[i] == x;
        assert table[x.id] == x;
      }
    }
  }

  lemma {:induction false} ReverseMultiset(s: seq<Row>)
    ensures multiset(Reverse(s)) == multiset(s)
    decreases |s|
  {
    if s != [] {
      ReverseMultiset(s[1..]);
      assert s == [s[0]] + s[1..];
    }
  }

  lemma MultisetTail(s: seq<Row>)
    requires s != []
    ensures multiset(s[1..]) == multiset(s) - multiset{s[0]}
  {
    assert s == [s[0]] + s[1..];
  }

  /** Two sorted arrangements of the same rows start with the same row when no
      two distinct rows tie on every order clause. */
  lemma SortedSameHead(orders: seq<Order>, a: seq<Row>, b: seq<Row>)
    requires a != [] && b != []
    requires Sorted(orders, a) && Sorted(orders, b)
    requires multiset(a) == multiset(b)
    requires forall x, y :: x in a && y in a && RowLe(orders, x, y) && RowLe(orders, y, x) ==> x == y
    ensures a[0] == b[0]
  {
    assert b[0] in multiset(a);
    var k :| 0 <= k < |a| && a[k] == b[0];
    assert a[0] in multiset(b);
    var m :| 0 <= m < |b| && b[m] == a[0];
    assert RowLe(orders, a[0], b[0]) by {
      if k > 0 { assert RowLe(orders, a[0], a[k]); }
      else { RowLeTotal(orders, a[0], a[0]); }
    }
    assert RowLe(orders, b[0], a[0]) by {
      if m > 0 { assert RowLe(orders, b[0], b[m]); }
      else { RowLeTotal(orders, b[0], b[0]); }
    }
    assert b[0] in a;
  }

  /** Two sorted arrangements of the same rows are equal when no two distinct rows
      tie on every order clause. */
  lemma {:induction false} SortedUnique(orders: seq<Order>, a: seq<Row>, b: seq<Row>)
    requires Sorted(orders, a) && Sorted(orders, b)
    requires multiset(a) == multiset(b)
    requires forall x, y :: x in a && y in a && RowLe(orders, x, y) && RowLe(orders, y, x) ==> x == y
    ensures a == b
    decreases |a|
  {
    assert |a| == |multiset(a)| == |multiset(b)| == |b|;
    if a != [] {
      SortedSameHead(orders, a, b);
      MultisetTail(a);
      MultisetTail(b);
      assert Sorted(orders, a[1..]) by {
        forall i, j | 0 <= i < j < |a[1..]| ensures RowLe(orders, a[1..][i], a[1..][j]) {
          assert a[1..][i] == a[i + 1] && a[1..][j] == a[j + 1];
        }
      }
      assert Sorted(orders, b[1..]) by {
        forall i, j | 0 <= i < j < |b[1..]| ensures RowLe(orders, b[1..][i], b[1..][j]) {
          assert b[1..][i] == b[i + 1] && b[1..][j] == b[j + 1];
        }
      }
      forall x, y | x in a[1..] && y in a[1..] && RowLe(orders, x, y) && RowLe(orders, y, x)
        ensures x == y
      {
        assert x in a && y in a;
      }
      SortedUnique(orders, a[1..], b[1..]);
      assert a == [a[0]] + a[1..];
      assert b == [b[0]] + b[1..];
    }
  }
}
