/**
 * The dashboard: totals, cash flow and saving rate over all transactions, the
 * colour band of the rate, the width of its progress bar, and the five newest
 * transactions.
 */
module Dashboard {
  import opened Records
  import opened Query
  import opened Store

  /** `rows.filter((t) => t.type === kind)`. */
  function OfType(rows: seq<Row>, kind: string): (r: seq<Row>)
    ensures forall x :: x in r <==> x in rows && x.kind == kind
    decreases |rows|
  {
    if rows == [] then []
    else if rows[0].kind == kind then [rows[0]] + OfType(rows[1..], kind)
    else OfType(rows[1..], kind)
  }

  /** `.reduce((sum, t) => sum + Number(t.amount), 0)`: never negative when no
      amount is. */
  function Sum(rows: seq<Row>): (s: int)
    ensures (forall x :: x in rows ==> x.amount >= 0) ==> s >= 0
    decreases |rows|
  {
    if rows == [] then 0 else rows[0].amount + Sum(rows[1..])
  }

  /** The sum of the income rows: 0 when there are none, and never negative
      when no income amount is. */
  function TotalIncome(rows: seq<Row>): (t: int)
    ensures (forall x :: x in rows ==> x.kind != "income") ==> t == 0
    ensures (forall x :: x in rows && x.kind == "income" ==> x.amount >= 0) ==> t >= 0
  {
    var o := OfType(rows, "income");
    assert o != [] ==> o[0] in o;
    Sum(o)
  }

  /** The sum of the expense rows: 0 when there are none, and never negative
      when no expense amount is. */
  function TotalExpense(rows: seq<Row>): (t: int)
    ensures (forall x :: x in rows ==> x.kind != "expense") ==> t == 0
    ensures (forall x :: x in rows && x.kind == "expense" ==> x.amount >= 0) ==> t >= 0
  {
    var o := OfType(rows, "expense");
    assert o != [] ==> o[0] in o;
    Sum(o)
  }

  /** Income minus expense, which is the sum of the rows' signed amounts. */
  function CashFlow(rows: seq<Row>): (c: int)
    ensures c == NetSum(rows)
  {
    CashFlowIsNetSum(rows);
    TotalIncome(rows) - TotalExpense(rows)
  }

  /** What one row adds to the total of `kind`. */
  function Contribution(r: Row, kind: string): int
  {
    if r.kind == kind then r.amount else 0
  }

  lemma {:induction false} OfTypeConcat(a: seq<Row>, b: seq<Row>, kind: string)
    ensures OfType(a + b, kind) == OfType(a, kind) + OfType(b, kind)
    decreases |a|
  {
    if a != [] {
      assert (a + b)[1..] == a[1..] + b;
      OfTypeConcat(a[1..], b, kind);
    } else {
      assert a + b == b;
    }
  }

  lemma {:induction false} SumConcat(a: seq<Row>, b: seq<Row>)
    ensures Sum(a + b) == Sum(a) + Sum(b)
    decreases |a|
  {
    if a != [] {
      assert (a + b)[1..] == a[1..] + b;
      SumConcat(a[1..], b);
    } else {
      assert a + b == b;
    }
  }

  /** The total of a kind is additive, and a row counts towards it with its amount
      exactly when it has that kind, wherever it stands in the list. */
  lemma TotalOfTypeSplit(before: seq<Row>, r: Row, after: seq<Row>, kind: string)
    ensures Sum(OfType(before + [r] + after, kind))
         == Sum(OfType(before + after, kind)) + Contribution(r, kind)
  {
    OfTypeConcat(before + [r], after, kind);
    OfTypeConcat(before, [r], kind);
    OfTypeConcat(before, after, kind);
    SumConcat(OfType(before, kind) + OfType([r], kind), OfType(after, kind));
    SumConcat(OfType(before, kind), OfType([r], kind));
    SumConcat(OfType(before, kind), OfType(after, kind));
  }

  /** A row whose type is neither "income" nor "expense" counts in neither total. */
  lemma OtherTypesCountInNeither(before: seq<Row>, r: Row, after: seq<Row>)
    requires r.kind != "income" && r.kind != "expense"
    ensures TotalIncome(before + [r] + after) == TotalIncome(before + after)
    ensures TotalExpense(before + [r] + after) == TotalExpense(before + after)
  {
    TotalOfTypeSplit(before, r, after, "income");
    TotalOfTypeSplit(before, r, after, "expense");
  }

  /** A row's effect on the cash flow: plus an income, minus an expense. */
  function Net(r: Row): int
  {
    if r.kind == "income" then r.amount else if r.kind == "expense" then -r.amount else 0
  }

  function NetSum(rows: seq<Row>): int
    decreases |rows|
  {
    if rows == [] then 0 else Net(rows[0]) + NetSum(rows[1..])
  }

  /** Peeling the first row off a list adds its contribution to the total of a kind. */
  lemma SumOfTypeStep(rows: seq<Row>, kind: string)
    requires rows != []
    ensures Sum(OfType(rows, kind)) == Contribution(rows[0], kind) + Sum(OfType(rows[1..], kind))
  {
    var rest := OfType(rows[1..], kind);
    if rows[0].kind == kind {
      assert ([rows[0]] + rest)[1..] == rest;
    }
  }

  /** Income minus expense is the sum of the rows' signed amounts. */
  lemma {:induction false} CashFlowIsNetSum(rows: seq<Row>)
    ensures TotalIncome(rows) - TotalExpense(rows) == NetSum(rows)
    decreases |rows|
  {
    if rows != [] {
      var rest := rows[1..];
      CashFlowIsNetSum(rest);
      SumOfTypeStep(rows, "income");
      SumOfTypeStep(rows, "expense");
    }
  }

  function Abs(x: int): nat { if x < 0 then -x else x }

  /** Rounds a/den to the nearest integer, halves upwards. */
  function HalfUp(a: nat, den: int): (q: nat)
    requires den > 0
    ensures -den < 2 * (q * den - a) <= den
  {
    var x := 2 * a + den;
    var d := 2 * den;
    var q := x / d;
    var rem := x % d;
    assert x == d * q + rem && 0 <= rem < d;
    assert d * q == 2 * (q * den);
    q
  }

  /** `toFixed(1)` on the rational num/den, in tenths: half away from zero. */
  function RoundTenths(num: int, den: int): (n: int)
    requires den > 0
    ensures (num >= 0 ==> n >= 0) && (num <= 0 ==> n <= 0)
    ensures Abs(n) == HalfUp(Abs(num), den)
  {
    var q: int := HalfUp(Abs(num), den);
    if num >= 0 then q else -q
  }

  /** The rounded value is the nearest multiple of a tenth, and on a tie the one
      farther from zero. */
  lemma RoundTenthsNearest(num: int, den: int)
    requires den > 0
    ensures var n := RoundTenths(num, den);
      2 * Abs(n * den - num) <= den
      && (2 * Abs(n * den - num) == den ==> Abs(n) * den > Abs(num))
  {
    var n := RoundTenths(num, den);
    var a: int := Abs(num);
    var q: int := HalfUp(a, den);
    var e := q * den - a;
    assert -den < 2 * e <= den;
    if num >= 0 {
      assert n == q && num == a;
      assert n * den - num == e;
    } else {
      assert n == -q && num == -a;
      assert n * den == -(q * den);
      assert n * den - num == -e;
    }
  }

  /** An exact rational num/den with a positive denominator. */
  datatype Ratio = Ratio(num: int, den: int)

  /** `totalIncome > 0 ? (cashFlow / totalIncome) * 100 : 0`, exactly, in percent. */
  function SavingRate(rows: seq<Row>): (r: Ratio)
    ensures r.den > 0
    ensures TotalIncome(rows) > 0 ==> (r.num >= 0 <==> TotalExpense(rows) <= TotalIncome(rows))
    ensures TotalExpense(rows) >= 0 ==> r.num <= 100 * r.den
  {
    var income := TotalIncome(rows);
    if income > 0 then Ratio(100 * CashFlow(rows), income) else Ratio(0, 1)
  }

  /** `Number(savingRate.toFixed(1))`, in tenths of a percent: within half a tenth
      of the exact rate, not negative when the cash flow is not, and at most 100%
      when no expense is negative. */
  function SavingRateFixed(rows: seq<Row>): (t: int)
    ensures var r := SavingRate(rows); 2 * Abs(t * r.den - 10 * r.num) <= r.den
    ensures CashFlow(rows) >= 0 ==> t >= 0
    ensures TotalExpense(rows) >= 0 ==> t <= 1000
  {
    var r := SavingRate(rows);
    RoundTenthsNearest(10 * r.num, r.den);
    RoundReaches(10 * r.num, r.den, 1001);
    RoundTenths(10 * r.num, r.den)
  }

  /** With no positive income the saving rate is 0, whatever the expenses. */
  lemma SavingRateWithoutIncome(rows: seq<Row>)
    requires TotalIncome(rows) <= 0
    ensures SavingRate(rows) == Ratio(0, 1) && SavingRateFixed(rows) == 0
  {
  }

  /** The colour band of a rate: at least 30 emerald, at least 10 yellow, else red. */
  datatype Band = Emerald | Yellow | Red

  function BandOf(r: Ratio): Band
    requires r.den > 0
  {
    if r.num >= 30 * r.den then Emerald else if r.num >= 10 * r.den then Yellow else Red
  }

  function Rank(b: Band): nat
  {
    match b case Red => 0 case Yellow => 1 case Emerald => 2
  }

  /** `savingRateColor`: the band of the rounded rate, given in tenths of a percent. */
  function TextBand(tenths: int): (b: Band)
    ensures b == Emerald <==> tenths >= 300
    ensures b == Yellow <==> 100 <= tenths < 300
    ensures b == Red <==> tenths < 100
  {
    BandOf(Ratio(tenths, 10))
  }

  /** The bar's class: the band of the unrounded rate. Without positive income it
      is red; otherwise it is emerald when the cash flow is at least 3/10 of the
      income, and red when it is below 1/10 of it. */
  function BarBand(rows: seq<Row>): (b: Band)
    ensures TotalIncome(rows) <= 0 ==> b == Red
    ensures TotalIncome(rows) > 0 ==>
      (b == Emerald <==> 10 * CashFlow(rows) >= 3 * TotalIncome(rows))
      && (b == Red <==> 10 * CashFlow(rows) < TotalIncome(rows))
  {
    BandOf(SavingRate(rows))
  }

  /** The band is monotone in the rounded rate. */
  lemma TextBandMonotone(t1: int, t2: int)
    requires t1 <= t2
    ensures Rank(TextBand(t1)) <= Rank(TextBand(t2))
  {
  }

  lemma MulMonotone(x: int, y: int, d: int)
    requires x <= y && d > 0
    ensures x * d <= y * d
  {
    assert y * d - x * d == (y - x) * d;
  }

  /** A rounded rate reaches a band threshold of t tenths (t > 0) exactly when the
      exact rate is no more than half a tenth below it. */
  lemma RoundReaches(num: int, den: int, t: int)
    requires den > 0 && t > 0
    ensures RoundTenths(num, den) >= t <==> 2 * num >= (2 * t - 1) * den
  {
    var n := RoundTenths(num, den);
    if n >= t {
      MulMonotone(t, n, den);
      assert num >= 0;
    } else {
      MulMonotone(n, t - 1, den);
    }
  }

  /** The bar band never ranks above the text band: rounding can lift a rate into
      a band, never out of one. */
  lemma BarNeverAboveText(rows: seq<Row>)
    ensures Rank(BarBand(rows)) <= Rank(TextBand(SavingRateFixed(rows)))
  {
    var r := SavingRate(rows);
    RoundReaches(10 * r.num, r.den, 300);
    RoundReaches(10 * r.num, r.den, 100);
  }

  /** The two bands differ only for an exact rate within half a tenth below 30 or 10. */
  lemma BandsDifferOnlyBelowThreshold(rows: seq<Row>)
    ensures var r := SavingRate(rows);
      BarBand(rows) != TextBand(SavingRateFixed(rows)) ==>
        (599 * r.den <= 20 * r.num < 600 * r.den) || (199 * r.den <= 20 * r.num < 200 * r.den)
  {
    var r := SavingRate(rows);
    RoundReaches(10 * r.num, r.den, 300);
    RoundReaches(10 * r.num, r.den, 100);
  }

  /** `Math.min(savingRateFixed, 100)`, in tenths: never above 100 percent. */
  function BarWidth(tenths: int): (w: int)
    ensures w <= 1000 && w <= tenths
    ensures w == tenths || w == 1000
  {
    if tenths < 1000 then tenths else 1000
  }

  /** `data.slice(0, 5)`. */
  function Latest(rows: seq<Row>): (r: seq<Row>)
    ensures |r| == (if |rows| < 5 then |rows| else 5)
    ensures r <= rows
  {
    if |rows| < 5 then rows else rows[..5]
  }

  /** The dashboard's query: every row, newest first. */
  const NewestFirst: Query := Query([], [OrderBy(CreatedAt, false)])

  /** On an answer to the dashboard's query, the latest rows are no older than any other row. */
  lemma LatestAreNewest(table: map<int, Row>, rows: seq<Row>)
    requires IsAnswer(NewestFirst, table, rows)
    ensures forall i, j :: 0 <= i < |Latest(rows)| <= j < |rows| ==>
      Latest(rows)[i].createdAt >= rows[j].createdAt
  {
    forall i, j | 0 <= i < |Latest(rows)| <= j < |rows|
      ensures Latest(rows)[i].createdAt >= rows[j].createdAt
    {
      assert RowLe(NewestFirst.orders, rows[i], rows[j]);
      RowLeSingle(OrderBy(CreatedAt, false), rows[i], rows[j]);
    }
  }

  /** Every row of the table is on the dashboard after a successful fetch, so the
      totals cover the whole table. */
  lemma AnswerListsWholeTable(table: map<int, Row>, rows: seq<Row>)
    requires IsAnswer(NewestFirst, table, rows)
    ensures forall k :: k in table ==> table[k] in rows
    ensures table == map[] ==>
      rows == [] && TotalIncome(rows) == 0 && TotalExpense(rows) == 0
      && CashFlow(rows) == 0 && SavingRateFixed(rows) == 0
  {
    if rows != [] {
      assert rows[0].id in table;
    }
  }

  /** Income 1000 and expense 700: cash flow 300, saving rate 30.0, emerald. */
  lemma IncomeThousandExpenseSevenHundred()
    ensures var rows := [Row(1, "income", "Salary", 1000, 0), Row(2, "expense", "Food", 700, 1)];
      TotalIncome(rows) == 1000 && TotalExpense(rows) == 700 && CashFlow(rows) == 300
      && SavingRateFixed(rows) == 300 && TextBand(SavingRateFixed(rows)) == Emerald
      && BarBand(rows) == Emerald && BarWidth(SavingRateFixed(rows)) == 300
  {
  }

  /** A single income of 5000000: saving rate 100.0, the bar at full width. */
  lemma SingleSalary()
    ensures var rows := [Row(1, "income", "Salary", 5000000, 0)];
      TotalIncome(rows) == 5000000 && CashFlow(rows) == 5000000 && SavingRateFixed(rows) == 1000
      && BarWidth(SavingRateFixed(rows)) == 1000
  {
  }

  /** An exact rate of 29.96: the text shows 30.0 in emerald, the bar is yellow. */
  lemma NearThresholdBandsDiffer()
    ensures var rows := [Row(1, "income", "Salary", 2500, 0), Row(2, "expense", "Rent", 1751, 1)];
      SavingRate(rows) == Ratio(74900, 2500) && SavingRateFixed(rows) == 300
      && TextBand(SavingRateFixed(rows)) == Emerald && BarBand(rows) == Yellow
  {
  }

  /** The dashboard view: all transactions and the five newest. */
  class DashboardView {
    const db: Backend
    var transactions: seq<Row>
    var latest: seq<Row>

    ghost predicate Valid()
      reads this, db
    {
      db.Valid() && latest == Latest(transactions)
    }

    constructor (db: Backend)
      requires db.Valid()
      ensures Valid() && this.db == db
      ensures transactions == [] && latest == []
    {
      this.db := db;
      transactions := [];
      latest := [];
    }

    /** `fetchTransactions`: on success both lists are replaced, on error both are kept. */
    method Fetch(ok: bool)
      requires Valid()
      modifies this
      ensures Valid()
      ensures ok ==> IsAnswer(NewestFirst, db.transactions, transactions)
      ensures !ok ==> transactions == old(transactions) && latest == old(latest)
    {
      if ok {
        var data := db.Select(NewestFirst);
        transactions := data;
        latest := Latest(data);
      }
    }
  }
}
