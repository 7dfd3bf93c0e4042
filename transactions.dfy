/**
 * The transactions page: the query its filters and sort order stand for, the
 * list it shows, and the add/edit modal and two-step delete that change the
 * `transactions` table.
 */
module Transactions {
  import opened Values
  import opened Records
  import opened Calendar
  import opened Query
  import opened Store

  /** `if (filterType !== "all") query = query.eq("type", filterType)`. */
  function TypeClauses(filterType: string): (c: seq<Clause>)
    ensures |c| <= 1
    ensures forall r :: Matches(c, r) <==> filterType == "all" || r.kind == filterType
  {
    if filterType != "all" then
      assert forall r :: Matches([TypeIs(filterType)], r) <==> r.kind == filterType by {
        forall r ensures Matches([TypeIs(filterType)], r) <==> r.kind == filterType {
          MatchesOne(TypeIs(filterType), r);
        }
      }
      [TypeIs(filterType)]
    else []
  }

  /** The month window `.gte("created_at", start).lt("created_at", end)`, where
      `end` is the first instant of the following month; no month, no window. */
  function MonthClauses(filterMonth: Option<YearMonth>): (c: seq<Clause>)
    ensures forall r :: Matches(c, r) <==> filterMonth.None? || InMonth(filterMonth.value, r.createdAt)
  {
    match filterMonth
    case None => []
    case Some(ym) =>
      var c := [CreatedFrom(MonthStart(ym)), CreatedBefore(MonthStart(Succ(ym)))];
      assert forall r :: Matches(c, r) <==> InMonth(ym, r.createdAt) by {
        forall r ensures Matches(c, r) <==> InMonth(ym, r.createdAt) {
          MatchesTwo(c[0], c[1], r);
        }
      }
      c
  }

  /** The four options of the sort selector. */
  predicate KnownSort(sortBy: string)
  {
    sortBy == "date_desc" || sortBy == "date_asc" || sortBy == "amount_desc" || sortBy == "amount_asc"
  }

  /** The four independent `if (sortBy === …) query = query.order(…)` steps. */
  function OrderClauses(sortBy: string): (o: seq<Order>)
    ensures |o| <= 1
    ensures o == [] <==> !KnownSort(sortBy)
  {
    (if sortBy == "date_desc" then [OrderBy(CreatedAt, false)] else [])
    + (if sortBy == "date_asc" then [OrderBy(CreatedAt, true)] else [])
    + (if sortBy == "amount_desc" then [OrderBy(Amount, false)] else [])
    + (if sortBy == "amount_asc" then [OrderBy(Amount, true)] else [])
  }

  /** The query of `fetchTransactions` for the current filters and sort order: a
      row is selected exactly when it has the chosen type (any type for "all")
      and, when a month is chosen, was created within that calendar month. */
  function QuerySpec(filterType: string, filterMonth: Option<YearMonth>, sortBy: string): (q: Query)
    ensures forall r :: (Matches(q.clauses, r)
        <==> (filterType == "all" || r.kind == filterType)
             && (filterMonth.None? || InMonth(filterMonth.value, r.createdAt)))
  {
    var c := TypeClauses(filterType) + MonthClauses(filterMonth);
    assert forall r :: Matches(c, r) <==> Matches(TypeClauses(filterType), r) && Matches(MonthClauses(filterMonth), r) by {
      forall r ensures Matches(c, r) <==> Matches(TypeClauses(filterType), r) && Matches(MonthClauses(filterMonth), r) {
        MatchesConcat(TypeClauses(filterType), MonthClauses(filterMonth), r);
      }
    }
    Query(c, OrderClauses(sortBy))
  }

  /** A row created at the first instant of the chosen month is selected, and one
      created at the first instant of the next month is not (types permitting). */
  lemma MonthWindowEdges(filterMonth: YearMonth, sortBy: string, r: Row)
    ensures r.createdAt == MonthStart(filterMonth) ==>
      Matches(QuerySpec("all", Some(filterMonth), sortBy).clauses, r)
    ensures r.createdAt == MonthStart(Succ(filterMonth)) ==>
      !Matches(QuerySpec("all", Some(filterMonth), sortBy).clauses, r)
  {
    MonthBoundaries(filterMonth);
  }

  /** What each sort option puts first: newest, oldest, highest or lowest amount. */
  lemma SortMeaning(sortBy: string, a: Row, b: Row)
    ensures sortBy == "date_desc" ==> (RowLe(OrderClauses(sortBy), a, b) <==> a.createdAt >= b.createdAt)
    ensures sortBy == "date_asc" ==> (RowLe(OrderClauses(sortBy), a, b) <==> a.createdAt <= b.createdAt)
    ensures sortBy == "amount_desc" ==> (RowLe(OrderClauses(sortBy), a, b) <==> a.amount >= b.amount)
    ensures sortBy == "amount_asc" ==> (RowLe(OrderClauses(sortBy), a, b) <==> a.amount <= b.amount)
    ensures !KnownSort(sortBy) ==> RowLe(OrderClauses(sortBy), a, b)
  {
    if KnownSort(sortBy) {
      var o := OrderClauses(sortBy);
      RowLeSingle(o[0], a, b);
    }
  }

  /** `fetchTransactions`'s query, built by successive reassignment. */
  method BuildQuery(filterType: string, filterMonth: Option<YearMonth>, sortBy: string)
    returns (q: Query)
    ensures q == QuerySpec(filterType, filterMonth, sortBy)
  {
    q := Query([], []);
    if filterType != "all" {
      q := q.(clauses := q.clauses + [TypeIs(filterType)]);
    }
    if filterMonth.Some? {
      var start := MonthStart(filterMonth.value);
      var end := MonthStart(Succ(filterMonth.value));
      q := q.(clauses := q.clauses + [CreatedFrom(start)]);
      q := q.(clauses := q.clauses + [CreatedBefore(end)]);
    }
    if sortBy == "date_desc" {
      q := q.(orders := q.orders + [OrderBy(CreatedAt, false)]);
    }
    if sortBy == "date_asc" {
      q := q.(orders := q.orders + [OrderBy(CreatedAt, true)]);
    }
    if sortBy == "amount_desc" {
      q := q.(orders := q.orders + [OrderBy(Amount, false)]);
    }
    if sortBy == "amount_asc" {
      q := q.(orders := q.orders + [OrderBy(Amount, true)]);
    }
  }

  /** Rows with pairwise distinct amounts never tie on the amount. */
  lemma DistinctAmountsNoTies(s: seq<Row>)
    requires forall x, y :: x in s && y in s && x != y ==> x.amount != y.amount
    ensures forall x, y ::
      (x in s && y in s && RowLe([OrderBy(Amount, false)], x, y) && RowLe([OrderBy(Amount, false)], y, x))
      ==> x == y
  {
    forall x, y | x in s && y in s
      && RowLe([OrderBy(Amount, false)], x, y) && RowLe([OrderBy(Amount, false)], y, x)
      ensures x == y
    {
      RowLeSingle(OrderBy(Amount, false), x, y);
      RowLeSingle(OrderBy(Amount, false), y, x);
    }
  }

  /** When the listed rows have pairwise distinct amounts, "Highest Amount" lists
      exactly the rows of "Lowest Amount" in reverse. */
  lemma AmountDescReversesAsc(filterType: string, filterMonth: Option<YearMonth>,
                              table: map<int, Row>, asc: seq<Row>, desc: seq<Row>)
    requires forall x, y :: x in asc && y in asc && x != y ==> x.amount != y.amount
    requires IsAnswer(QuerySpec(filterType, filterMonth, "amount_asc"), table, asc)
    requires IsAnswer(QuerySpec(filterType, filterMonth, "amount_desc"), table, desc)
    ensures desc == Reverse(asc)
  {
    var down := [OrderBy(Amount, false)];
    assert OrderClauses("amount_asc") == [OrderBy(Amount, true)];
    assert OrderClauses("amount_desc") == down;
    var r := Reverse(asc);
    ReverseFlipsDirection(Amount, asc);
    AnswersSameRows(QuerySpec(filterType, filterMonth, "amount_asc"),
                    QuerySpec(filterType, filterMonth, "amount_desc"), table, asc, desc);
    ReverseSameRows(asc);
    ReverseMultiset(asc);
    SameRowsSameMultiset(asc, desc);
    DistinctAmountsNoTies(r);
    SortedUnique(down, r, desc);
  }

  /** `if (editingId)` / `{deleteId && …}`: an id held in state is truthy when set and nonzero. */
  predicate Truthy(id: Option<int>)
    ensures id.Some? && id.value >= 1 ==> Truthy(id)
    ensures id.None? ==> !Truthy(id)
  {
    id.Some? && id.value != 0
  }

  /** The table after `handleSave`'s write: an update of the row being edited
      when `editingId` is truthy, an insert under the fresh id `nextId` otherwise.
      A failed call, or an amount that is not a number, leaves the table as it was.
      No row is ever removed, and the only id that can appear is `nextId`. */
  function SaveWrite(table: map<int, Row>, nextId: int, editingId: Option<int>,
                     kind: string, category: string, amount: Field, writeOk: bool, now: int)
    : (t: map<int, Row>)
    ensures table.Keys <= t.Keys <= table.Keys + {nextId}
    ensures !writeOk || ToNumber(amount).None? ==> t == table
    ensures Truthy(editingId) ==> t.Keys == table.Keys
  {
    match ToNumber(amount)
    case None => table
    case Some(v) =>
      if !writeOk then table
      else if Truthy(editingId) then UpdateRow(table, editingId.value, kind, category, v)
      else table[nextId := Row(nextId, kind, category, v, now)]
  }

  /** Saving an edit changes the type, category and amount of the edited row and
      nothing else: its id, its creation instant and every other row stay. */
  lemma SaveEditChangesOnlyThatRow(table: map<int, Row>, nextId: int, id: int,
                                   kind: string, category: string, amount: Field, now: int)
    requires id != 0 && ToNumber(amount).Some?
    ensures var t := SaveWrite(table, nextId, Some(id), kind, category, amount, true, now);
      t.Keys == table.Keys
      && (forall k :: k in table && k != id ==> t[k] == table[k])
      && (id in table ==>
            t[id] == table[id].(kind := kind, category := category, amount := ToNumber(amount).value))
  {
  }

  /** Saving a new row adds exactly one row, under a fresh id, holding the form's
      values, and keeps every existing row. */
  lemma SaveAddsOneRow(table: map<int, Row>, nextId: int, editingId: Option<int>,
                       kind: string, category: string, amount: Field, now: int)
    requires !Truthy(editingId) && ToNumber(amount).Some?
    requires nextId !in table
    ensures var t := SaveWrite(table, nextId, editingId, kind, category, amount, true, now);
      t.Keys == table.Keys + {nextId}
      && |t| == |table| + 1
      && t[nextId] == Row(nextId, kind, category, ToNumber(amount).value, now)
      && (forall k :: k in table ==> t[k] == table[k])
  {
    var t := SaveWrite(table, nextId, editingId, kind, category, amount, true, now);
    assert t.Keys == table.Keys + {nextId};
  }

  /** A prefilled amount of 0 is refused, while the typed text "0" is accepted and
      stored as 0. */
  lemma ZeroAmounts(table: map<int, Row>, nextId: int, now: int)
    requires nextId !in table
    ensures Falsy(Num(0)) && !Falsy(Text("0"))
    ensures SaveWrite(table, nextId, None, "income", "Gift", Text("0"), true, now)[nextId].amount == 0
  {
  }

  /** What the list may hold: the answer to the query over the table, or nothing
      after a failed fetch. */
  ghost predicate Shows(q: Query, table: map<int, Row>, rows: seq<Row>)
  {
    rows == [] || IsAnswer(q, table, rows)
  }

  /** The transactions page's state. */
  class TransactionsView {
    const db: Backend
    var transactions: seq<Row>
    var kind: string
    var category: string
    var amount: Field
    var showModal: bool
    var loading: bool
    var deleteId: Option<int>
    var filterMonth: Option<YearMonth>
    var filterType: string
    var sortBy: string
    var editingId: Option<int>

    /** The query the page's filters and sort order stand for. */
    ghost function CurrentQuery(): Query
      reads this
    {
      QuerySpec(filterType, filterMonth, sortBy)
    }

    /** The store is consistent, and the list shown is the answer to the current
        query over the table, or empty after a failed fetch. */
    ghost predicate Valid()
      reads this, db
    {
      db.Valid() && Shows(CurrentQuery(), db.transactions, transactions)
    }

    /** The initial state of the page (`useState` defaults of `src/pages/Transactions.jsx`, lines 6-16). */
    constructor (db: Backend)
      requires db.Valid()
      ensures Valid() && this.db == db
      ensures transactions == [] && kind == "income" && category == "" && amount == Text("")
      ensures !showModal && !loading && deleteId == None && filterMonth == None
      ensures filterType == "all" && sortBy == "date_desc" && editingId == None
    {
      this.db := db;
      transactions := [];
      kind := "income";
      category := "";
      amount := Text("");
      showModal := false;
      loading := false;
      deleteId := None;
      filterMonth := None;
      filterType := "all";
      sortBy := "date_desc";
      editingId := None;
    }

    /** `fetchTransactions`: the answer replaces the whole list; a failed call
        (no data) leaves the list empty. */
    method Fetch(ok: bool)
      requires db.Valid()
      modifies this`transactions
      ensures Valid()
      ensures ok ==> IsAnswer(CurrentQuery(), db.transactions, transactions)
      ensures !ok ==> transactions == []
    {
      var q := BuildQuery(filterType, filterMonth, sortBy);
      if ok {
        transactions := db.Select(q);
      } else {
        transactions := [];
      }
    }

    /** The write of `handleSave`: `.update(…).eq("id", editingId)` when editing,
        `.insert([…])` otherwise, with `Number(amount)` as the amount. */
    method Write(writeOk: bool, now: int)
      requires Valid()
      modifies db
      ensures db.Valid()
      ensures db.transactions
        == SaveWrite(old(db.transactions), old(db.nextId), editingId, kind, category, amount, writeOk, now)
      ensures db.settings == old(db.settings)
    {
      var value := ToNumber(amount);
      if Truthy(editingId) {
        if writeOk && value.Some? {
          db.Update(editingId.value, kind, category, value.value);
        }
      } else {
        if writeOk && value.Some? {
          var id := db.Insert(kind, category, value.value, now);
        }
      }
    }

    /** `handleSave`. An empty category or a falsy amount is refused and nothing
        changes. Otherwise the form's row is written (see `SaveWrite`), the list is
        fetched again and the form is reset. The write's own outcome is not
        inspected: a failed write still resets the form. */
    method Save(writeOk: bool, now: int, fetchOk: bool) returns (accepted: bool)
      requires Valid()
      modifies this, db
      ensures Valid()
      ensures accepted <==> old(category) != "" && !Falsy(old(amount))
      ensures !accepted ==> unchanged(this) && unchanged(db)
      ensures accepted ==>
        db.transactions == SaveWrite(old(db.transactions), old(db.nextId), old(editingId),
                                     old(kind), old(category), old(amount), writeOk, now)
        && db.settings == old(db.settings)
      ensures accepted ==>
        category == "" && amount == Text("") && kind == "income" && editingId == None
        && !showModal && !loading
        && deleteId == old(deleteId) && filterMonth == old(filterMonth)
        && filterType == old(filterType) && sortBy == old(sortBy)
      ensures accepted && fetchOk ==> IsAnswer(CurrentQuery(), db.transactions, transactions)
      ensures accepted && !fetchOk ==> transactions == []
    {
      if category == "" || Falsy(amount) {
        return false;
      }
      accepted := true;
      loading := true;
      Write(writeOk, now);
      ghost var q := CurrentQuery();
      Fetch(fetchOk);
      assert Shows(q, db.transactions, transactions);
      category := "";
      amount := Text("");
      kind := "income";
      editingId := None;
      showModal := false;
      loading := false;
      assert CurrentQuery() == q;
    }

    /** `handleEdit`: the row's id, type, category and amount (as a number) go into
        the form, and the modal opens. */
    method Edit(t: Row)
      requires Valid()
      modifies this
      ensures Valid()
      ensures editingId == Some(t.id) && kind == t.kind && category == t.category
      ensures amount == Num(t.amount) && showModal
      ensures transactions == old(transactions) && loading == old(loading)
      ensures deleteId == old(deleteId) && filterMonth == old(filterMonth)
      ensures filterType == old(filterType) && sortBy == old(sortBy)
    {
      editingId := Some(t.id);
      kind := t.kind;
      category := t.category;
      amount := Num(t.amount);
      showModal := true;
    }

    /** "+ Add Transaction": leaves edit mode and opens the modal; the form keeps
        whatever it held. */
    method Add()
      requires Valid()
      modifies this
      ensures Valid()
      ensures editingId == None && showModal
      ensures kind == old(kind) && category == old(category) && amount == old(amount)
      ensures transactions == old(transactions) && loading == old(loading)
      ensures deleteId == old(deleteId) && filterMonth == old(filterMonth)
      ensures filterType == old(filterType) && sortBy == old(sortBy)
    {
      editingId := None;
      showModal := true;
    }

    /** The modal's Cancel: only the modal closes. */
    method CancelModal()
      requires Valid()
      modifies this`showModal
      ensures Valid()
      ensures !showModal
    {
      showModal := false;
    }

    /** A row's Delete button: asks for confirmation of that row's deletion. */
    method AskDelete(id: int)
      requires Valid()
      modifies this`deleteId
      ensures Valid()
      ensures deleteId == Some(id)
    {
      deleteId := Some(id);
    }

    /** The confirmation's Cancel: nothing is deleted. */
    method CancelDelete()
      requires Valid()
      modifies this`deleteId
      ensures Valid()
      ensures deleteId == None
    {
      deleteId := None;
    }

    /** `confirmDelete`: removes the row whose id is held in `deleteId` and no other,
        clears `deleteId` and fetches the list again. */
    method ConfirmDelete(deleteOk: bool, fetchOk: bool)
      requires Valid()
      modifies this`deleteId, this`transactions, db
      ensures Valid()
      ensures deleteId == None
      ensures db.transactions == (if deleteOk && old(deleteId).Some?
        then DeleteRow(old(db.transactions), old(deleteId).value)
        else old(db.transactions))
      ensures db.settings == old(db.settings) && db.nextId == old(db.nextId)
      ensures fetchOk ==> IsAnswer(CurrentQuery(), db.transactions, transactions)
      ensures !fetchOk ==> transactions == []
    {
      if deleteOk && deleteId.Some? {
        db.Delete(deleteId.value);
      }
      deleteId := None;
      Fetch(fetchOk);
    }

    method SetKind(v: string)
      requires Valid()
      modifies this`kind
      ensures Valid() && kind == v
    {
      kind := v;
    }

    method SetCategory(v: string)
      requires Valid()
      modifies this`category
      ensures Valid() && category == v
    {
      category := v;
    }

    /** The amount input holds the text typed into it. */
    method SetAmount(v: string)
      requires Valid()
      modifies this`amount
      ensures Valid() && amount == Text(v)
    {
      amount := Text(v);
    }

    /** A filter or sort change re-runs the fetch, and only when the value changed. */
    method SetFilterMonth(v: Option<YearMonth>, fetchOk: bool)
      requires Valid()
      modifies this`filterMonth, this`transactions
      ensures Valid() && filterMonth == v
      ensures v == old(filterMonth) ==> transactions == old(transactions)
      ensures v != old(filterMonth) && fetchOk ==> IsAnswer(CurrentQuery(), db.transactions, transactions)
      ensures v != old(filterMonth) && !fetchOk ==> transactions == []
    {
      if v != filterMonth {
        filterMonth := v;
        Fetch(fetchOk);
      }
    }

    method SetFilterType(v: string, fetchOk: bool)
      requires Valid()
      modifies this`filterType, this`transactions
      ensures Valid() && filterType == v
      ensures v == old(filterType) ==> transactions == old(transactions)
      ensures v != old(filterType) && fetchOk ==> IsAnswer(CurrentQuery(), db.transactions, transactions)
      ensures v != old(filterType) && !fetchOk ==> transactions == []
    {
      if v != filterType {
        filterType := v;
        Fetch(fetchOk);
      }
    }

    method SetSortBy(v: string, fetchOk: bool)
      requires Valid()
      modifies this`sortBy, this`transactions
      ensures Valid() && sortBy == v
      ensures v == old(sortBy) ==> transactions == old(transactions)
      ensures v != old(sortBy) && fetchOk ==> IsAnswer(CurrentQuery(), db.transactions, transactions)
      ensures v != old(sortBy) && !fetchOk ==> transactions == []
    {
      if v != sortBy {
        sortBy := v;
        Fetch(fetchOk);
      }
    }
  }
}
