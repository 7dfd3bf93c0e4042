/**
 * The hosted backend as an in-memory store: the `transactions` table as a map
 * from id to row, the `user_settings` table as a map from user id to row, and
 * the counter the server draws fresh ids from. Whether a call succeeds is
 * decided by the caller (an input of each view method); the store's methods
 * are the effects of calls that succeeded.
 */
module Store {
  import opened Values
  import opened Records
  import opened Query

  /** `.update({type, category, amount}).eq("id", id)`: only those three columns of
      the row with that id change; a missing id changes nothing. */
  function UpdateRow(table: map<int, Row>, id: int, kind: string, category: string, amount: int)
    : (t: map<int, Row>)
    ensures t.Keys == table.Keys
    ensures forall k :: k in table && k != id ==> t[k] == table[k]
    ensures id in table ==>
      t[id].id == table[id].id && t[id].createdAt == table[id].createdAt
      && t[id].kind == kind && t[id].category == category && t[id].amount == amount
  {
    if id in table then table[id := table[id].(kind := kind, category := category, amount := amount)]
    else table
  }

  /** `.delete().eq("id", id)`: exactly the row with that id goes. */
  function DeleteRow(table: map<int, Row>, id: int): (t: map<int, Row>)
    ensures t.Keys == table.Keys - {id}
    ensures forall k :: k in t ==> t[k] == table[k]
  {
    table - {id}
  }

  /** `.delete().neq("id", v)`: every row whose id differs from `v` goes. */
  function DeleteIdsOtherThan(table: map<int, Row>, v: int): (t: map<int, Row>)
    ensures t.Keys == table.Keys * {v}
    ensures forall k :: k in t ==> t[k] == table[k]
  {
    map k | k in table && k == v :: table[k]
  }

  class Backend {
    var transactions: map<int, Row>
    var settings: map<string, SettingsRow>
    var nextId: int

    /** Every row is stored under its own id, ids are positive and below the
        next fresh id, and every settings row is stored under its own user. */
    ghost predicate Valid()
      reads this
    {
      1 <= nextId
      && (forall id :: id in transactions ==> 1 <= id < nextId && transactions[id].id == id)
      && (forall u :: u in settings ==> settings[u].userId == u)
    }

    constructor ()
      ensures Valid()
      ensures transactions == map[] && settings == map[] && nextId == 1
    {
      transactions := map[];
      settings := map[];
      nextId := 1;
    }

    /** Runs a query: scans the table in an order of the server's choosing and
        answers with the matching rows in the order the query asks for. */
    method Select(q: Query) returns (rows: seq<Row>)
      requires Valid()
      ensures IsAnswer(q, transactions, rows)
    {
      var scan: seq<Row> := [];
      var rest := transactions.Keys;
      while exists k :: k in rest
        invariant rest <= transactions.Keys
        invariant forall i :: 0 <= i < |scan| ==>
          scan[i].id in transactions && transactions[scan[i].id] == scan[i] && scan[i].id !in rest
        invariant forall k :: k in transactions && k !in rest ==> transactions[k] in scan
        invariant NoDup(scan)
        decreases rest
      {
        var key :| key in rest;
        var row := transactions[key];
        assert row !in scan;
        NoDupCons(row, []);
        forall i, j | 0 <= i < j < |scan + [row]| ensures (scan + [row])[i] != (scan + [row])[j] {
          if j == |scan| { assert (scan + [row])[i] == scan[i]; }
        }
        scan := scan + [row];
        rest := rest - {key};
      }
      rows := Run(q, scan);
      forall i | 0 <= i < |rows|
        ensures rows[i].id in transactions && transactions[rows[i].id] == rows[i]
      {
        assert rows[i] in scan;
      }
    }

    /** Inserts a row; the server assigns a fresh id and the creation instant `now`. */
    method Insert(kind: string, category: string, amount: int, now: int) returns (id: int)
      requires Valid()
      modifies this
      ensures Valid()
      ensures id == old(nextId) && id !in old(transactions)
      ensures transactions == old(transactions)[id := Row(id, kind, category, amount, now)]
      ensures settings == old(settings)
    {
      id := nextId;
      transactions := transactions[id := Row(id, kind, category, amount, now)];
      nextId := nextId + 1;
    }

    method Update(id: int, kind: string, category: string, amount: int)
      requires Valid()
      modifies this
      ensures Valid()
      ensures transactions == UpdateRow(old(transactions), id, kind, category, amount)
      ensures settings == old(settings) && nextId == old(nextId)
    {
      transactions := UpdateRow(transactions, id, kind, category, amount);
    }

    method Delete(id: int)
      requires Valid()
      modifies this
      ensures Valid()
      ensures transactions == DeleteRow(old(transactions), id)
      ensures settings == old(settings) && nextId == old(nextId)
    {
      transactions := DeleteRow(transactions, id);
    }

    method DeleteWhereIdNot(v: int)
      requires Valid()
      modifies this
      ensures Valid()
      ensures transactions == DeleteIdsOtherThan(old(transactions), v)
      ensures settings == old(settings) && nextId == old(nextId)
    {
      transactions := DeleteIdsOtherThan(transactions, v);
    }

    /** `.upsert(row)` keyed on the user id. */
    method Upsert(row: SettingsRow)
      requires Valid()
      modifies this
      ensures Valid()
      ensures settings == old(settings)[row.userId := row]
      ensures transactions == old(transactions) && nextId == old(nextId)
    {
      settings := settings[row.userId := row];
    }

    /** `.select("*").eq("user_id", user).single()`: the one row of that user, if any. */
    method SelectSettings(user: string) returns (r: Option<SettingsRow>)
      requires Valid()
      ensures r.Some? <==> user in settings
      ensures r.Some? ==> r.value == settings[user] && r.value.userId == user
    {
      r := if user in settings then Some(settings[user]) else None;
    }
  }

  /** Rows carry positive ids, so deleting every id other than 0 empties the table. */
  lemma DeleteAllButZeroEmpties(table: map<int, Row>)
    requires forall id :: id in table ==> 1 <= id
    ensures DeleteIdsOtherThan(table, 0) == map[]
  {
    var t := DeleteIdsOtherThan(table, 0);
    assert t.Keys == {};
  }
}
