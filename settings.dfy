/**
 * The settings page: the monthly budget and currency of the signed-in user,
 * loaded with defaults and saved back with an upsert, and the confirmed
 * deletion of every transaction.
 */
module Settings {
  import opened Values
  import opened Records
  import opened Store

  /** `data.monthly_budget || ""`: a stored null or 0 shows an empty input, any
      other number shows that number. */
  function LoadedBudget(stored: Option<int>): (f: Field)
    ensures Falsy(f) <==> stored.None? || stored.value == 0
    ensures Falsy(f) ==> f == Text("")
    ensures !Falsy(f) ==> ToNumber(f) == stored
  {
    match stored
    case None => Text("")
    case Some(v) => if v == 0 then Text("") else Num(v)
  }

  /** `data.currency || "IDR"`: a null or empty currency falls back to "IDR". */
  function LoadedCurrency(stored: string): (c: string)
    ensures c != ""
    ensures stored != "" ==> c == stored
    ensures stored == "" ==> c == "IDR"
  {
    if stored != "" then stored else "IDR"
  }

  /** The upserted row `{user_id, monthly_budget: Number(budget), currency}`; a
      budget that is not a number is sent as NaN, which reaches the table as null. */
  function SavePayload(user: string, budget: Field, currency: string): (row: SettingsRow)
    ensures row.userId == user && row.currency == currency
    ensures row.monthlyBudget == ToNumber(budget)
    ensures budget == Text("") ==> row.monthlyBudget == Some(0)
  {
    SettingsRow(user, ToNumber(budget), currency)
  }

  /** Loading a budget and saving it again stores the same number, except that a
      null budget comes back as 0. */
  lemma BudgetReload(stored: Option<int>, user: string, currency: string)
    ensures SavePayload(user, LoadedBudget(stored), currency).monthlyBudget
         == Some(if stored.None? then 0 else stored.value)
  {
  }

  /** Saving an empty budget stores 0, and loading that back shows an empty input again. */
  lemma EmptyBudgetRoundTrip(user: string, currency: string)
    ensures SavePayload(user, Text(""), currency).monthlyBudget == Some(0)
    ensures LoadedBudget(SavePayload(user, Text(""), currency).monthlyBudget) == Text("")
  {
  }

  /** A nonzero budget typed as text is stored as that number and loaded back as it. */
  lemma TypedBudgetRoundTrip(n: int, user: string, currency: string)
    requires n != 0
    ensures LoadedBudget(SavePayload(user, Text(Show(n)), currency).monthlyBudget) == Num(n)
  {
    ParseShow(n);
  }

  /** A nonempty currency survives a save and a load. */
  lemma CurrencyRoundTrip(user: string, budget: Field, currency: string)
    requires currency != ""
    ensures LoadedCurrency(SavePayload(user, budget, currency).currency) == currency
  {
  }

  /** The settings page's state. */
  class SettingsView {
    const db: Backend
    var budget: Field
    var currency: string
    var loading: bool

    ghost predicate Valid()
      reads this, db
    {
      db.Valid()
    }

    /** The `useState` defaults of `src/pages/Settings.jsx` (lines 6-8). */
    constructor (db: Backend)
      requires db.Valid()
      ensures Valid() && this.db == db
      ensures budget == Text("") && currency == "IDR" && !loading
    {
      this.db := db;
      budget := Text("");
      currency := "IDR";
      loading := false;
    }

    /** `fetchSettings` for the signed-in `user`: when the call answers with the
        user's row, the form shows its values with the defaults for falsy ones;
        otherwise the form keeps what it holds. */
    method Load(user: string, ok: bool)
      requires Valid()
      modifies this`budget, this`currency
      ensures Valid()
      ensures ok && user in db.settings ==>
        budget == LoadedBudget(db.settings[user].monthlyBudget)
        && currency == LoadedCurrency(db.settings[user].currency)
      ensures !(ok && user in db.settings) ==> budget == old(budget) && currency == old(currency)
    {
      if ok {
        var data := db.SelectSettings(user);
        if data.Some? {
          budget := LoadedBudget(data.value.monthlyBudget);
          currency := LoadedCurrency(data.value.currency);
        }
      }
    }

    /** The budget input: it holds the typed text. */
    method SetBudget(v: string)
      requires Valid()
      modifies this`budget
      ensures Valid() && budget == Text(v)
    {
      budget := Text(v);
    }

    /** The currency selector. */
    method SetCurrency(v: string)
      requires Valid()
      modifies this`currency
      ensures Valid() && currency == v
    {
      currency := v;
    }

    /** The first half of `saveSettings`: the loading flag goes up and the payload
        is built from the form. */
    method BeginSave(user: string) returns (payload: SettingsRow)
      requires Valid()
      modifies this`loading
      ensures Valid() && loading
      ensures payload == SavePayload(user, budget, currency)
    {
      loading := true;
      payload := SavePayload(user, budget, currency);
    }

    /** The second half of `saveSettings`: the upsert takes effect if the call
        succeeded, and the loading flag comes down either way. */
    method FinishSave(payload: SettingsRow, ok: bool) returns (saved: bool)
      requires Valid()
      modifies this`loading, db
      ensures Valid() && !loading && saved == ok
      ensures db.settings == (if ok then old(db.settings)[payload.userId := payload] else old(db.settings))
      ensures db.transactions == old(db.transactions) && db.nextId == old(db.nextId)
    {
      if ok {
        db.Upsert(payload);
      }
      loading := false;
      saved := ok;
    }

    /** `saveSettings` as a whole. */
    method SaveSettings(user: string, ok: bool) returns (saved: bool)
      requires Valid()
      modifies this`loading, db
      ensures Valid() && !loading && saved == ok
      ensures db.settings == (if ok then old(db.settings)[user := SavePayload(user, budget, currency)]
                              else old(db.settings))
      ensures db.transactions == old(db.transactions) && db.nextId == old(db.nextId)
    {
      var payload := BeginSave(user);
      saved := FinishSave(payload, ok);
    }

    /** `clearTransactions`: nothing happens unless the user confirms; a confirmed
        and successful `.delete().neq("id", 0)` removes every transaction. */
    method ClearTransactions(confirmed: bool, ok: bool) returns (cleared: bool)
      requires Valid()
      modifies db
      ensures Valid()
      ensures cleared <==> confirmed && ok
      ensures cleared ==>
        db.transactions == DeleteIdsOtherThan(old(db.transactions), 0) && db.transactions == map[]
      ensures !cleared ==> db.transactions == old(db.transactions)
      ensures db.settings == old(db.settings) && db.nextId == old(db.nextId)
    {
      if !confirmed {
        return false;
      }
      if ok {
        DeleteAllButZeroEmpties(db.transactions);
        db.DeleteWhereIdNot(0);
      }
      cleared := ok;
    }
  }
}
