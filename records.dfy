/** The two tables the client reads and writes. */
module Records {
  import opened Values

  /** A row of the `transactions` table. `createdAt` is the server-assigned
      instant of the insert, in milliseconds since 1970-01-01T00:00Z. */
  datatype Row = Row(id: int, kind: string, category: string, amount: int, createdAt: int)

  /** A row of the `user_settings` table, keyed on `userId`; a `monthlyBudget`
      of None is SQL null. A null `currency` is represented by "". */
  datatype SettingsRow = SettingsRow(userId: string, monthlyBudget: Option<int>, currency: string)
}
