/**
 * The personal expense record of `lib/mocks/personal-expenses.ts`: dates and
 * creation times are the ISO texts the source stores, and the amount is kept
 * in integer cents (no rule modelled here reads it).
 */
module Records {
  import opened Wrappers

  /** `"expense" | "income"` */
  datatype ExpenseType = Expense | Income

  datatype PersonalExpense = PersonalExpense(
    id: string,
    userId: string,
    amountCents: int,
    date: string,        // `YYYY-MM-DD`
    category: string,
    note: Option<string>,
    kind: ExpenseType,
    createdAt: string    // ISO date-time
  )
}
