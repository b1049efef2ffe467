/** The records of types.ts: a persisted expense and the draft the entry form edits. */
module Types {
  import opened Wrappers

  /** PaymentStatus: `PENDING` and `PAID`. */
  datatype PaymentStatus = Pending | Paid

  /** A persisted expense record. `amount` is a decimal (a real, not a float);
      `dueDate` is the `YYYY-MM-DD` text the date input produces; `createdAt`
      is the `Date.now()` millisecond count at creation. */
  datatype Expense = Expense(
    id: string,
    description: string,
    amount: real,
    dueDate: string,
    status: PaymentStatus,
    receiptBase64: Option<string>,
    createdAt: int)

  /** The in-progress entry form: an expense without `id` and `createdAt`. */
  datatype ExpenseDraft = ExpenseDraft(
    description: string,
    amount: real,
    dueDate: string,
    status: PaymentStatus,
    receiptBase64: Option<string>)

  /** `Partial<ExpenseDraft>`: every key may be absent (`None`). */
  datatype PartialDraft = PartialDraft(
    description: Option<string>,
    amount: Option<real>,
    dueDate: Option<string>,
    status: Option<PaymentStatus>,
    receiptBase64: Option<string>)

  /** The object literal `{}`. */
  const EmptyPartial := PartialDraft(None, None, None, None, None)
}
