/** The state of the App component in App.tsx: the expense list, the entry
    draft and the copy of the list in local storage, with one method per
    handler that updates them. Each state setter is followed by the effects
    React runs for it: the storage write after a list change and the
    smart-description rule after a `dueDate` change. */
module App {
  import opened Wrappers
  import opened Types
  import ExpenseList
  import opened Drafts
  import opened GeminiService

  /** What `e.target.files?.[0]` and `fileToBase64` produced: no file
      chosen, a read that rejected, or the file as a data URI. */
  datatype FileSelection = NoFile | ReadFailed | Read(dataUri: string)

  class ExpenseTracker {
    /** The `expenses` state. */
    var expenses: seq<Expense>
    /** The `draft` state behind the entry form. */
    var draft: ExpenseDraft
    /** The list last written under the key 'apto_expenses_v1'; its JSON
        text is not modelled. */
    ghost var stored: seq<Expense>

    /** Storage mirrors the list after every change. */
    ghost predicate Valid()
      reads this
    {
      stored == expenses
    }

    /** Mounting the component: load the list or the seed, build the
        initial draft for today, then run both effects once. */
    constructor (saved: Option<string>, decode: string -> seq<Expense>, now: int, iso: string)
      ensures Valid()
      ensures expenses == ExpenseList.LoadExpenses(saved, decode, now)
      ensures draft == InitialDraft(iso)
    {
      expenses := ExpenseList.LoadExpenses(saved, decode, now);
      draft := SmartDescription(ExpenseDraft("", 0.0, DatePart(iso), Pending, Some("")));
      stored := expenses;
    }

    /** `setDraft(next)` followed by the smart-description effect. */
    method UpdateDraft(next: ExpenseDraft)
      modifies this`draft
      ensures draft == AfterDraftUpdate(old(draft), next)
    {
      var prev := draft;
      draft := next;
      if draft.dueDate != prev.dueDate {
        draft := SmartDescription(draft);
      }
    }

    /** `setExpenses(next)` followed by the storage effect. */
    method UpdateExpenses(next: seq<Expense>)
      modifies this`expenses, this`stored
      ensures expenses == next && Valid()
    {
      expenses := next;
      stored := expenses;
    }

    /** `toggleStatus(id)`. */
    method ToggleStatus(id: string)
      requires Valid()
      modifies this
      ensures Valid() && draft == old(draft)
      ensures expenses == ExpenseList.ToggleStatus(old(expenses), id)
      ensures ExpenseList.UniqueIds(old(expenses)) ==> ExpenseList.UniqueIds(expenses)
      ensures ExpenseList.SumAmounts(expenses) == ExpenseList.SumAmounts(old(expenses))
    {
      UpdateExpenses(ExpenseList.ToggleStatus(expenses, id));
      ExpenseList.ToggleStatusKeepsSum(old(expenses), id);
    }

    /** `deleteExpense(id)`; `confirmed` is the user's answer to `confirm()`. */
    method DeleteExpense(id: string, confirmed: bool)
      requires Valid()
      modifies this
      ensures Valid() && draft == old(draft)
      ensures expenses == if confirmed then ExpenseList.DeleteExpense(old(expenses), id) else old(expenses)
      ensures confirmed ==> !ExpenseList.HasId(expenses, id)
      ensures ExpenseList.UniqueIds(old(expenses)) ==> ExpenseList.UniqueIds(expenses)
    {
      if confirmed {
        if ExpenseList.UniqueIds(expenses) {
          ExpenseList.DeletePreservesUniqueIds(expenses, id);
        }
        UpdateExpenses(ExpenseList.DeleteExpense(expenses, id));
      }
    }

    /** `handleSubmit`: prepend the record built from the draft, then reset
        the draft for today. `id` and `createdAt` stand for
        `crypto.randomUUID()` and `Date.now()`, `iso` for the current ISO
        timestamp. */
    method HandleSubmit(id: string, createdAt: int, iso: string)
      requires Valid()
      requires !ExpenseList.HasId(expenses, id)
      modifies this
      ensures Valid()
      ensures expenses == [ExpenseList.NewExpense(old(draft), id, createdAt)] + old(expenses)
      ensures draft == ResetDraft(iso)
      ensures ExpenseList.UniqueIds(old(expenses)) ==> ExpenseList.UniqueIds(expenses)
    {
      var e := ExpenseList.NewExpense(draft, id, createdAt);
      if ExpenseList.UniqueIds(expenses) {
        ExpenseList.PrependPreservesUniqueIds(e, expenses);
      }
      UpdateExpenses([e] + expenses);
      ResetIsStable(draft, iso);
      UpdateDraft(ResetDraft(iso));
    }

    /** `handleFileUpload`: with a file read to a data URI, attach it, then
        merge what the analysis returned; a failed read changes nothing (the
        source shows an alert), a failed analysis is swallowed. */
    method HandleFileUpload(
      file: FileSelection,
      generate: (Option<string>, Option<string>) -> CallOutcome,
      parse: string -> Option<Reply>)
      requires Valid()
      modifies this
      ensures Valid() && expenses == old(expenses)
      ensures draft == match file
        case Read(uri) => AttachReceipt(old(draft), uri, AnalyzeReceipt(uri, generate, parse))
        case _ => old(draft)
      ensures file.Read? ==> draft.receiptBase64 == Some(file.dataUri)
    {
      match file
      case NoFile =>
      case ReadFailed =>
      case Read(uri) =>
        UpdateDraft(draft.(receiptBase64 := Some(uri)));
        var analysis := AnalyzeReceipt(uri, generate, parse);
        if analysis.Some? {
          UpdateDraft(Merge(draft, analysis.value));
        }
        AttachKeepsReceipt(old(draft), uri, generate, parse);
    }

    /** The date input's `onChange`. */
    method SetDueDate(date: string)
      requires Valid()
      modifies this
      ensures Valid() && expenses == old(expenses)
      ensures draft == WithDueDate(old(draft), date)
    {
      UpdateDraft(draft.(dueDate := date));
    }

    /** The amount input's `onChange`, with `parseFloat` given as `amount`. */
    method SetAmount(amount: real)
      requires Valid()
      modifies this
      ensures Valid() && expenses == old(expenses)
      ensures draft == old(draft).(amount := amount)
    {
      UpdateDraft(draft.(amount := amount));
    }

    /** The description input's `onChange`. */
    method SetDescription(text: string)
      requires Valid()
      modifies this
      ensures Valid() && expenses == old(expenses)
      ensures draft == old(draft).(description := text)
    {
      UpdateDraft(draft.(description := text));
    }

    /** The "Pendente" and "Pago" buttons. */
    method SetStatus(s: PaymentStatus)
      requires Valid()
      modifies this
      ensures Valid() && expenses == old(expenses)
      ensures draft == old(draft).(status := s)
    {
      UpdateDraft(draft.(status := s));
    }

    /** The "Remover" button of the attached receipt. */
    method RemoveReceipt()
      requires Valid()
      modifies this
      ensures Valid() && expenses == old(expenses)
      ensures draft == old(draft).(receiptBase64 := Some(""))
    {
      UpdateDraft(draft.(receiptBase64 := Some("")));
    }

    /** The dashboard's two totals over the whole list. */
    method Totals() returns (paid: real, pending: real)
      ensures paid == ExpenseList.SumAmounts(ExpenseList.WithStatus(expenses, Paid))
      ensures pending == ExpenseList.SumAmounts(ExpenseList.WithStatus(expenses, Pending))
      ensures paid + pending == ExpenseList.SumAmounts(expenses)
    {
      paid := ExpenseList.PaidTotal(expenses);
      pending := ExpenseList.PendingTotal(expenses);
      ExpenseList.TotalsPartition(expenses);
    }
  }
}
