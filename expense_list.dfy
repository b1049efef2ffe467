/** The expense list of App.tsx as values: the `map` of `toggleStatus`, the
    `filter` of `deleteExpense`, the record `handleSubmit` prepends, the
    dashboard's filter-and-sum totals, and the seed list used on first run. */
module ExpenseList {
  import opened Wrappers
  import opened Types

  /** The other status. */
  function Flip(s: PaymentStatus): (r: PaymentStatus)
    ensures r != s
  {
    if s == Paid then Pending else Paid
  }

  /** Some record in `list` has identifier `id`. */
  predicate HasId(list: seq<Expense>, id: string) {
    exists i :: 0 <= i < |list| && list[i].id == id
  }

  /** No two records share an identifier. */
  predicate UniqueIds(list: seq<Expense>) {
    forall i, j :: 0 <= i < j < |list| ==> list[i].id != list[j].id
  }

  /** The callback of `prev.map`: a record with the id gets the other status. */
  function ToggleOne(e: Expense, id: string): (r: Expense)
    ensures r == e.(status := r.status)
    ensures r.status == (if e.id == id then Flip(e.status) else e.status)
  {
    if e.id == id then e.(status := Flip(e.status)) else e
  }

  /** `prev.map(...)` in `toggleStatus(id)`: same length and order, every
      record with the id flipped, every other record as it was. */
  function ToggleStatus(list: seq<Expense>, id: string): (r: seq<Expense>)
    ensures |r| == |list|
    ensures forall i :: 0 <= i < |list| ==>
      r[i] == (if list[i].id == id then list[i].(status := Flip(list[i].status)) else list[i])
  {
    if list == [] then [] else [ToggleOne(list[0], id)] + ToggleStatus(list[1..], id)
  }

  /** Toggling the same id twice restores the list. */
  lemma {:induction false} ToggleStatusTwice(list: seq<Expense>, id: string)
    ensures ToggleStatus(ToggleStatus(list, id), id) == list
  {
    var r := ToggleStatus(ToggleStatus(list, id), id);
    assert forall i :: 0 <= i < |list| ==> r[i] == list[i];
  }

  /** Toggling an id no record has changes nothing. */
  lemma ToggleStatusAbsent(list: seq<Expense>, id: string)
    requires !HasId(list, id)
    ensures ToggleStatus(list, id) == list
  {
    var r := ToggleStatus(list, id);
    assert forall i :: 0 <= i < |list| ==> r[i] == list[i];
  }

  /** `prev.filter(e => e.id !== id)` in `deleteExpense(id)`. */
  function DeleteExpense(list: seq<Expense>, id: string): (r: seq<Expense>)
    ensures |r| <= |list|
    ensures !HasId(r, id)
    ensures forall e :: e in r <==> e in list && e.id != id
    ensures forall e :: multiset(r)[e] == (if e.id == id then 0 else multiset(list)[e])
  {
    if list == [] then []
    else
      assert list == [list[0]] + list[1..];
      if list[0].id == id then DeleteExpense(list[1..], id)
      else [list[0]] + DeleteExpense(list[1..], id)
  }

  /** `a` is `b` with some elements left out, the rest in their order. */
  predicate IsSubsequence(a: seq<Expense>, b: seq<Expense>)
    decreases |b|
  {
    if a == [] then true
    else if b == [] then false
    else if a[0] == b[0] then IsSubsequence(a[1..], b[1..])
    else IsSubsequence(a, b[1..])
  }

  /** Deletion keeps the remaining records in their original order. */
  lemma {:induction false} DeleteKeepsOrder(list: seq<Expense>, id: string)
    ensures IsSubsequence(DeleteExpense(list, id), list)
  {
    if list != [] {
      DeleteKeepsOrder(list[1..], id);
      var rest := DeleteExpense(list[1..], id);
      if list[0].id != id {
        assert ([list[0]] + rest)[1..] == rest;
      } else {
        SubsequenceSkip(rest, list[0], list[1..]);
      }
    }
  }

  /** A subsequence of the tail is a subsequence of the whole. */
  lemma {:induction false} SubsequenceSkip(a: seq<Expense>, x: Expense, b: seq<Expense>)
    requires IsSubsequence(a, b)
    ensures IsSubsequence(a, [x] + b)
    decreases |b|, 1
  {
    assert ([x] + b)[1..] == b;
    if a != [] && a[0] == x {
      // matched greedily against x; the rest of a is still in b
      SubsequenceTail(a, b);
    }
  }

  /** Dropping the head of a subsequence keeps it a subsequence. */
  lemma {:induction false} SubsequenceTail(a: seq<Expense>, b: seq<Expense>)
    requires a != [] && IsSubsequence(a, b)
    ensures IsSubsequence(a[1..], b)
    decreases |b|, 0
  {
    if a[0] != b[0] {
      SubsequenceTail(a, b[1..]);
      SubsequenceSkip(a[1..], b[0], b[1..]);
      assert [b[0]] + b[1..] == b;
    } else {
      SubsequenceSkip(a[1..], b[0], b[1..]);
      assert [b[0]] + b[1..] == b;
    }
  }

  /** Deleting an id no record has changes nothing. */
  lemma {:induction false} DeleteExpenseAbsent(list: seq<Expense>, id: string)
    requires !HasId(list, id)
    ensures DeleteExpense(list, id) == list
  {
    if list != [] {
      DeleteExpenseAbsent(list[1..], id);
      assert [list[0]] + list[1..] == list;
    }
  }

  /** Deletion keeps identifiers unique. */
  lemma {:induction false} DeletePreservesUniqueIds(list: seq<Expense>, id: string)
    requires UniqueIds(list)
    ensures UniqueIds(DeleteExpense(list, id))
  {
    if list != [] {
      var tail := list[1..];
      assert UniqueIds(tail) by {
        forall i, j | 0 <= i < j < |tail| ensures tail[i].id != tail[j].id {
          assert tail[i] == list[i + 1] && tail[j] == list[j + 1];
        }
      }
      DeletePreservesUniqueIds(tail, id);
      if list[0].id != id {
        assert !HasId(tail, list[0].id) by {
          forall k | 0 <= k < |tail| ensures tail[k].id != list[0].id {
            assert tail[k] == list[k + 1];
          }
        }
        DeleteKeepsMissingId(tail, id, list[0].id);
        PrependPreservesUniqueIds(list[0], DeleteExpense(tail, id));
      }
    }
  }

  /** An id absent from the list is absent after a deletion. */
  lemma DeleteKeepsMissingId(list: seq<Expense>, id: string, x: string)
    requires !HasId(list, x)
    ensures !HasId(DeleteExpense(list, id), x)
  {
    var r := DeleteExpense(list, id);
    forall k | 0 <= k < |r| ensures r[k].id != x {
      assert r[k] in list;
    }
  }

  /** The record `handleSubmit` builds: the draft's fields with a fresh id
      and creation time. */
  function NewExpense(d: ExpenseDraft, id: string, createdAt: int): (e: Expense)
    ensures e.description == d.description && e.amount == d.amount && e.dueDate == d.dueDate
    ensures e.status == d.status && e.receiptBase64 == d.receiptBase64
    ensures e.id == id && e.createdAt == createdAt
  {
    Expense(id, d.description, d.amount, d.dueDate, d.status, d.receiptBase64, createdAt)
  }

  /** Prepending a record with a fresh id keeps identifiers unique. */
  lemma PrependPreservesUniqueIds(e: Expense, list: seq<Expense>)
    requires UniqueIds(list) && !HasId(list, e.id)
    ensures UniqueIds([e] + list)
  {
    var r := [e] + list;
    forall i, j | 0 <= i < j < |r| ensures r[i].id != r[j].id {
      assert r[j] == list[j - 1];
      if i > 0 { assert r[i] == list[i - 1]; }
    }
  }

  /** `reduce((acc, cur) => acc + cur.amount, 0)`. */
  function SumAmounts(list: seq<Expense>): (r: real)
    ensures (forall i :: 0 <= i < |list| ==> list[i].amount >= 0.0) ==> r >= 0.0
  {
    if list == [] then 0.0 else list[0].amount + SumAmounts(list[1..])
  }

  /** `filter(e => e.status === s)`. */
  function WithStatus(list: seq<Expense>, s: PaymentStatus): (r: seq<Expense>)
    ensures forall e :: e in r <==> e in list && e.status == s
    ensures forall e :: multiset(r)[e] == (if e.status == s then multiset(list)[e] else 0)
  {
    if list == [] then []
    else
      assert list == [list[0]] + list[1..];
      if list[0].status == s then [list[0]] + WithStatus(list[1..], s)
      else WithStatus(list[1..], s)
  }

  /** The amounts of the records with status `s`, added in one pass: the
      reference the filter-then-sum totals are checked against. */
  function SumWithStatus(list: seq<Expense>, s: PaymentStatus): real {
    if list == [] then 0.0
    else (if list[0].status == s then list[0].amount else 0.0) + SumWithStatus(list[1..], s)
  }

  /** Filtering then summing is summing the amounts of the matching records. */
  lemma {:induction false} FilterThenSum(list: seq<Expense>, s: PaymentStatus)
    ensures SumAmounts(WithStatus(list, s)) == SumWithStatus(list, s)
  {
    if list != [] {
      FilterThenSum(list[1..], s);
      if list[0].status == s {
        assert ([list[0]] + WithStatus(list[1..], s))[1..] == WithStatus(list[1..], s);
      }
    }
  }

  /** The dashboard's "Total Pago": the sum of the amounts of PAID records. */
  function PaidTotal(list: seq<Expense>): (r: real)
    ensures r == SumWithStatus(list, Paid)
  {
    FilterThenSum(list, Paid);
    SumAmounts(WithStatus(list, Paid))
  }

  /** The dashboard's "Pendente": the sum of the amounts of PENDING records. */
  function PendingTotal(list: seq<Expense>): (r: real)
    ensures r == SumWithStatus(list, Pending)
  {
    FilterThenSum(list, Pending);
    SumAmounts(WithStatus(list, Pending))
  }

  /** Paid and pending together account for every amount. */
  lemma {:induction false} TotalsPartition(list: seq<Expense>)
    ensures PaidTotal(list) + PendingTotal(list) == SumAmounts(list)
  {
    if list != [] {
      TotalsPartition(list[1..]);
    }
  }

  /** The totals after prepending a record: its amount joins its own group. */
  lemma PrependTotals(e: Expense, list: seq<Expense>)
    ensures PaidTotal([e] + list) == PaidTotal(list) + (if e.status == Paid then e.amount else 0.0)
    ensures PendingTotal([e] + list) == PendingTotal(list) + (if e.status == Pending then e.amount else 0.0)
  {
    assert ([e] + list)[1..] == list;
  }

  /** Toggling moves amounts between the groups and keeps the grand total. */
  lemma {:induction false} ToggleStatusKeepsSum(list: seq<Expense>, id: string)
    ensures SumAmounts(ToggleStatus(list, id)) == SumAmounts(list)
  {
    if list != [] {
      ToggleStatusKeepsSum(list[1..], id);
      assert ToggleStatus(list, id)[1..] == ToggleStatus(list[1..], id);
    }
  }

  /** INITIAL_EXPENSES, with `Date.now()` given as `now`. */
  function InitialExpenses(now: int): (r: seq<Expense>)
    ensures |r| == 2 && r[0].id == "1" && r[1].id == "2"
    ensures r[0].status == Paid && r[0].amount == 1250.00 && r[0].dueDate == "2025-09-10"
    ensures r[1].status == Pending && r[1].amount == 250.00 && r[1].dueDate == "2025-09-15"
    ensures r[0].createdAt < r[1].createdAt
  {
    [ Expense("1", "Parcela Mensal 09/2025", 1250.00, "2025-09-10", Paid, None, now - 10000000),
      Expense("2", "Manutenção Ar Condicionado", 250.00, "2025-09-15", Pending, None, now) ]
  }

  /** The seed has distinct ids and totals 1250.00 paid and 250.00 pending. */
  lemma InitialExpensesTotals(now: int)
    ensures UniqueIds(InitialExpenses(now))
    ensures PaidTotal(InitialExpenses(now)) == 1250.00
    ensures PendingTotal(InitialExpenses(now)) == 250.00
  {
    var l := InitialExpenses(now);
    assert l[1..] == [l[1]] && [l[1]][1..] == [];
    assert WithStatus([l[1]], Paid) == [];
    assert WithStatus([l[1]], Pending) == [l[1]];
    assert WithStatus(l, Paid) == [l[0]];
    assert WithStatus(l, Pending) == [l[1]];
    assert [l[0]][1..] == [];
    assert SumAmounts([l[0]]) == l[0].amount + SumAmounts([]);
  }

  /** The `useState` initialiser: the stored document when there is a
      non-empty one (decoded by `decode`, which stands for `JSON.parse`),
      the seed otherwise. */
  function LoadExpenses(saved: Option<string>, decode: string -> seq<Expense>, now: int): (r: seq<Expense>)
    ensures saved.None? || saved == Some("") ==> r == InitialExpenses(now)
    ensures saved.Some? && saved.value != "" ==> r == decode(saved.value)
  {
    if saved.Some? && saved.value != "" then decode(saved.value) else InitialExpenses(now)
  }
}
