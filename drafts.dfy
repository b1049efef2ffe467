/** The entry-form draft of App.tsx: the smart-description effect, the
    spread merge of an analysis result, the attach-then-analyse sequence of
    `handleFileUpload` and the reset after `handleSubmit`. */
module Drafts {
  import opened Wrappers
  import opened Strings
  import opened Types
  import opened GeminiService

  /** The text a generated description starts with. */
  const MonthlyPrefix: string := "Parcela Mensal"

  /** `iso.split('T')[0]`: the date part of `new Date().toISOString()`. */
  function DatePart(iso: string): (d: string)
    ensures d <= iso && 'T' !in d
    ensures 'T' !in iso ==> d == iso
    ensures 'T' in iso ==> |d| < |iso| && iso[|d|] == 'T'
  {
    Split(iso, 'T')[0]
  }

  /** The date part of `<date>T<time>` is `<date>`. */
  lemma DatePartOf(iso: string, date: string, time: string)
    requires 'T' !in date
    requires iso == date + "T" + time
    ensures DatePart(iso) == date
  {
    assert iso == date + ['T'] + time;
    SplitFirst(date, 'T', time);
  }

  /** `Parcela Mensal ${month}/${year}` with `[year, month] = date.split('-')`. */
  function MonthlyDescription(date: string): (r: string)
    ensures StartsWith(r, MonthlyPrefix)
  {
    var parts := Split(date, '-');
    "Parcela Mensal " + Interp(At(parts, 1)) + "/" + parts[0]
  }

  /** For a date `Y-M-D` the description is "Parcela Mensal M/Y". */
  lemma MonthlyDescriptionOf(date: string, y: string, m: string, d: string)
    requires '-' !in y && '-' !in m && '-' !in d
    requires date == y + "-" + m + "-" + d
    ensures MonthlyDescription(date) == "Parcela Mensal " + m + "/" + y
  {
    var parts := [y, m, d];
    assert Join(parts[1..][1..], '-') == d;
    assert Join(parts, '-') == date;
    SplitJoin(parts, '-');
  }

  /** A date without a dash has no month: the template prints "undefined". */
  lemma MonthlyDescriptionWithoutMonth(date: string)
    requires '-' !in date
    ensures MonthlyDescription(date) == "Parcela Mensal undefined/" + date
  {
  }

  lemma MonthlyDescriptionExample(date: string)
    requires date == "2025-09-10"
    ensures MonthlyDescription(date) == "Parcela Mensal 09/2025"
  {
    var y, m, d := "2025", "09", "10";
    assert '-' !in y && '-' !in m && '-' !in d;
    assert date == y + "-" + m + "-" + d;
    MonthlyDescriptionOf(date, y, m, d);
    assert "Parcela Mensal " + m + "/" + y == "Parcela Mensal 09/2025";
  }

  /** The update the smart-description effect applies: with a non-empty
      `dueDate`, an empty description or one starting with "Parcela Mensal"
      is regenerated from the date; anything else is left alone. */
  function SmartDescription(d: ExpenseDraft): (r: ExpenseDraft)
    ensures r == d.(description := r.description)
    ensures d.dueDate == "" ==> r == d
    ensures r.description != d.description ==> r.description == MonthlyDescription(d.dueDate)
    ensures d.dueDate != "" && (d.description == "" || StartsWith(d.description, MonthlyPrefix)) ==>
      r.description == MonthlyDescription(d.dueDate)
    ensures d.description != "" && !StartsWith(d.description, MonthlyPrefix) ==> r == d
  {
    if d.dueDate == "" then d
    else if d.description == "" || StartsWith(d.description, MonthlyPrefix) then
      d.(description := MonthlyDescription(d.dueDate))
    else d
  }

  /** React runs the effect, which depends on `draft.dueDate`, after a draft
      update exactly when `dueDate` changed. */
  function AfterDraftUpdate(prev: ExpenseDraft, next: ExpenseDraft): (r: ExpenseDraft)
    ensures r == next.(description := r.description)
    ensures next.dueDate == prev.dueDate ==> r == next
    ensures next.dueDate != prev.dueDate ==> r == SmartDescription(next)
  {
    if next.dueDate != prev.dueDate then SmartDescription(next) else next
  }

  /** The date input's `onChange`, followed by the effect. */
  function WithDueDate(d: ExpenseDraft, date: string): (r: ExpenseDraft)
    ensures r == d.(dueDate := date, description := r.description)
    ensures date != d.dueDate && date != "" && (d.description == "" || StartsWith(d.description, MonthlyPrefix)) ==>
      r.description == MonthlyDescription(date)
    ensures !(date != d.dueDate && date != "" && (d.description == "" || StartsWith(d.description, MonthlyPrefix))) ==>
      r.description == d.description
  {
    AfterDraftUpdate(d, d.(dueDate := date))
  }

  /** A draft whose description is the one generated from its own date. */
  predicate Consistent(d: ExpenseDraft) {
    d.description == MonthlyDescription(d.dueDate)
  }

  /** Applying the rule a second time changes nothing. */
  lemma SmartDescriptionIdempotent(d: ExpenseDraft)
    ensures SmartDescription(SmartDescription(d)) == SmartDescription(d)
  {
  }

  /** While the description is the generated one, it follows every
      non-empty date the user picks. */
  lemma WithDueDateKeepsConsistent(d: ExpenseDraft, date: string)
    requires Consistent(d) && date != ""
    ensures Consistent(WithDueDate(d, date))
    ensures WithDueDate(d, date).dueDate == date
  {
  }

  /** Picking the dates `dates` one after another. */
  function WithDueDates(d: ExpenseDraft, dates: seq<string>): ExpenseDraft
    decreases |dates|
  {
    if dates == [] then d else WithDueDates(WithDueDate(d, dates[0]), dates[1..])
  }

  /** Once customised, a description (non-empty and not starting with
      "Parcela Mensal") survives any sequence of date changes, and only the
      date and description can have been touched. */
  lemma {:induction false} CustomDescriptionSticks(d: ExpenseDraft, dates: seq<string>)
    requires d.description != "" && !StartsWith(d.description, MonthlyPrefix)
    ensures WithDueDates(d, dates).description == d.description
    ensures WithDueDates(d, dates) == d.(dueDate := WithDueDates(d, dates).dueDate)
    ensures dates != [] ==> WithDueDates(d, dates).dueDate == dates[|dates| - 1]
    decreases |dates|
  {
    if dates != [] {
      var d' := WithDueDate(d, dates[0]);
      assert d' == d.(dueDate := dates[0]);
      CustomDescriptionSticks(d', dates[1..]);
    }
  }

  /** A description generated from the draft's own date keeps being
      regenerated: after a sequence of non-empty dates it is the one of the
      last date. */
  lemma {:induction false} ConsistentDescriptionFollows(d: ExpenseDraft, dates: seq<string>)
    requires Consistent(d)
    requires forall k :: 0 <= k < |dates| ==> dates[k] != ""
    ensures Consistent(WithDueDates(d, dates))
    ensures dates != [] ==> WithDueDates(d, dates).description == MonthlyDescription(dates[|dates| - 1])
    decreases |dates|
  {
    if dates != [] {
      WithDueDateKeepsConsistent(d, dates[0]);
      ConsistentDescriptionFollows(WithDueDate(d, dates[0]), dates[1..]);
      if |dates| > 1 {
        assert dates[1..][|dates[1..]| - 1] == dates[|dates| - 1];
      }
    }
  }

  /** "Parcela Mensal 09/2025" from an empty draft, then a custom
      description that a later date change leaves in place. */
  lemma SmartDescriptionScenario(d: ExpenseDraft, custom: string, later: string)
    requires d.description == "" && d.dueDate != "2025-09-10"
    requires custom != "" && !StartsWith(custom, MonthlyPrefix)
    ensures WithDueDate(d, "2025-09-10").description == "Parcela Mensal 09/2025"
    ensures WithDueDate(WithDueDate(d, "2025-09-10").(description := custom), later).description == custom
  {
    MonthlyDescriptionExample("2025-09-10");
  }

  /** `{ ...prev, ...partial }`: a key present in `partial` overrides the
      draft's field; an absent key keeps it. */
  function Merge(d: ExpenseDraft, p: PartialDraft): (r: ExpenseDraft)
    ensures p == EmptyPartial ==> r == d
    ensures p.receiptBase64.None? ==> r.receiptBase64 == d.receiptBase64
    ensures p.receiptBase64.Some? ==> r.receiptBase64 == p.receiptBase64
    ensures p.description.Some? ==> r.description == p.description.value
    ensures p.description.None? ==> r.description == d.description
    ensures p.amount.Some? ==> r.amount == p.amount.value
    ensures p.amount.None? ==> r.amount == d.amount
    ensures p.dueDate.Some? ==> r.dueDate == p.dueDate.value
    ensures p.dueDate.None? ==> r.dueDate == d.dueDate
    ensures p.status.Some? ==> r.status == p.status.value
    ensures p.status.None? ==> r.status == d.status
  {
    ExpenseDraft(
      description := p.description.GetOr(d.description),
      amount := p.amount.GetOr(d.amount),
      dueDate := p.dueDate.GetOr(d.dueDate),
      status := p.status.GetOr(d.status),
      receiptBase64 := if p.receiptBase64.Some? then p.receiptBase64 else d.receiptBase64)
  }

  /** Merging the same result twice is merging it once. */
  lemma MergeIdempotent(d: ExpenseDraft, p: PartialDraft)
    ensures Merge(Merge(d, p), p) == Merge(d, p)
  {
  }

  /** `handleFileUpload` once the file has been read to `uri`: the encoded
      file goes on the draft first; then, when the analysis produced a
      result, it is spread over the draft. A failed analysis is swallowed.
      The smart-description effect follows each update. */
  function AttachReceipt(d: ExpenseDraft, uri: string, analysis: Option<PartialDraft>): (r: ExpenseDraft)
    ensures analysis.None? ==> r == d.(receiptBase64 := Some(uri))
    ensures analysis.Some? && analysis.value.receiptBase64.None? ==> r.receiptBase64 == Some(uri)
    ensures analysis.Some? ==> r.amount == analysis.value.amount.GetOr(d.amount)
    ensures analysis.Some? ==> r.dueDate == analysis.value.dueDate.GetOr(d.dueDate)
    ensures analysis.Some? ==> r.status == analysis.value.status.GetOr(d.status)
    ensures analysis.Some? ==>
      var desc := analysis.value.description.GetOr(d.description);
      var date := analysis.value.dueDate.GetOr(d.dueDate);
      r.description ==
        if date != d.dueDate && date != "" && (desc == "" || StartsWith(desc, MonthlyPrefix))
        then MonthlyDescription(date) else desc
  {
    var attached := AfterDraftUpdate(d, d.(receiptBase64 := Some(uri)));
    match analysis
    case None => attached
    case Some(p) => AfterDraftUpdate(attached, Merge(attached, p))
  }

  /** Whatever the analysis does, the draft ends up holding the encoded file. */
  lemma AttachKeepsReceipt(
    d: ExpenseDraft, uri: string,
    generate: (Option<string>, Option<string>) -> CallOutcome,
    parse: string -> Option<Reply>)
    ensures AttachReceipt(d, uri, AnalyzeReceipt(uri, generate, parse)).receiptBase64 == Some(uri)
  {
  }

  /** A failed analysis leaves the pre-call draft with only the attachment
      replaced; `{}` does the same. */
  lemma AttachWithoutResult(d: ExpenseDraft, uri: string)
    ensures AttachReceipt(d, uri, None) == d.(receiptBase64 := Some(uri))
    ensures AttachReceipt(d, uri, Some(EmptyPartial)) == d.(receiptBase64 := Some(uri))
  {
  }

  /** A reply overrides amount, date and status and keeps the attachment; its
      description stands unless the date changed and the description is
      empty or starts with "Parcela Mensal", when the effect regenerates it
      from the new date. */
  lemma AttachReply(d: ExpenseDraft, uri: string, data: Reply)
    ensures var r := AttachReceipt(d, uri, Some(FromReply(data)));
      && r.amount == data.amount && r.dueDate == data.date
      && r.status == (if data.isPaid == Some(true) then Paid else Pending)
      && r.receiptBase64 == Some(uri)
      && r.description ==
           (if data.date != d.dueDate && data.date != ""
               && (data.description == "" || StartsWith(data.description, MonthlyPrefix))
            then MonthlyDescription(data.date) else data.description)
  {
  }

  /** A paid condominium receipt dated 2025-10-05. */
  lemma AttachReplyExample(d: ExpenseDraft, uri: string)
    ensures var r := AttachReceipt(d, uri, Some(FromReply(Reply(99.9, "2025-10-05", "Condomínio", Some(true)))));
      r == ExpenseDraft("Condomínio", 99.9, "2025-10-05", Paid, Some(uri))
  {
    AttachReply(d, uri, Reply(99.9, "2025-10-05", "Condomínio", Some(true)));
  }

  /** The draft set after a submit, from the current ISO timestamp. */
  function ResetDraft(iso: string): (r: ExpenseDraft)
    ensures r.amount == 0.0 && r.status == Pending && r.receiptBase64 == Some("")
    ensures r.dueDate == DatePart(iso) && Consistent(r)
  {
    var today := DatePart(iso);
    var parts := Split(today, '-');
    ExpenseDraft(
      description := "Parcela Mensal " + Interp(At(parts, 1)) + "/" + parts[0],
      amount := 0.0,
      dueDate := today,
      status := Pending,
      receiptBase64 := Some(""))
  }

  /** The effect the reset may trigger leaves the reset draft as it is. */
  lemma ResetIsStable(prev: ExpenseDraft, iso: string)
    ensures AfterDraftUpdate(prev, ResetDraft(iso)) == ResetDraft(iso)
  {
  }

  /** The draft on mount: the `useState` initial value, then the effect's
      first run. */
  function InitialDraft(iso: string): (r: ExpenseDraft)
    ensures r.amount == 0.0 && r.status == Pending && r.receiptBase64 == Some("")
    ensures r.dueDate == DatePart(iso)
    ensures DatePart(iso) != "" ==> Consistent(r)
    ensures DatePart(iso) == "" ==> r.description == ""
  {
    SmartDescription(ExpenseDraft("", 0.0, DatePart(iso), Pending, Some("")))
  }

  /** On a day with a date, the mounted draft is the reset draft. */
  lemma InitialDraftIsReset(iso: string)
    requires DatePart(iso) != ""
    ensures InitialDraft(iso) == ResetDraft(iso)
  {
  }
}
