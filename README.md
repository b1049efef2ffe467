# Household expense tracker: a Dafny model of its bookkeeping core

The application records recurring household bills ("parcelas"), marks them
paid or pending, attaches a receipt image to a bill, and can ask an external
document-extraction service to pre-fill the amount, date and description from
that image. Everything lives in the browser; the list is mirrored into local
storage after every change.

This project models the part with rules worth stating:

- **The expense list** (`ExpenseList`, and the `App.ExpenseTracker` class that
  holds it). `toggleStatus` flips the status of the records with an id,
  `deleteExpense` filters them out, `handleSubmit` prepends a record built from
  the draft, the dashboard sums amounts by status, and the first run uses a
  two-record seed list.
- **The entry draft** (`Drafts`). The smart-description effect writes
  "Parcela Mensal MM/YYYY" from the due date, but only over a description
  that is empty or starts with "Parcela Mensal". `handleFileUpload` attaches the encoded file, then
  spreads the analysis result over the draft. After a submit the draft is
  reset for today.
- **The receipt analyser client** (`GeminiService`). It splits the data URI
  into media type and payload with the code's own `split` calls, and maps the
  JSON reply to a partial draft.
- **String primitives** (`Strings`). JavaScript's one-character `split`
  (with the search for the first separator, where it cuts), out-of-range
  array indexing (`undefined`), `startsWith` and `${}` interpolation. `split` is proved against `join` in both directions.

`App.ExpenseTracker` has one field per state variable (`expenses`, `draft`)
and a ghost `stored` field for the list last written to local storage. It has one
method per handler. Each setter is followed by the effect React runs for it.
A list change writes `stored`, so `Valid()` (storage mirrors the list) holds
after every method. A draft change re-runs the smart-description rule only
when `dueDate` changed. That also happens on mount and after an analysis is
merged.

The code does not do the following, and neither does the model:

- it does not check that a description was generated: the guard is
  `startsWith("Parcela Mensal")` (App.tsx:78), so a typed
  "Parcela Mensal 09/2025 (atrasada)" is overwritten too;
- it does not fall back to the seed on a corrupt stored document: only a
  missing key or the empty string gives the seed, and anything else goes to
  `JSON.parse`, which throws uncaught (App.tsx:50);
- `handleSubmit` validates nothing itself (App.tsx:111-118); only the form's
  HTML attributes do;
- it does not discard a late analysis response: App.tsx:96-98 merges
  whatever arrives.

Two behaviours of the code follow from the model and are proved:

- When a date has no `-`, the generated description is
  "Parcela Mensal undefined/<date>" (`Drafts.MonthlyDescriptionWithoutMonth`).
- An analysis result can change the date while its description is empty or
  starts with "Parcela Mensal" (App.tsx:78). The effect then runs after the merge and
  regenerates the description from the new date, replacing the analyser's own
  description (`Drafts.AttachReply`).

## Model

| member | source | states |
|---|---|---|
| Strings.Split | services/geminiService.ts:24-25 | `split` by one character: at least one piece; exactly one piece (the whole text) iff the separator is absent; no piece holds the separator; the first piece is a prefix; pieces hold only characters of the text |
| Strings.IndexOf | App.tsx:73 | the search behind `split('-')`: no position exactly when the separator is absent; otherwise the position of its first occurrence, where the first cut is made |
| Strings.At | services/geminiService.ts:24-25 | indexing is `undefined` exactly past the end of the array, and the element otherwise |
| Strings.Interp | App.tsx:74 | `${x}` prints the text, or "undefined" for `undefined` |
| Strings.StartsWith | App.tsx:78 | `startsWith` holds exactly when the prefix is no longer than the text and equals its beginning |
| Strings.JoinSplit | services/geminiService.ts:24-25 | joining the pieces of a split with the separator gives back the text |
| Strings.SplitJoin | services/geminiService.ts:24-25 | splitting the join of separator-free pieces gives back the pieces |
| GeminiService.Payload | services/geminiService.ts:24 | the payload is `undefined` exactly when the URI has no comma; otherwise it holds no comma |
| GeminiService.PayloadOf | services/geminiService.ts:24 | for `head,p rest` with comma-free `head` and `p` and `rest` empty or starting with a comma, the payload is `p` (the text between the first and second comma) |
| GeminiService.PngPayload | services/geminiService.ts:24 | the payload of `data:image/png;base64,AAAA` is `AAAA` |
| GeminiService.MimeType | services/geminiService.ts:25 | the media type is `undefined` exactly when no colon precedes the first semicolon; otherwise it holds neither colon nor semicolon |
| GeminiService.MimeTypeOf | services/geminiService.ts:25 | for `scheme:m rest` with colon- and semicolon-free `scheme` and `m` and `rest` empty or starting with a semicolon, the media type is `m` (with a single colon in the header, the text between it and the first semicolon) |
| GeminiService.PngMimeType | services/geminiService.ts:25 | the media type of `data:image/png;base64,AAAA` is `image/png` |
| GeminiService.StatusOf | services/geminiService.ts:66 | `isPaid` gives PAID exactly when it is `true`; false or missing gives PENDING |
| GeminiService.FromReply | services/geminiService.ts:62-67 | the mapped reply copies amount and description, copies `date` to `dueDate`, sets the status from `isPaid`, and has no `receiptBase64` key |
| GeminiService.AnalyzeReceipt | services/geminiService.ts:20-73 | a thrown service call rejects; no success result ever carries a `receiptBase64` key |
| GeminiService.AnalyzeReceiptReturned | services/geminiService.ts:57-67 | a returned call with empty or missing text gives `{}`; a parse failure rejects; a parsed reply gives its mapped partial draft |
| Drafts.DatePart | App.tsx:60 | the date part of an ISO timestamp is the whole text before its first `T` (all of it when there is none) |
| Drafts.DatePartOf | App.tsx:60 | the date part of `<date>T<time>` is `<date>` |
| Drafts.MonthlyDescription | App.tsx:73-74 | every generated description starts with "Parcela Mensal" |
| Drafts.MonthlyDescriptionOf | App.tsx:73-74 | for a date `Y-M-D` (dash-free parts) the description is "Parcela Mensal M/Y" |
| Drafts.MonthlyDescriptionWithoutMonth | App.tsx:73-74 | a date without a dash yields "Parcela Mensal undefined/" followed by the date |
| Drafts.MonthlyDescriptionExample | App.tsx:73-74 | `2025-09-10` yields "Parcela Mensal 09/2025" |
| Drafts.SmartDescription | App.tsx:71-82 | the rule touches only the description; for a non-empty date, an empty description or one starting with "Parcela Mensal" becomes the description generated from the date; any other description, and any draft with an empty date, is left unchanged |
| Drafts.AfterDraftUpdate | App.tsx:70-83 | after a draft update the rule runs exactly when the date changed; otherwise the update stands as it is |
| Drafts.WithDueDate | App.tsx:311 | setting a date changes only date and description; the description is regenerated from a new non-empty date when it was empty or started with "Parcela Mensal", and kept otherwise |
| Drafts.SmartDescriptionIdempotent | App.tsx:76-81 | applying the rule twice equals applying it once |
| Drafts.WithDueDateKeepsConsistent | App.tsx:70-83 | a description generated from the current date follows any non-empty new date |
| Drafts.ConsistentDescriptionFollows | App.tsx:70-83 | after any sequence of non-empty dates, a description generated from the draft's own date is the one generated from the last date |
| Drafts.CustomDescriptionSticks | App.tsx:76-81 | a non-empty description not starting with "Parcela Mensal" survives any sequence of date changes; only the date changes |
| Drafts.SmartDescriptionScenario | App.tsx:70-83 | an empty draft set to 2025-09-10 reads "Parcela Mensal 09/2025"; a custom description typed afterwards survives a later date change |
| Drafts.Merge | App.tsx:98 | each key present in the result overrides the draft's field and each absent key keeps it, for all five fields; so `{}` leaves the draft as it is |
| Drafts.MergeIdempotent | App.tsx:98 | spreading the same result twice equals spreading it once |
| Drafts.AttachReceipt | App.tsx:91-102 | without a result the draft only gains the attachment; with one, the result's amount, date and status override the draft's, a result without a `receiptBase64` key leaves the attachment as the encoded file, and the merged description is regenerated from the merged date exactly when that date changed, is non-empty, and the description is empty or starts with "Parcela Mensal" |
| Drafts.AttachKeepsReceipt | App.tsx:91-102 | whatever the analysis does, the draft ends with the encoded file as its attachment |
| Drafts.AttachWithoutResult | App.tsx:93-102 | a failed analysis, or `{}`, leaves the pre-call draft with only the attachment replaced |
| Drafts.AttachReply | App.tsx:93-99 | a reply sets amount, due date and status and keeps the attachment; its description stands unless the date changed and the description is empty or starts with "Parcela Mensal", when it is regenerated from the new date |
| Drafts.AttachReplyExample | App.tsx:93-99 | the reply 99.9 / 2025-10-05 / "Condomínio" / paid gives exactly that draft with the attachment kept |
| Drafts.ResetDraft | App.tsx:122-130 | the reset draft has amount 0, PENDING, an empty attachment, today's date and the description generated from it |
| Drafts.ResetIsStable | App.tsx:122-130 | the effect the reset may trigger leaves the reset draft unchanged |
| Drafts.InitialDraft | App.tsx:57-83 | the mounted draft has amount 0, PENDING, an empty attachment and today's date; its description is the one generated from that date, or empty when the date is empty |
| Drafts.InitialDraftIsReset | App.tsx:57-83 | on a non-empty date, the draft after mount and the first effect run equals the reset draft |
| ExpenseList.Flip | App.tsx:144 | the flipped status differs from the original |
| ExpenseList.ToggleOne | App.tsx:140-147 | the map callback keeps every field but the status, which is flipped exactly when the id matches |
| ExpenseList.ToggleStatus | App.tsx:139-149 | same length and order; each record with the id has its status flipped and all other fields kept; every other record is unchanged |
| ExpenseList.ToggleStatusTwice | App.tsx:139-149 | toggling an id twice restores the list |
| ExpenseList.ToggleStatusAbsent | App.tsx:140-148 | toggling an id that no record has leaves the list unchanged |
| ExpenseList.ToggleStatusKeepsSum | App.tsx:139-149 | toggling keeps the sum of all amounts |
| ExpenseList.DeleteExpense | App.tsx:133-136 | no record with the id remains; every record with another id keeps all its copies, every record with the id loses all of them; never longer |
| ExpenseList.DeleteKeepsMissingId | App.tsx:135 | an id absent from the list stays absent after a deletion |
| ExpenseList.DeleteKeepsOrder | App.tsx:135 | the remaining records are a subsequence of the list (relative order kept) |
| ExpenseList.DeleteExpenseAbsent | App.tsx:135 | deleting an id that no record has leaves the list unchanged |
| ExpenseList.DeletePreservesUniqueIds | App.tsx:135 | deletion keeps identifiers unique |
| ExpenseList.NewExpense | App.tsx:113-117 | the new record has the draft's description, amount, due date, status and attachment, and the given id and creation time |
| ExpenseList.PrependPreservesUniqueIds | App.tsx:118 | prepending a record whose id is fresh keeps identifiers unique |
| ExpenseList.WithStatus | App.tsx:160 | the filter keeps every copy of each record with the status and no other record |
| ExpenseList.SumAmounts | App.tsx:160 | the sum of non-negative amounts is non-negative |
| ExpenseList.FilterThenSum | App.tsx:160 | filtering by status then summing equals adding the amounts of the records with that status in one pass |
| ExpenseList.PaidTotal | App.tsx:160 | the paid total is the sum of the amounts of the PAID records |
| ExpenseList.PendingTotal | App.tsx:166 | the pending total is the sum of the amounts of the PENDING records |
| ExpenseList.TotalsPartition | App.tsx:160-166 | paid total plus pending total equals the sum of all amounts |
| ExpenseList.PrependTotals | App.tsx:160-166 | a prepended record's amount is added to its own status group only |
| ExpenseList.InitialExpenses | App.tsx:27-44 | the seed holds record `1`, PAID, 1250.00, due 2025-09-10, then record `2`, PENDING, 250.00, due 2025-09-15, the first created earlier |
| ExpenseList.InitialExpensesTotals | App.tsx:27-44 | the seed has distinct ids and totals 1250.00 paid and 250.00 pending |
| ExpenseList.LoadExpenses | App.tsx:48-51 | a missing or empty stored value gives the seed; any other value is decoded |
| App.ExpenseTracker.constructor | App.tsx:48-83 | on mount the list is the loaded one, storage mirrors it, and the draft is today's initial draft after the first description effect |
| App.ExpenseTracker.UpdateDraft | App.tsx:76-83 | a draft update is followed by the description effect when the date changed |
| App.ExpenseTracker.UpdateExpenses | App.tsx:65-67 | a list update is mirrored into storage |
| App.ExpenseTracker.ToggleStatus | App.tsx:139-149 | the list becomes the toggled list; the draft is untouched; unique ids and the grand total are kept; storage mirrors the list |
| App.ExpenseTracker.DeleteExpense | App.tsx:133-137 | when confirmed, the list is filtered and the id is gone; otherwise nothing changes; unique ids are kept |
| App.ExpenseTracker.HandleSubmit | App.tsx:111-131 | the list becomes the new record followed by the old list, unique ids are kept for a fresh id, and the draft is reset for today |
| App.ExpenseTracker.HandleFileUpload | App.tsx:85-109 | with no file or a failed read nothing changes; otherwise the draft becomes the attach-then-merge result and holds the file |
| App.ExpenseTracker.SetDueDate | App.tsx:311 | the date is set and the description effect applied; the list is untouched |
| App.ExpenseTracker.SetAmount | App.tsx:323 | only the amount changes |
| App.ExpenseTracker.SetDescription | App.tsx:336 | only the description changes |
| App.ExpenseTracker.SetStatus | App.tsx:346-369 | only the status changes |
| App.ExpenseTracker.RemoveReceipt | App.tsx:379 | only the attachment changes, to the empty string |
| App.ExpenseTracker.Totals | App.tsx:160-166 | the two totals are the sums over the paid and the pending records, and together they are the sum of all amounts |

## Left out

- Rendering, layout and formatting are not modelled: the JSX of App.tsx, `toLocaleString`, the receipt viewer (`window.open`), components/Layout.tsx and vite.config.ts.
- Reading a file (`fileToBase64`, in App.tsx and in services/geminiService.ts) is FileReader I/O. Its outcome is the `FileSelection` parameter of `HandleFileUpload`.
- The service client, API key, prompt and `generateContent` call are a network call. They are the `generate` parameter, which receives the split media type and payload and either throws or returns a text. `JSON.parse` of the reply is the `parse` parameter.
- GeminiService.Reply: the parsed reply always has `amount`, `date` and `description`, as the response schema requires. A reply missing one of them would copy `undefined` into the draft. That is not modelled.
- GeminiService.StatusOf: `isPaid` is taken to be a boolean, as the schema says. JavaScript truthiness of other JSON values (a string "false" would give PAID) is not modelled.
- Local storage and `JSON.stringify`/`JSON.parse` of the list are not modelled. `stored` holds the list itself, and reading uses the `decode` parameter. The exception that `JSON.parse` throws on a corrupt document is not modelled: the source does not catch it.
- `confirm()` is the `confirmed` parameter of `DeleteExpense`. `alert`, `console.error`, `isAnalyzing` and the modal's open state are UI only.
- Asynchrony: `HandleFileUpload` runs its steps without interleaving. Two uploads in flight, or a stale analysis response arriving after a newer attachment, are not modelled.
- Floating point: amounts are exact reals. `parseFloat` is the `amount` parameter of `SetAmount`. The left fold of `reduce` is written as a right-recursive sum, which is the same value over the reals.
- `Date.now()`, `crypto.randomUUID()` and `new Date().toISOString()` are parameters.
- ExpenseList.InitialExpenses: one `now` stands for the two separate `Date.now()` calls of App.tsx:34 and App.tsx:42, which can differ by a few milliseconds. The freshness of the id is a precondition of `HandleSubmit`.
- App.ExpenseTracker.HandleSubmit: does not model the form's HTML validation (`required`, `min="0"`). Like `handleSubmit`, it accepts any draft.
