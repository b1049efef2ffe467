/** services/geminiService.ts, `analyzeReceipt`: split the data URI into its
    media type and payload, call the document-extraction service, and map its
    JSON reply to a partial draft. The service call and `JSON.parse` are
    outside this model; they come in as the functions `generate` and `parse`. */
module GeminiService {
  import opened Wrappers
  import opened Strings
  import opened Types

  /** `base64DataURI.split(',')[1]`: the text between the first and the second
      comma, `undefined` when there is no comma. */
  function Payload(uri: string): (r: Option<string>)
    ensures r.None? <==> ',' !in uri
    ensures r.Some? ==> ',' !in r.value
  {
    At(Split(uri, ','), 1)
  }

  /** `base64DataURI.split(';')[0].split(':')[1]`: within the text before the
      first semicolon, the text between the first and the second colon;
      `undefined` when no colon comes before the first semicolon. */
  function MimeType(uri: string): (r: Option<string>)
    ensures r.None? <==> ':' !in Split(uri, ';')[0]
    ensures r.Some? ==> ':' !in r.value && ';' !in r.value
  {
    var header := Split(uri, ';')[0];
    At(Split(header, ':'), 1)
  }

  /** For `<head>,<p><rest>` where `rest` is empty or starts with another
      comma, the payload is `p`. Every URI holding a comma has this shape. */
  lemma PayloadOf(head: string, p: string, rest: string)
    requires ',' !in head && ',' !in p
    requires rest == [] || rest[0] == ','
    ensures Payload(head + "," + p + rest) == Some(p)
  {
    assert head + "," + p + rest == head + [','] + (p + rest);
    SplitFirst(head, ',', p + rest);
    if rest != [] {
      assert rest == [','] + rest[1..];
      assert p + rest == p + [','] + rest[1..];
      SplitFirst(p, ',', rest[1..]);
    } else {
      assert p + rest == p;
    }
  }

  /** For `<scheme>:<m><rest>` where `rest` is empty or starts with a
      semicolon, the media type is `m`. */
  lemma MimeTypeOf(scheme: string, m: string, rest: string)
    requires ':' !in scheme && ';' !in scheme
    requires ':' !in m && ';' !in m
    requires rest == [] || rest[0] == ';'
    ensures MimeType(scheme + ":" + m + rest) == Some(m)
  {
    var header := scheme + ":" + m;
    assert ';' !in header;
    if rest != [] {
      assert rest == [';'] + rest[1..];
      assert header + rest == header + [';'] + rest[1..];
      SplitFirst(header, ';', rest[1..]);
    } else {
      assert header + rest == header;
    }
    assert Split(header + rest, ';')[0] == header;
    SplitFirst(scheme, ':', m);
  }

  /** The media type of a PNG receipt as the browser's FileReader encodes it. */
  lemma PngMimeType(uri: string)
    requires uri == "data:image/png;base64,AAAA"
    ensures MimeType(uri) == Some("image/png")
  {
    var scheme, m, rest := "data", "image/png", ";base64,AAAA";
    assert ':' !in scheme && ';' !in scheme && ':' !in m && ';' !in m;
    assert uri == scheme + ":" + m + rest;
    MimeTypeOf(scheme, m, rest);
  }

  /** The payload of the same data URI. */
  lemma PngPayload(uri: string)
    requires uri == "data:image/png;base64,AAAA"
    ensures Payload(uri) == Some("AAAA")
  {
    var head, p := "data:image/png;base64", "AAAA";
    assert ',' !in head && ',' !in p;
    assert uri == head + "," + p + "";
    PayloadOf(head, p, "");
  }

  /** The parsed JSON reply. The response schema marks `amount`, `date` and
      `description` required; `isPaid` may be missing. */
  datatype Reply = Reply(amount: real, date: string, description: string, isPaid: Option<bool>)

  /** How the awaited `generateContent` call ended: it threw, or it returned
      a response whose `text` may be `undefined`. */
  datatype CallOutcome = Threw | Returned(text: Option<string>)

  /** `data.isPaid ? PAID : PENDING`: a missing flag is falsy. */
  function StatusOf(isPaid: Option<bool>): (s: PaymentStatus)
    ensures s == Paid <==> isPaid == Some(true)
  {
    if isPaid == Some(true) then Paid else Pending
  }

  /** The object literal built from the reply: `date` becomes `dueDate`,
      `isPaid` becomes `status`, and there is no `receiptBase64` key. */
  function FromReply(data: Reply): (r: PartialDraft)
    ensures r.receiptBase64.None?
    ensures r.amount == Some(data.amount) && r.dueDate == Some(data.date)
    ensures r.description == Some(data.description)
    ensures r.status == Some(if data.isPaid == Some(true) then Paid else Pending)
  {
    PartialDraft(
      description := Some(data.description),
      amount := Some(data.amount),
      dueDate := Some(data.date),
      status := Some(StatusOf(data.isPaid)),
      receiptBase64 := None)
  }

  /** `analyzeReceipt(uri)`: `None` when the call or the parse throws (the
      error is rethrown), `{}` when the response has no text, otherwise the
      mapped reply. The call receives the media type and payload split from
      the URI. */
  function AnalyzeReceipt(
    uri: string,
    generate: (Option<string>, Option<string>) -> CallOutcome,
    parse: string -> Option<Reply>): (r: Option<PartialDraft>)
    ensures generate(MimeType(uri), Payload(uri)).Threw? ==> r.None?
    ensures r.Some? ==> r.value.receiptBase64.None?
  {
    match generate(MimeType(uri), Payload(uri))
    case Threw => None
    case Returned(text) =>
      if text.None? || text.value == "" then Some(EmptyPartial)
      else
        match parse(text.value)
        case None => None
        case Some(data) => Some(FromReply(data))
  }

  /** The three outcomes of a call that returned. */
  lemma AnalyzeReceiptReturned(
    uri: string,
    generate: (Option<string>, Option<string>) -> CallOutcome,
    parse: string -> Option<Reply>)
    requires generate(MimeType(uri), Payload(uri)).Returned?
    ensures var text := generate(MimeType(uri), Payload(uri)).text;
      && (text.None? || text == Some("") ==> AnalyzeReceipt(uri, generate, parse) == Some(EmptyPartial))
      && (text.Some? && text.value != "" && parse(text.value).None? ==> AnalyzeReceipt(uri, generate, parse).None?)
      && (text.Some? && text.value != "" && parse(text.value).Some? ==>
            AnalyzeReceipt(uri, generate, parse) == Some(FromReply(parse(text.value).value)))
  {
  }
}
