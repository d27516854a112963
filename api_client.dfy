/** The error the Next.js client's `apiClient` (lib/apiClient.ts) throws for
    a rejected request, and what the pages' `catch` blocks read from it:
    `err.response.data` and `err.message`. */
module ApiClient {
  import opened Common
  import opened Parsing
  import opened Js

  /** The body of an error response: a JSON object with its entries, JSON
      that is not an object (an array, a string, `null`), or no JSON at all. */
  datatype ErrorBody = ObjectBody(fields: map<string, ErrorValue>) | OtherJson | NotJson

  /** A rejected request: an HTTP status outside 2xx with its status text and
      body, or a failure without a usable response (the network, or a
      success body that does not parse), with that failure's own message. */
  datatype ClientError = HttpError(status: nat, statusText: string, body: ErrorBody) | Unreached(cause: string)

  /** JavaScript truthiness of a flat JSON value: every array is truthy, a
      string unless it is empty. */
  predicate Truthy(v: ErrorValue)
  {
    v.Messages? || v.text != ""
  }

  function StatusMessage(status: nat): string
  {
    "Request failed with status " + NatToDecimal(status)
  }

  /** The `detail` written into `errorData` when the body does not parse. */
  function UnparsedDetail(status: nat, statusText: string): string
  {
    "HTTP error! Status: " + NatToDecimal(status) + " " + statusText
  }

  /** `error.message`: the body's `detail` when it is truthy (a list is
      written as `String` writes it, with commas), else the status message;
      an unparsed body's own `detail`; for a failure without a response, its
      message or the fixed network message. */
  function Message(e: ClientError): (m: string)
    ensures e.HttpError? && e.body.NotJson? ==> m == UnparsedDetail(e.status, e.statusText)
    ensures e.HttpError? && e.body.OtherJson? ==> m == StatusMessage(e.status)
    ensures e.HttpError? && e.body.ObjectBody? && "detail" !in e.body.fields ==> m == StatusMessage(e.status)
    ensures e.HttpError? && e.body.ObjectBody? && "detail" in e.body.fields ==>
              var d := e.body.fields["detail"];
              m == if Truthy(d) then ValueText(d, ",") else StatusMessage(e.status)
    ensures e.Unreached? ==> m != ""
  {
    match e
    case HttpError(status, statusText, body) =>
      (match body
       case ObjectBody(fields) =>
         if "detail" in fields && Truthy(fields["detail"]) then ValueText(fields["detail"], ",")
         else StatusMessage(status)
       case OtherJson => StatusMessage(status)
       case NotJson => UnparsedDetail(status, statusText))
    case Unreached(cause) => if cause != "" then cause else "Network error or client-side issue."
  }

  /** `err.response && err.response.data`: `response` is the parsed body
      itself, so this is the body's own `data` entry, when it is truthy. An
      error with status 0 or a body that is not an object is rethrown
      without a usable `response`. */
  function ResponseData(e: ClientError): (d: Option<ErrorValue>)
    ensures d.Some? <==> e.HttpError? && e.status != 0 && e.body.ObjectBody? && "data" in e.body.fields
                         && Truthy(e.body.fields["data"])
    ensures d.Some? ==> d.value == e.body.fields["data"]
  {
    if e.HttpError? && e.status != 0 && e.body.ObjectBody? && "data" in e.body.fields && Truthy(e.body.fields["data"])
    then Some(e.body.fields["data"])
    else None
  }

  /** An error as a page's `catch` sees it: `err.response.data` when set,
      and `err.message`. */
  datatype Caught = Caught(data: Option<ErrorValue>, message: string)

  function Thrown(e: ClientError): Caught
  {
    Caught(ResponseData(e), Message(e))
  }

  /** `Object.entries(v)` of a flat value: an array's items, or a string's
      characters, under their indices. */
  function ValueEntries(v: ErrorValue): (r: seq<(string, ErrorValue)>)
    ensures v.Messages? ==> |r| == |v.items|
    ensures v.Text? ==> |r| == |v.text|
    ensures forall i :: 0 <= i < |r| ==> r[i].0 == NatToDecimal(i)
  {
    match v
    case Messages(items) => seq(|items|, i requires 0 <= i < |items| => (NatToDecimal(i), Text(items[i])))
    case Text(t) => seq(|t|, i requires 0 <= i < |t| => (NatToDecimal(i), Text([t[i]])))
  }

  /** The one-line error the review form and the sign-up flow build in their
      `catch`: the entries of `err.response.data` as `key: messages` joined
      by " | " (an array or string has no `detail` to fall back on);
      otherwise `err.message`; otherwise `fallback`. */
  function Summary(c: Caught, fallback: string): (r: string)
    ensures fallback != "" ==> r != ""
  {
    match c.data
    case Some(v) =>
      var parts := SummaryParts(ValueEntries(v));
      if parts != [] then
        JoinPart(parts, " | ", 0);
        Join(parts, " | ")
      else fallback
    case None => if c.message != "" then c.message else fallback
  }

  /** A DRF error body, which has no `data` entry, is never shown entry by
      entry: the page shows the error's message, that is the body's
      `detail` or the status. */
  lemma DrfBodyShowsMessage(status: nat, statusText: string, fields: map<string, ErrorValue>, fallback: string)
    requires "data" !in fields
    ensures var e := HttpError(status, statusText, ObjectBody(fields));
            Summary(Thrown(e), fallback) == if Message(e) != "" then Message(e) else fallback
  {
  }

  /** Field errors (a body without `detail` or `data`) are reported only as
      the status: the messages DRF sends are not shown. */
  lemma FieldErrorsShowStatus(status: nat, statusText: string, fields: map<string, ErrorValue>, fallback: string)
    requires "data" !in fields && "detail" !in fields
    ensures Summary(Thrown(HttpError(status, statusText, ObjectBody(fields))), fallback) == StatusMessage(status)
  {
    DrfBodyShowsMessage(status, statusText, fields, fallback);
  }

  /** A refusal with a `detail` (authentication, permission, not found) is
      shown as that detail. */
  lemma DetailShown(status: nat, statusText: string, detail: string, fallback: string)
    requires detail != ""
    ensures Summary(Thrown(HttpError(status, statusText, ObjectBody(map["detail" := Text(detail)]))), fallback) == detail
  {
    DrfBodyShowsMessage(status, statusText, map["detail" := Text(detail)], fallback);
  }
}
