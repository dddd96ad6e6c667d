/** Requests the screens issue and the responses they receive. The network itself is not
    modelled: a response is an input value, and `fetch` settling is one atomic step. */
module Http {
  import opened JsValue

  datatype Method = Get | Post | Put | Delete

  /** `url` is the configured API base URL followed by the resource path. */
  datatype Request = Request(verb: Method, url: string)

  /** How a `fetch` settles: it rejects (`NetworkFailure`), or it yields a response whose
      `ok` flag is the HTTP 2xx test and whose body `response.json()` parses (`None` when
      the body is not JSON and `response.json()` rejects). */
  datatype Response = NetworkFailure | Reply(ok: bool, body: Option<Value>)

  /** The three fields the screens read from a response body `{ status, data, message }`. */
  datatype Envelope = Envelope(status: Value, data: Value, message: Value)

  /** `responseData.status === 'success'` */
  predicate IsSuccess(e: Envelope) {
    StrictEquals(e.status, Str("success"))
  }

  /** `${API_URL}${path}` */
  function CollectionUrl(base: string, path: string): string {
    base + path
  }

  /** `${API_URL}${path}/${id}` */
  function ItemUrl(base: string, path: string, id: Value): string {
    base + path + "/" + ToText(id)
  }

  /** The path segment after the collection URL names a numeric id exactly: the server
      reads back the id the screen meant. */
  lemma ItemUrlNamesId(base: string, path: string, n: nat)
    ensures var u := ItemUrl(base, path, Num(n));
      && |u| > |base + path| + 1
      && u[..|base + path|] == CollectionUrl(base, path)
      && u[|base + path|] == '/'
      && IsDigits(u[|base + path| + 1..])
      && ParseNat(u[|base + path| + 1..]) == n
  {
    var u := ItemUrl(base, path, Num(n));
    assert u[|base + path| + 1..] == NatText(n);
    ParseNatText(n);
  }

  /** handleSubmit's request: PUT to the draft's item URL when editing, POST to the
      collection otherwise. */
  function SubmitRequest(base: string, path: string, editing: bool, draft: Value): (req: Request)
    ensures req.verb == Put <==> editing
    ensures req.verb == Post <==> !editing
    ensures req.url == if editing then ItemUrl(base, path, Prop(draft, "id")) else CollectionUrl(base, path)
  {
    if editing then Request(Put, ItemUrl(base, path, Prop(draft, "id")))
    else Request(Post, CollectionUrl(base, path))
  }

  /** The parsed body, or None when the promise chain has already rejected. */
  function Parsed(resp: Response): Option<Value> {
    match resp
    case NetworkFailure => None
    case Reply(_, body) => body
  }

  /** Reading `status`, `data` and `message` off a parsed body; None when the body is
      `null` and the first read throws. */
  function ReadEnvelope(body: Value): Option<Envelope> {
    if Readable(body) then Some(Envelope(Prop(body, "status"), Prop(body, "data"), Prop(body, "message")))
    else None
  }

  /** The envelope a `.then(response => response.json()).then(responseData => ...)` chain
      reads, or None when the chain rejects before it is read. The HTTP status is ignored. */
  function Answer(resp: Response): Option<Envelope> {
    match Parsed(resp)
    case None => None
    case Some(body) => ReadEnvelope(body)
  }

  /** The same for a chain that first throws when `!response.ok`. */
  function CheckedAnswer(resp: Response): Option<Envelope> {
    if resp.Reply? && resp.ok then Answer(resp) else None
  }

  /** A checked chain reads an envelope exactly when the response is ok and the lax chain
      reads one, and then it reads the same one. */
  lemma CheckedAnswerNeedsOk(resp: Response)
    ensures CheckedAnswer(resp).Some? <==> resp.Reply? && resp.ok && Answer(resp).Some?
    ensures CheckedAnswer(resp).Some? ==> CheckedAnswer(resp) == Answer(resp)
  {
  }

  /** A readable body always yields an envelope, and that envelope holds its properties. */
  lemma AnswerReadsBody(ok: bool, body: Value)
    requires Readable(body)
    ensures Answer(Reply(ok, Some(body))) == Some(Envelope(Prop(body, "status"), Prop(body, "data"), Prop(body, "message")))
  {
  }
}
