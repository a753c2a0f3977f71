/** The `/search` handler of the databases search proxy: argument checks, the upstream
    request, the classification of the upstream outcome and the JSON envelope, including
    the no-results error (`build_no_results`). The upstream call itself is not made
    here: its outcome is a parameter, and the handler reports which request it would
    have sent. */
module Searcher {
  import opened Wrappers
  import Decimal
  import Extractor

  /** The configuration read from the environment at start-up. */
  datatype Config = Config(
    dbBase: string,
    noResultsUrl: string,
    moduleUrl: string,
    siteId: string,
    searchAction: string)

  /** The `per_page` request argument: not given, given as "", given as the text of an
      integer (already read as that integer), or given as text `int()` refuses. */
  datatype PerPageArg = Absent | Blank | Integer(n: int) | NotAnInteger

  /** The `data` object of the upstream JSON: the rendered HTML (already parsed into
      result containers) and the upstream's total count. */
  datatype Data = Data(html: seq<Extractor.Container>, count: int)

  /** The decoded upstream JSON: `data` is None when the key is missing. */
  datatype Payload = Payload(data: Option<Data>)

  /** What the upstream GET produced: an exception from the transport, or a response
      with its status code and its decoded body. */
  datatype Outcome = TransportFailure | Responded(status: int, payload: Payload)

  /** The upstream GET: the base URL and the query parameters. */
  datatype Request = Request(url: string, params: map<string, string>)

  /** The `error` object of a reply; `noResultsUrl` is present only in the no-results error. */
  datatype ErrorInfo = ErrorInfo(msg: string, noResultsUrl: Option<string>)

  /** A JSON reply body: one field per key the handler may set, None when the key is absent. */
  datatype Body = Body(
    endpoint: Option<string>,
    query: Option<string>,
    perPage: Option<int>,
    page: Option<int>,
    total: Option<int>,
    moduleLink: Option<string>,
    results: Option<seq<Extractor.Record>>,
    error: Option<ErrorInfo>)

  /** The HTTP reply: a JSON body with its status, or an exception the handler does not
      catch (which the web framework turns into its own internal-server-error page). */
  datatype Reply = Json(status: int, body: Body) | Unhandled(exception: string)

  /** One request handled: the upstream request it sends, if any, and its reply. */
  datatype Exchange = Exchange(sent: Option<Request>, reply: Reply)

  const Endpoint: string := "databases"
  const DefaultLimit: int := 3
  const QueryRequiredMsg: string := "q parameter is required"
  const SearchErrorMsg: string := "Search error"
  const NoResultsMsg: string := "No Results"

  /** The query text, or None when `q` is missing or empty. */
  function QueryOf(q: Option<string>): Option<string> {
    if q.None? || q.value == "" then None else q
  }

  /** The limit `per_page` selects, or None when `int()` would raise. */
  function LimitOf(perPage: PerPageArg): Option<int> {
    match perPage
    case Absent => Some(DefaultLimit)
    case Blank => Some(DefaultLimit)
    case Integer(n) => Some(n)
    case NotAnInteger => None
  }

  /** The upstream request for `query`: the configured base URL and exactly the four
      parameters site id, search action, widget flag "0" and the query text. */
  function RequestFor(cfg: Config, query: string): (r: Request)
    ensures r.url == cfg.dbBase
    ensures r.params.Keys == {"site_id", "search_action", "is_widget", "search"}
    ensures r.params["search"] == query && r.params["is_widget"] == "0"
    ensures r.params["site_id"] == cfg.siteId && r.params["search_action"] == cfg.searchAction
  {
    Request(cfg.dbBase, map[
      "site_id" := cfg.siteId,
      "search_action" := cfg.searchAction,
      "is_widget" := "0",
      "search" := query])
  }

  /** The body of every error reply other than no-results: only `error.msg`, plus the
      endpoint when the failure is the upstream's. */
  function ErrorBody(endpoint: Option<string>, msg: string): Body {
    Body(endpoint, None, None, None, None, None, None, Some(ErrorInfo(msg, None)))
  }

  /** `build_no_results`: the error the envelope carries when the total is not positive. */
  function NoResults(cfg: Config): (e: ErrorInfo)
    ensures e.msg == "No Results" && e.noResultsUrl == Some(cfg.noResultsUrl)
  {
    ErrorInfo(NoResultsMsg, Some(cfg.noResultsUrl))
  }

  /** The message of a reply to an upstream status other than 200 and 206: "Received ",
      the code in decimal, " for q=" and the query. The code reads back from the message. */
  function StatusMessage(status: int, query: string): (m: string)
    ensures |m| == 9 + |Decimal.IntToString(status)| + 7 + |query|
    ensures m[..9] == "Received " && m[|m| - 7 - |query|..] == " for q=" + query
    ensures m[9..|m| - 7 - |query|] == Decimal.IntToString(status)
    ensures Decimal.SignedValue(m[9..|m| - 7 - |query|]) == status
  {
    Decimal.IntToStringRoundTrip(status);
    "Received " + Decimal.IntToString(status) + " for q=" + query
  }

  /** The success envelope built from a decoded upstream payload: the constant fields,
      the upstream count as the total (0 without `data`), and either the records
      extracted at `limit` (a prefix of all the HTML yields) or the no-results error. */
  function Envelope(cfg: Config, query: string, limit: int, payload: Payload): (b: Body)
    ensures b.endpoint == Some("databases") && b.query == Some(query) && b.perPage == Some(3) &&
      b.page == Some(1) && b.moduleLink == Some(cfg.moduleUrl + query)
    ensures b.total == Some(if payload.data.Some? then payload.data.value.count else 0)
    ensures b.results.Some? <==> b.total.value > 0
    ensures b.results.Some? ==>
      b.results.value <= Extractor.Extracted(payload.data.value.html) &&
      |b.results.value| <= if limit >= 1 then limit else 1
    ensures b.error.Some? <==> b.results.None?
    ensures b.error.Some? ==> b.error.value == NoResults(cfg)
  {
    var html := if payload.data.Some? then payload.data.value.html else [];
    Extractor.ResultsArePrefix(html, limit);
    var rendered := if payload.data.Some? then Some(Extractor.ResultsOf(payload.data.value.html, limit)) else None;
    var total := if rendered.Some? && payload.data.Some? then payload.data.value.count else 0;
    Body(
      Some(Endpoint), Some(query), Some(3), Some(1), Some(total), Some(cfg.moduleUrl + query),
      if total > 0 then rendered else None,
      if total > 0 then None else Some(NoResults(cfg)))
  }

  /** The reply once the request has been sent and `upstream` came back: the envelope for
      a 200 or 206 response, and otherwise a 500 error naming the endpoint. */
  function Respond(cfg: Config, query: string, limit: int, upstream: Outcome): (r: Reply)
    ensures r.Json? && r.status in {200, 500}
    ensures r.status == 200 <==> upstream.Responded? && upstream.status in {200, 206}
    ensures r.status == 200 ==> r.body == Envelope(cfg, query, limit, upstream.payload)
    ensures r.status == 500 ==>
      r.body.endpoint == Some("databases") && r.body.error.Some? && r.body.error.value.noResultsUrl.None? &&
      r.body.query.None? && r.body.perPage.None? && r.body.page.None? &&
      r.body.total.None? && r.body.results.None? && r.body.moduleLink.None?
    ensures upstream.TransportFailure? ==> r.body.error == Some(ErrorInfo("Search error", None))
    ensures upstream.Responded? && upstream.status !in {200, 206} ==>
      r.body.error == Some(ErrorInfo(StatusMessage(upstream.status, query), None))
  {
    match upstream
    case TransportFailure => Json(500, ErrorBody(Some(Endpoint), SearchErrorMsg))
    case Responded(status, payload) =>
      if status != 200 && status != 206 then Json(500, ErrorBody(Some(Endpoint), StatusMessage(status, query)))
      else Json(200, Envelope(cfg, query, limit, payload))
  }

  /** `search`: the handler of `/search?q=...&per_page=...`. A request is sent exactly
      when `q` is given and non-empty and `per_page` is usable; every JSON reply is a
      200 envelope or a 400/500 error, and the envelope invariants hold. */
  function Search(cfg: Config, q: Option<string>, perPage: PerPageArg, upstream: Outcome): (x: Exchange)
    ensures x.sent.Some? <==> QueryOf(q).Some? && perPage != NotAnInteger
    ensures x.sent.Some? ==> x.sent.value == RequestFor(cfg, q.value)
    ensures x.reply.Unhandled? <==> QueryOf(q).Some? && perPage == NotAnInteger
    ensures x.reply.Json? ==> x.reply.status in {200, 400, 500}
    ensures x.reply.Json? && x.reply.status == 200 ==>
      var b := x.reply.body;
      x.sent.Some? &&
      b.endpoint == Some("databases") && b.query == q && b.perPage == Some(3) && b.page == Some(1) &&
      b.moduleLink == Some(cfg.moduleUrl + q.value) && b.total.Some? &&
      (b.results.Some? <==> b.total.value > 0) && (b.error.Some? <==> b.results.None?) &&
      (b.error.Some? ==> b.error.value == ErrorInfo("No Results", Some(cfg.noResultsUrl)))
    ensures x.reply.Json? && x.reply.status != 200 ==>
      var b := x.reply.body;
      b.error.Some? && b.error.value.noResultsUrl.None? &&
      b.query.None? && b.perPage.None? && b.page.None? &&
      b.total.None? && b.results.None? && b.moduleLink.None?
  {
    match QueryOf(q)
    case None => Exchange(None, Json(400, ErrorBody(None, QueryRequiredMsg)))
    case Some(query) =>
      match LimitOf(perPage)
      case None => Exchange(None, Unhandled("ValueError"))
      case Some(limit) => Exchange(Some(RequestFor(cfg, query)), Respond(cfg, query, limit, upstream))
  }

  // ---------------------------------------------------------------------------
  // Properties
  // ---------------------------------------------------------------------------

  /** A missing or empty `q` is refused with 400 and `{"error": {"msg": "q parameter is
      required"}}` before anything else, and no upstream request is sent. */
  lemma QueryRequired(cfg: Config, q: Option<string>, perPage: PerPageArg, upstream: Outcome)
    requires q.None? || q == Some("")
    ensures Search(cfg, q, perPage, upstream) ==
      Exchange(None, Json(400, Body(None, None, None, None, None, None, None,
        Some(ErrorInfo("q parameter is required", None)))))
  {
  }

  /** A missing or empty `per_page` behaves exactly as `per_page=3`. */
  lemma DefaultLimitIsThree(cfg: Config, q: Option<string>, perPage: PerPageArg, upstream: Outcome)
    requires perPage == Absent || perPage == Blank
    ensures Search(cfg, q, perPage, upstream) == Search(cfg, q, Integer(3), upstream)
  {
  }

  /** A transport failure gives 500 with only the endpoint and the generic message. */
  lemma TransportFailureReply(cfg: Config, query: string, perPage: PerPageArg)
    requires query != "" && perPage != NotAnInteger
    ensures Search(cfg, Some(query), perPage, TransportFailure).reply ==
      Json(500, Body(Some("databases"), None, None, None, None, None, None, Some(ErrorInfo("Search error", None))))
  {
  }

  /** A status other than 200 and 206 gives 500 with "Received {code} for q={query}". */
  lemma UnexpectedStatusReply(cfg: Config, query: string, perPage: PerPageArg, status: int, payload: Payload)
    requires query != "" && perPage != NotAnInteger
    requires status != 200 && status != 206
    ensures Search(cfg, Some(query), perPage, Responded(status, payload)).reply ==
      Json(500, Body(Some("databases"), None, None, None, None, None, None,
        Some(ErrorInfo("Received " + Decimal.IntToString(status) + " for q=" + query, None))))
  {
  }

  /** The message tells status codes apart: different codes give different messages. */
  lemma StatusMessageNamesCode(query: string, status: int, other: int)
    requires other != status
    ensures StatusMessage(other, query) != StatusMessage(status, query)
  {
  }

  /** On 200 or 206 the total is `data.count` when `data` is present and 0 otherwise (the
      upstream count, whatever the HTML holds); `results` is then the extraction of
      `data.html` at the requested limit when the total is positive, and otherwise the
      reply carries the no-results error with the configured URL. */
  lemma SuccessEnvelope(cfg: Config, query: string, perPage: PerPageArg, status: int, payload: Payload)
    requires query != "" && (perPage.Integer? || perPage == Absent || perPage == Blank)
    requires status == 200 || status == 206
    ensures
      var x := Search(cfg, Some(query), perPage, Responded(status, payload));
      var limit := if perPage.Integer? then perPage.n else 3;
      var total := if payload.data.Some? then payload.data.value.count else 0;
      x.reply == Json(200, Body(
        Some("databases"), Some(query), Some(3), Some(1), Some(total), Some(cfg.moduleUrl + query),
        if total > 0 then Some(Extractor.ResultsOf(payload.data.value.html, limit)) else None,
        if total > 0 then None else Some(ErrorInfo("No Results", Some(cfg.noResultsUrl)))))
  {
  }

  /** With a positive total and a limit of at least 1, `results` holds the first
      `min(limit, n)` records of the `n` complete containers, in document order; with a
      limit of 0 or less it holds at most the first container's record. */
  lemma SuccessResultCount(cfg: Config, query: string, perPage: PerPageArg, status: int, data: Data)
    requires query != "" && perPage != NotAnInteger
    requires status == 200 || status == 206
    requires data.count > 0
    ensures
      var b := Search(cfg, Some(query), perPage, Responded(status, Payload(Some(data)))).reply.body;
      var limit := if perPage.Integer? then perPage.n else 3;
      var all := Extractor.Extracted(data.html);
      b.total == Some(data.count) &&
      b.results.Some? && b.results.value <= all &&
      (limit >= 1 ==> |b.results.value| == if limit <= |all| then limit else |all|) &&
      (limit < 1 ==> |b.results.value| <= 1)
  {
    var limit := if perPage.Integer? then perPage.n else 3;
    Extractor.ResultsArePrefix(data.html, limit);
    Extractor.ResultsBound(data.html, limit);
  }
}
