/** The HTTP client: the page-to-offset conversion of `getTemplates` and the
    shape of the page it returns, the request interceptor that attaches the
    bearer token, the response interceptor that forgets it on a 401, and the
    404 mapping of `getNotionStatus`. The transport is left out: the
    server's reply to each request is an input. */
module Api {
  import opened Wrappers
  import opened Types

  const DefaultLimit: int := 20
  const AuthorizationHeader: string := "Authorization"

  /** JavaScript truthiness of an optional number: missing and 0 are falsy. */
  predicate Given(x: Option<int>) {
    x.Some? && x.value != 0
  }

  /** `x || d` on an optional number. */
  function Or(x: Option<int>, d: int): (r: int)
    ensures Given(x) ==> r == x.value
    ensures !Given(x) ==> r == d
  {
    if Given(x) then x.value else d
  }

  // ---------------------------------------------------------------------
  // getTemplates

  /** The optional arguments of `getTemplates`. */
  datatype TemplateQuery = TemplateQuery(page: Option<int>, limit: Option<int>, search: Option<string>, category: Option<string>)

  /** The query string actually sent: `page` is traded for `offset`. */
  datatype RequestParams = RequestParams(
    page: Option<int>, offset: Option<int>, limit: Option<int>, search: Option<string>, category: Option<string>)

  /** The parameters sent for a query: with a page, that page's offset at
      the effective limit and no page; without one, no offset. Every other
      parameter passes through. */
  function ParamsFor(q: TemplateQuery): (p: RequestParams)
    ensures p.limit == q.limit && p.search == q.search && p.category == q.category
    ensures Given(q.page) ==> p.page.None? && p.offset == Some((q.page.value - 1) * Or(q.limit, DefaultLimit))
    ensures !Given(q.page) ==> p.page == q.page && p.offset.None?
  {
    if Given(q.page) then RequestParams(None, Some((q.page.value - 1) * Or(q.limit, DefaultLimit)), q.limit, q.search, q.category)
    else RequestParams(q.page, None, q.limit, q.search, q.category)
  }

  /** The conversion as `getTemplates` does it: copy, add the offset, delete
      the page. */
  method ToRequestParams(q: TemplateQuery) returns (p: RequestParams)
    ensures p == ParamsFor(q)
  {
    p := RequestParams(q.page, None, q.limit, q.search, q.category);
    if Given(q.page) {
      p := p.(offset := Some((q.page.value - 1) * Or(q.limit, DefaultLimit)));
      p := p.(page := None);
    }
  }

  /** Page 1 starts at offset 0 and every next page starts exactly one
      limit further on: consecutive pages neither overlap nor leave a gap. */
  lemma OffsetsAbut(q: TemplateQuery)
    requires q.page.Some? && q.page.value >= 1
    requires q.limit.None? || q.limit.value >= 0
    ensures ParamsFor(q).offset.Some? && ParamsFor(q).offset.value >= 0
    ensures q.page.value == 1 ==> ParamsFor(q).offset.value == 0
    ensures ParamsFor(q.(page := Some(q.page.value + 1))).offset.value ==
            ParamsFor(q).offset.value + Or(q.limit, DefaultLimit)
  {
  }

  /** The body of the backend's reply: either field may be missing. */
  datatype BackendPage<T> = BackendPage(templates: Option<seq<T>>, total: Option<int>)

  /** The page `getTemplates` returns: missing templates are none, a missing
      total is 0, page and limit default to 1 and 20, and there is more
      exactly when the total exceeds what pages 1..page hold. */
  function PageOf<T>(q: TemplateQuery, b: BackendPage<T>): (r: PaginatedResponse<T>)
    ensures r.data == (if b.templates.Some? then b.templates.value else [])
    ensures r.total == Or(b.total, 0)
    ensures r.page == Or(q.page, 1) && r.limit == Or(q.limit, DefaultLimit)
    ensures r.hasMore <==> r.total > r.page * r.limit
  {
    var total := Or(b.total, 0);
    var page := Or(q.page, 1);
    var limit := Or(q.limit, DefaultLimit);
    PaginatedResponse(if b.templates.Some? then b.templates.value else [], total, page, limit, total > page * limit)
  }

  /** `hasMore` says that the next page's request starts inside the
      collection: the offset sent for page + 1 is below the total. */
  lemma HasMoreIffNextOffsetBelowTotal<T>(q: TemplateQuery, b: BackendPage<T>)
    requires q.page.None? || q.page.value >= 1
    ensures var r := PageOf(q, b);
            var next := ParamsFor(q.(page := Some(r.page + 1)));
            next.offset.Some? && (r.hasMore <==> next.offset.value < r.total)
  {
  }

  // ---------------------------------------------------------------------
  // Requests, replies and the interceptors

  datatype RequestConfig = RequestConfig(url: string, headers: map<string, string>)

  /** A failed request as axios reports it: the reply's status, when there
      was a reply, and the message. */
  datatype HttpError = HttpError(status: Option<int>, message: string)

  datatype Outcome<T> = Success(value: T) | Failure(error: HttpError)

  predicate Unauthorized<T>(o: Outcome<T>) {
    o.Failure? && o.error.status == Some(401)
  }

  /** The request interceptor's effect on a request: with a (non-empty)
      token the Authorization header becomes the bearer token, otherwise the
      request goes out as it is. */
  function Authorize(config: RequestConfig, token: Option<string>): (sent: RequestConfig)
    ensures sent.url == config.url
    ensures token.Some? && token.value != "" ==>
              AuthorizationHeader in sent.headers && sent.headers[AuthorizationHeader] == "Bearer " + token.value
    ensures !(token.Some? && token.value != "") ==> sent == config
    ensures forall h :: h != AuthorizationHeader ==>
              (h in sent.headers <==> h in config.headers) &&
              (h in config.headers ==> sent.headers[h] == config.headers[h])
  {
    if token.Some? && token.value != "" then
      config.(headers := config.headers[AuthorizationHeader := "Bearer " + token.value])
    else config
  }

  /** A request that carried no Authorization header of its own carries one
      after the interceptor exactly when a token is stored. */
  lemma AuthorizedIffToken(config: RequestConfig, token: Option<string>)
    requires AuthorizationHeader !in config.headers
    ensures AuthorizationHeader in Authorize(config, token).headers <==> token.Some? && token.value != ""
  {
  }

  /** What `getNotionStatus` makes of the reply: a 404 means no integration
      (`null`), every other failure is passed on. */
  function NotionStatusOf(reply: Outcome<NotionIntegration>): (r: Outcome<Option<NotionIntegration>>)
    ensures r.Failure? <==> reply.Failure? && reply.error.status != Some(404)
    ensures r.Failure? ==> r.error == reply.error
    ensures reply.Success? ==> r == Success(Some(reply.value))
    ensures reply.Failure? && reply.error.status == Some(404) ==> r == Success(None)
  {
    match reply
    case Success(v) => Success(Some(v))
    case Failure(e) => if e.status == Some(404) then Success(None) else Failure(e)
  }

  /** The axios instance together with the `auth_token` entry of session
      storage, which both interceptors consult. */
  class ApiService {
    var authToken: Option<string>

    constructor (stored: Option<string>)
      ensures authToken == stored
    {
      authToken := stored;
    }

    /** The response error interceptor: a 401 removes the stored token,
        any other error leaves it; the error is thrown on unchanged. */
    method OnResponseError(e: HttpError) returns (rethrown: HttpError)
      modifies this
      ensures rethrown == e
      ensures authToken == if e.status == Some(401) then None else old(authToken)
    {
      if e.status == Some(401) {
        authToken := None;
      }
      rethrown := e;
    }

    /** One round trip: the request interceptor decorates the request, the
        server's `reply` to it comes back, and the response interceptor
        sees it. The outcome reaches the caller unchanged. */
    method Send<T>(config: RequestConfig, reply: Outcome<T>) returns (sent: RequestConfig, result: Outcome<T>)
      modifies this
      ensures sent == Authorize(config, old(authToken))
      ensures result == reply
      ensures authToken == if Unauthorized(reply) then None else old(authToken)
    {
      sent := Authorize(config, authToken);
      match reply
      case Success(_) =>
        result := reply;
      case Failure(e) =>
        var e' := OnResponseError(e);
        result := Failure(e');
    }

    /** `getTemplates`: the parameters sent, and the page made of the reply. */
    method GetTemplates(q: TemplateQuery, reply: Outcome<BackendPage<Template>>)
      returns (sent: RequestConfig, params: RequestParams, result: Outcome<PaginatedResponse<Template>>)
      modifies this
      ensures params == ParamsFor(q)
      ensures sent == Authorize(RequestConfig("/templates", map[]), old(authToken))
      ensures reply.Success? ==> result == Success(PageOf(q, reply.value))
      ensures reply.Failure? ==> result == Failure(reply.error)
      ensures authToken == if Unauthorized(reply) then None else old(authToken)
    {
      params := ToRequestParams(q);
      var r;
      sent, r := Send(RequestConfig("/templates", map[]), reply);
      match r
      case Success(b) =>
        result := Success(PageOf(q, b));
      case Failure(e) =>
        result := Failure(e);
    }

    /** `getNotionStatus`. */
    method GetNotionStatus(reply: Outcome<NotionIntegration>)
      returns (sent: RequestConfig, result: Outcome<Option<NotionIntegration>>)
      modifies this
      ensures sent == Authorize(RequestConfig("/notion/status", map[]), old(authToken))
      ensures result == NotionStatusOf(reply)
      ensures authToken == if Unauthorized(reply) then None else old(authToken)
    {
      var r;
      sent, r := Send(RequestConfig("/notion/status", map[]), reply);
      match r
      case Success(v) =>
        result := Success(Some(v));
      case Failure(e) =>
        result := if e.status == Some(404) then Success(None) else Failure(e);
    }
  }
}
