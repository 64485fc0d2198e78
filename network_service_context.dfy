/**
 * `getnewsPublisher`: the query dictionary and the router for one request to
 * the news API's everything endpoint.
 */
module NetworkServiceContext {
  import opened QueryItems
  import Net = TextNewsNetworkModel
  import NetworkService

  datatype HttpMethod = Get | Post | Put | Patch | Delete

  /** The fields of a `Router`; a body's `Any` values are kept as their descriptions. */
  datatype Router = Router(
    scheme: string,
    host: string,
    path: string,
    headers: map<string, string>,
    queryItems: map<string, QueryValue>,
    httpMethod: HttpMethod,
    body: Wrappers.Option<map<string, string>>)

  /** The arguments of one `getnewsPublisher` call. */
  datatype NewsRequest = NewsRequest(query: string, page: int, sortedBy: Net.SortType, size: int)

  const NewsQueryKeys: set<string> := {"q", "apiKey", "language", "sortBy", "pageSize", "page"}

  /** The query dictionary literal. */
  function NewsQueryItems(req: NewsRequest): (d: map<string, QueryValue>)
    ensures d.Keys == NewsQueryKeys && |d| == 6
    ensures d["q"] == Text(req.query)
    ensures d["apiKey"] == Text(NetworkService.NewsKey)
    ensures d["language"] == Text("en")
    ensures d["sortBy"] == Text(Net.SortRawValue(req.sortedBy))
    ensures d["pageSize"] == Integer(req.size)
    ensures d["page"] == Integer(req.page)
  {
    var d := map[
      "q" := Text(req.query),
      "apiKey" := Text(NetworkService.NewsKey),
      "language" := Text("en"),
      "sortBy" := Text(Net.SortRawValue(req.sortedBy)),
      "pageSize" := Integer(req.size),
      "page" := Integer(req.page)];
    assert d.Keys == NewsQueryKeys;
    assert |NewsQueryKeys| == 6;
    d
  }

  /** The router built by `getnewsPublisher`, with `Router.init`'s defaults for scheme, method and body. */
  function NewsRouter(req: NewsRequest): (r: Router)
    ensures r.scheme == "https" && r.host == "newsapi.org" && r.path == "/v2/everything"
    ensures r.headers == map[] && r.httpMethod == Get && r.body.None?
    ensures r.queryItems == NewsQueryItems(req)
  {
    Router("https", "newsapi.org", "/v2/everything", map[], NewsQueryItems(req), Get, Wrappers.None)
  }

  /**
   * Whatever order the dictionary iterates in, the request's query carries six
   * items, exactly one per parameter, and each reads back as the argument
   * it was built from: the query text, the fixed key and language, the sort
   * order's raw value, and the page and page size as decimal numbers.
   */
  lemma NewsQueryCarriesArguments(req: NewsRequest, keys: seq<string>)
    requires EnumeratesKeys(keys, NewsRouter(req).queryItems)
    ensures |FromDictionary(NewsRouter(req).queryItems, keys)| == 6
    ensures forall it :: it in FromDictionary(NewsRouter(req).queryItems, keys) ==>
              && it.name in NewsQueryKeys
              && (it.name == "q" ==> it.value == req.query)
              && (it.name == "apiKey" ==> it.value == NetworkService.NewsKey)
              && (it.name == "language" ==> it.value == "en")
              && (it.name == "sortBy" ==> it.value == Net.SortRawValue(req.sortedBy))
              && (it.name == "pageSize" ==> ParseInt(it.value) == Wrappers.Some(req.size))
              && (it.name == "page" ==> ParseInt(it.value) == Wrappers.Some(req.page))
    ensures forall a, b :: 0 <= a < b < 6 ==>
              FromDictionary(NewsRouter(req).queryItems, keys)[a].name != FromDictionary(NewsRouter(req).queryItems, keys)[b].name
  {
    FromDictionaryOneItemPerEntry(NewsRouter(req).queryItems, keys);
  }
}
