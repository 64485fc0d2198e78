/**
 * The wire form of a news API response, as decoded from JSON: every article
 * field except the article URL string may be missing.
 */
module TextNewsNetworkModel {
  import opened Wrappers

  datatype Source = Source(name: string)

  datatype Article = Article(
    title: Option<string>,
    description: Option<string>,
    author: Option<string>,
    urlString: string,
    imageUrlString: Option<string>,
    source: Option<Source>)

  datatype TextNewsNetworkModel = TextNewsNetworkModel(totalResults: int, articles: seq<Article>)

  /** The `sortBy` orders the API offers. */
  datatype SortType = PublishedAt | Relevancy | Popularity

  /** The enum's raw string, which is the case name. */
  function SortRawValue(s: SortType): (r: string)
    ensures s == PublishedAt <==> r == "publishedAt"
    ensures s == Relevancy <==> r == "relevancy"
    ensures s == Popularity <==> r == "popularity"
  {
    match s
    case PublishedAt => "publishedAt"
    case Relevancy => "relevancy"
    case Popularity => "popularity"
  }
}
