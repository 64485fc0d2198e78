/**
 * `FavouriteArticlesViewModel`: the favourites screen. Each event sends one
 * output or makes one call on the store; each store result is turned into one
 * output by its completion handler, whose failure side is the error's
 * description.
 */
module FavouriteArticlesViewModel {
  import opened Wrappers
  import opened Urls
  import opened ArticleDto

  datatype Input =
    | OnLoad
    | NewsTapped(article: ArticleDTO)
    | SwipedToDeleteArticle(article: ArticleDTO)

  datatype Output =
    | ShowAlert(title: string, message: string)
    | ShowArticle(url: Url)
    | DeleteArticle(article: ArticleDTO)
    | UpdateArticles(articles: seq<ArticleDTO>)

  /** The store calls the screen makes. */
  datatype ModelCall = GetFavouriteArticles | DeleteFavourite(article: ArticleDTO)

  /** What an event does at once: send an output, or call the store. */
  datatype Reaction = Emit(output: Output) | Call(call: ModelCall)

  /** The `transform` dispatch. */
  function Transform(input: Input): (r: Reaction)
    ensures r == Call(GetFavouriteArticles) <==> input.OnLoad?
    ensures r.Emit? <==> input.NewsTapped?
    ensures input.NewsTapped? ==> r == Emit(ShowArticle(input.article.articleUrl))
    ensures input.SwipedToDeleteArticle? ==> r == Call(DeleteFavourite(input.article))
  {
    match input
    case OnLoad => Call(GetFavouriteArticles)
    case NewsTapped(article) => Emit(ShowArticle(article.articleUrl))
    case SwipedToDeleteArticle(article) => Call(DeleteFavourite(article))
  }

  /** The result handler of `fetchFavouriteArticles`: the list as fetched, or an alert. */
  function FetchCompletion(result: Result<seq<ArticleDTO>, string>): (o: Output)
    ensures o.ShowAlert? <==> result.Failure?
    ensures result.Success? ==> o == UpdateArticles(result.value)
    ensures result.Failure? ==> o == ShowAlert("Error", result.error)
  {
    match result
    case Success(articles) => UpdateArticles(articles)
    case Failure(description) => ShowAlert("Error", description)
  }

  /** The result handler of `deleteArticle`: the DTO the store handed back, or an alert. */
  function DeleteCompletion(result: Result<ArticleDTO, string>): (o: Output)
    ensures o.ShowAlert? <==> result.Failure?
    ensures result.Success? ==> o == DeleteArticle(result.value)
    ensures result.Failure? ==> o == ShowAlert("Error", result.error)
  {
    match result
    case Success(article) => DeleteArticle(article)
    case Failure(description) => ShowAlert("Error", description)
  }
}
