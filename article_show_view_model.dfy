/** `ArticleShowViewModel`: the article screen, a fixed mapping from its three events to outputs. */
module ArticleShowViewModel {
  import opened Urls

  datatype Input = OnLoad | BackTapped | ReloadTapped

  datatype Output =
    | ShowAlert(title: string, message: string)
    | LoadPage(url: Url)
    | ReloadPage
    | NavigateBack

  /**
   * The `transform` dispatch; `articleUrl` is the model's URL. Every input
   * gives one output, different inputs different outputs, and no alert.
   */
  function Transform(input: Input, articleUrl: Url): (o: Output)
    ensures !o.ShowAlert?
    ensures o == LoadPage(articleUrl) <==> input.OnLoad?
    ensures o == NavigateBack <==> input.BackTapped?
    ensures o == ReloadPage <==> input.ReloadTapped?
  {
    match input
    case OnLoad => LoadPage(articleUrl)
    case BackTapped => NavigateBack
    case ReloadTapped => ReloadPage
  }

  /** Different inputs never give the same output. */
  lemma TransformInjective(a: Input, b: Input, articleUrl: Url)
    requires Transform(a, articleUrl) == Transform(b, articleUrl)
    ensures a == b
  {
  }
}
