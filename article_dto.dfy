/**
 * `ArticleDTO`: a favourite article as the store hands it out. `url` is the
 * locator of the stored record, absent until the article has been stored.
 */
module ArticleDto {
  import opened Wrappers
  import opened Urls
  import TN = TextNews

  datatype ArticleDTO = ArticleDTO(
    url: Option<Url>,
    title: string,
    articleDescription: string,
    author: string,
    articleUrl: Url,
    source: string,
    imageUrl: Url)

  /** The six descriptive fields agree; the locator may differ. */
  predicate SameContent(a: ArticleDTO, b: ArticleDTO)
  {
    && a.title == b.title && a.articleDescription == b.articleDescription && a.author == b.author
    && a.articleUrl == b.articleUrl && a.source == b.source && a.imageUrl == b.imageUrl
  }

  /** `init(model:)`: copies an article's fields, without a locator. */
  function FromArticle(model: TN.Article): (d: ArticleDTO)
    ensures d.url.None?
    ensures d.title == model.title && d.articleDescription == model.description && d.author == model.author
    ensures d.articleUrl == model.url && d.source == model.source && d.imageUrl == model.imageUrl
  {
    ArticleDTO(None, model.title, model.description, model.author, model.url, model.source, model.imageUrl)
  }

  /** The `description` the cell protocol asks for. */
  function Description(d: ArticleDTO): (r: string)
    ensures r == d.articleDescription
  {
    d.articleDescription
  }

  /**
   * Synthesised `Hashable` equality is structural over all seven fields: two
   * DTOs with the same content differ when their locators do.
   */
  lemma EqualityIncludesLocator(a: ArticleDTO, b: ArticleDTO)
    ensures a == b <==> SameContent(a, b) && a.url == b.url
  {
  }

  /** Favouriting an article forgets its UUID: two articles differing only in id give the same DTO. */
  lemma FromArticleForgetsId(a: TN.Article, b: TN.Article)
    requires a.(id := b.id) == b
    ensures FromArticle(a) == FromArticle(b)
  {
  }
}
