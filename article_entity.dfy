/**
 * The stored form of a favourite: CoreData's `ArticleEntity`, a managed
 * object whose six attributes are optional, and the failable conversion back
 * to an `ArticleDTO`. Once the initialiser has filled the attributes nothing in
 * the app assigns them again, so they are constants of the object.
 */
module CoreDataModels {
  import opened Wrappers
  import opened Urls
  import opened ArticleDto

  class ArticleEntity {
    /** The identity the store gives the object when it is inserted. */
    const objectID: ObjectId
    const title: Option<string>
    const articleDescription: Option<string>
    const author: Option<string>
    const articleUrl: Option<Url>
    const source: Option<string>
    const imageUrl: Option<Url>

    /**
     * `init(article:insertInto:)`: copies the six descriptive fields of the
     * DTO; the DTO's own locator is not copied, the object's identity is the
     * one the store hands out.
     */
    constructor (article: ArticleDTO, objectID: ObjectId)
      ensures this.objectID == objectID
      ensures title == Some(article.title) && articleDescription == Some(article.articleDescription)
      ensures author == Some(article.author) && articleUrl == Some(article.articleUrl)
      ensures source == Some(article.source) && imageUrl == Some(article.imageUrl)
      ensures DtoFromEntity(this) == Some(article.(url := Some(ObjectUri(objectID))))
    {
      this.objectID := objectID;
      title := Some(article.title);
      articleDescription := Some(article.articleDescription);
      author := Some(article.author);
      articleUrl := Some(article.articleUrl);
      source := Some(article.source);
      imageUrl := Some(article.imageUrl);
    }
  }

  /** All six descriptive attributes are present. */
  predicate IsComplete(e: ArticleEntity)
  {
    && e.title.Some? && e.articleDescription.Some? && e.author.Some?
    && e.articleUrl.Some? && e.source.Some? && e.imageUrl.Some?
  }

  /**
   * `ArticleDTO.init?(_ entity:)`: nil when any attribute is missing,
   * otherwise the attributes with the URI of the object's id as locator.
   */
  function DtoFromEntity(e: ArticleEntity): (r: Option<ArticleDTO>)
    ensures r.Some? <==> IsComplete(e)
    ensures r.Some? ==> r.value.url == Some(ObjectUri(e.objectID))
    ensures r.Some? ==> && Some(r.value.title) == e.title && Some(r.value.articleDescription) == e.articleDescription
                        && Some(r.value.author) == e.author && Some(r.value.articleUrl) == e.articleUrl
                        && Some(r.value.source) == e.source && Some(r.value.imageUrl) == e.imageUrl
  {
    if IsComplete(e) then
      Some(ArticleDTO(Some(ObjectUri(e.objectID)), e.title.value, e.articleDescription.value, e.author.value,
                      e.articleUrl.value, e.source.value, e.imageUrl.value))
    else None
  }

  /**
   * Storing a DTO and reading it back gives the same content under the new
   * locator, whatever locator the DTO had.
   */
  lemma DtoEntityRoundTrip(d: ArticleDTO, e: ArticleEntity)
    requires e.title == Some(d.title) && e.articleDescription == Some(d.articleDescription)
    requires e.author == Some(d.author) && e.articleUrl == Some(d.articleUrl)
    requires e.source == Some(d.source) && e.imageUrl == Some(d.imageUrl)
    ensures DtoFromEntity(e).Some?
    ensures SameContent(DtoFromEntity(e).value, d)
    ensures DtoFromEntity(e).value == d.(url := Some(ObjectUri(e.objectID)))
  {
  }
}
