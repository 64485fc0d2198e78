/**
 * The strict domain model of a batch of news and its construction from the
 * wire form. A record becomes an `Article` only when every field it needs is
 * present and both URLs parse, the image URL over https; a batch keeps the
 * records that pass, in order, and drops the rest silently.
 */
module TextNews {
  import opened Wrappers
  import opened Urls
  import Net = TextNewsNetworkModel

  /** A UUID: 128 bits, generated locally for each article. */
  newtype Uuid = x: int | 0 <= x < 0x1_0000_0000_0000_0000_0000_0000_0000_0000

  datatype Article = Article(
    id: Uuid,
    title: string,
    description: string,
    author: string,
    url: Url,
    imageUrl: Url,
    source: string)

  datatype TextNews = TextNews(totalResults: int, articles: seq<Article>)

  /**
   * `TextNews.Article.init?(model:)`: `id` is the UUID the new article is given,
   * `parse` is `URL(string:)`. Only absence is checked, so empty strings pass.
   */
  function Validate(model: Net.Article, id: Uuid, parse: string -> Option<Url>): (r: Option<Article>)
    ensures model.title.None? ==> r.None?
    ensures model.description.None? ==> r.None?
    ensures model.author.None? ==> r.None?
    ensures model.source.None? ==> r.None?
    ensures parse(model.urlString).None? ==> r.None?
    ensures model.imageUrlString.None? ==> r.None?
    ensures model.imageUrlString.Some? && parse(model.imageUrlString.value).None? ==> r.None?
    ensures (model.imageUrlString.Some? && parse(model.imageUrlString.value).Some?
              && Scheme(parse(model.imageUrlString.value).value) != Some("https")) ==> r.None?
    ensures r.None? ==>
              || model.title.None? || model.description.None? || model.author.None?
              || model.source.None? || parse(model.urlString).None?
              || model.imageUrlString.None? || parse(model.imageUrlString.value).None?
              || Scheme(parse(model.imageUrlString.value).value) != Some("https")
    ensures r.Some? ==>
              && r.value.id == id
              && Some(r.value.title) == model.title
              && Some(r.value.description) == model.description
              && Some(r.value.author) == model.author
              && Some(r.value.url) == parse(model.urlString)
              && Some(r.value.imageUrl) == parse(model.imageUrlString.value)
              && Scheme(r.value.imageUrl) == Some("https")
              && Some(Net.Source(r.value.source)) == model.source
  {
    if model.title.None? || model.description.None? || model.author.None? then None
    else
      var url := parse(model.urlString);
      if url.None? || model.imageUrlString.None? then None
      else
        var imageUrl := parse(model.imageUrlString.value);
        if imageUrl.None? || Scheme(imageUrl.value) != Some("https") || model.source.None? then None
        else Some(Article(id, model.title.value, model.description.value, model.author.value,
                          url.value, imageUrl.value, model.source.value.name))
  }

  /** Only absence is checked: present but empty strings pass validation. */
  lemma EmptyFieldsAccepted(model: Net.Article, id: Uuid, parse: string -> Option<Url>)
    requires model.title == Some("") && model.description == Some("") && model.author == Some("")
    requires model.source == Some(Net.Source(""))
    requires parse(model.urlString).Some?
    requires model.imageUrlString.Some? && parse(model.imageUrlString.value).Some?
    requires Scheme(parse(model.imageUrlString.value).value) == Some("https")
    ensures Validate(model, id, parse).Some?
    ensures Validate(model, id, parse).value.title == ""
    ensures Validate(model, id, parse).value.source == ""
  {
  }

  /** Each record validated, `ids[i]` being the UUID of the article built from `records[i]`. */
  function ValidateAll(records: seq<Net.Article>, ids: seq<Uuid>, parse: string -> Option<Url>): (r: seq<Option<Article>>)
    requires |ids| == |records|
    ensures |r| == |records|
    ensures forall i :: 0 <= i < |records| ==> r[i] == Validate(records[i], ids[i], parse)
  {
    seq(|records|, i requires 0 <= i < |records| => Validate(records[i], ids[i], parse))
  }

  /** `TextNews.init(model:)`: the batch keeps the articles that validate. */
  function FromNetwork(model: Net.TextNewsNetworkModel, ids: seq<Uuid>, parse: string -> Option<Url>): (r: TextNews)
    requires |ids| == |model.articles|
    ensures r.totalResults == model.totalResults
    ensures |r.articles| <= |model.articles|
  {
    TextNews(model.totalResults, Somes(ValidateAll(model.articles, ids, parse)))
  }

  /**
   * The articles of a converted batch are exactly its valid records, in input
   * order: `idx` lists the positions of the records that validate, increasing,
   * and the k-th article is the one built from record `idx[k]`.
   */
  lemma FromNetworkKeepsValidInOrder(model: Net.TextNewsNetworkModel, ids: seq<Uuid>, parse: string -> Option<Url>)
    returns (idx: seq<nat>)
    requires |ids| == |model.articles|
    ensures |idx| == |FromNetwork(model, ids, parse).articles|
    ensures forall k :: 0 <= k < |idx| ==>
              && idx[k] < |model.articles|
              && Validate(model.articles[idx[k]], ids[idx[k]], parse) == Some(FromNetwork(model, ids, parse).articles[k])
    ensures Increasing(idx)
    ensures forall i :: 0 <= i < |model.articles| ==>
              (Validate(model.articles[i], ids[i], parse).Some? <==> i in idx)
  {
    var all := ValidateAll(model.articles, ids, parse);
    idx := SomesKeepsPresentInOrder(all);
    forall i | 0 <= i < |model.articles| && i in idx
      ensures Validate(model.articles[i], ids[i], parse).Some?
    {
      var k :| 0 <= k < |idx| && idx[k] == i;
    }
  }

  /** Every article of a converted batch carries one of the batch's UUIDs and an https image URL. */
  lemma FromNetworkArticlesAreValid(model: Net.TextNewsNetworkModel, ids: seq<Uuid>, parse: string -> Option<Url>)
    requires |ids| == |model.articles|
    ensures forall a :: a in FromNetwork(model, ids, parse).articles ==> Scheme(a.imageUrl) == Some("https") && a.id in ids
  {
    var r := FromNetwork(model, ids, parse).articles;
    var idx := FromNetworkKeepsValidInOrder(model, ids, parse);
    forall a | a in r ensures Scheme(a.imageUrl) == Some("https") && a.id in ids {
      var k :| 0 <= k < |r| && r[k] == a;
      assert ids[idx[k]] == a.id;
    }
  }

  /** A batch whose records all validate loses none of them. */
  lemma FromNetworkKeepsAllValid(model: Net.TextNewsNetworkModel, ids: seq<Uuid>, parse: string -> Option<Url>)
    requires |ids| == |model.articles|
    requires forall i :: 0 <= i < |model.articles| ==> Validate(model.articles[i], ids[i], parse).Some?
    ensures |FromNetwork(model, ids, parse).articles| == |model.articles|
  {
  }

  /** The values `hash(into:)` feeds the hasher: the id alone. */
  function HashInput(a: Article): (r: seq<Uuid>)
    ensures |r| == 1 && r[0] == a.id
  {
    [a.id]
  }

  /** Hashing depends only on `id`: two articles with the same id hash alike whatever their content. */
  lemma HashDependsOnlyOnId(a: Article, b: Article)
    ensures HashInput(a) == HashInput(b) <==> a.id == b.id
  {
  }
}
