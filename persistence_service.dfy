/**
 * `PersistenceService`: the favourites store over CoreData, reduced to a table
 * from object id to entity. `committed` is what has been saved to the
 * persistent store, which is what the main context shows; `pending` is the
 * background context, the saved objects with its unsaved changes applied.
 * Saving either commits `pending` or rolls it back to `committed`; whether the
 * save succeeds is CoreData's business and enters as a parameter.
 */
module PersistenceService {
  import opened Wrappers
  import opened Urls
  import opened ArticleDto
  import opened CoreDataModels
  import PE = PersistenceServiceError

  /** What the operations throw: the service's own errors, or CoreData's when no object exists for an id. */
  datatype StoreError = Service(error: PE.PersistenceServiceError) | NoSuchObject(id: ObjectId)

  datatype Context = Main | Background

  /** `getObjectID(from:)`: exactly the URI representations of object ids name an object id. */
  function GetObjectId(url: Url): (r: Option<ObjectId>)
    ensures r.Some? <==> url.ObjectUri?
    ensures r.Some? ==> url == ObjectUri(r.value)
  {
    match url
    case ObjectUri(id) => Some(id)
    case WebUrl(_, _) => None
  }

  /** The message thrown when a URL names no object id; `contextDescription` is how the context prints itself. */
  function NotFoundMessage(url: Url, contextDescription: string): string
    requires url.WebUrl?
  {
    "Not found id from URL: " + url.absoluteString + " in context " + contextDescription
  }

  /** Every entity is stored under its own id, and every id is below the next one to be handed out. */
  predicate KeyedBy(table: map<ObjectId, ArticleEntity>, nextId: nat)
  {
    forall id :: id in table ==> table[id].objectID == id && id.n < nextId
  }

  /** `entities` lists every entity of `table` exactly once. */
  predicate Enumerates(entities: seq<ArticleEntity>, table: map<ObjectId, ArticleEntity>)
  {
    && (forall k :: 0 <= k < |entities| ==> entities[k].objectID in table && table[entities[k].objectID] == entities[k])
    && (forall k, l :: 0 <= k < l < |entities| ==> entities[k].objectID != entities[l].objectID)
    && (forall id :: id in table ==> table[id] in entities)
  }

  /** The DTOs that can be read back from a table: one per complete entity. */
  function StoredDtos(table: map<ObjectId, ArticleEntity>): set<ArticleDTO>
  {
    set id | id in table && IsComplete(table[id]) :: DtoFromEntity(table[id]).value
  }

  /** `entities.compactMap { ArticleDTO($0) }`. */
  function DtosOf(entities: seq<ArticleEntity>): (r: seq<ArticleDTO>)
    ensures |r| <= |entities|
  {
    Somes(seq(|entities|, k requires 0 <= k < |entities| => DtoFromEntity(entities[k])))
  }

  /**
   * The compact map keeps exactly the complete entities, in fetch order, and
   * drops the rest: `idx` lists the positions of the complete entities,
   * increasing, and the k-th DTO is read from entity `idx[k]`.
   */
  lemma DtosOfKeepsCompleteInOrder(entities: seq<ArticleEntity>) returns (idx: seq<nat>)
    ensures |idx| == |DtosOf(entities)| && Increasing(idx)
    ensures forall k :: 0 <= k < |idx| ==>
              idx[k] < |entities| && DtoFromEntity(entities[idx[k]]) == Some(DtosOf(entities)[k])
    ensures forall i :: 0 <= i < |entities| ==> (IsComplete(entities[i]) <==> i in idx)
  {
    var dtos := seq(|entities|, k requires 0 <= k < |entities| => DtoFromEntity(entities[k]));
    idx := SomesKeepsPresentInOrder(dtos);
    forall i | 0 <= i < |entities| && i in idx
      ensures IsComplete(entities[i])
    {
      var k :| 0 <= k < |idx| && idx[k] == i;
      assert dtos[i].Some?;
    }
  }

  /**
   * Converting an enumeration of a table yields exactly the table's readable
   * DTOs, each once, each carrying the locator of a stored object.
   */
  lemma DtosOfEnumeration(entities: seq<ArticleEntity>, table: map<ObjectId, ArticleEntity>, nextId: nat)
    requires KeyedBy(table, nextId) && Enumerates(entities, table)
    ensures forall d :: d in DtosOf(entities) <==> d in StoredDtos(table)
    ensures forall k, l :: 0 <= k < l < |DtosOf(entities)| ==> DtosOf(entities)[k] != DtosOf(entities)[l]
    ensures forall k :: 0 <= k < |DtosOf(entities)| ==> Located(DtosOf(entities)[k], table)
  {
    var dtos := seq(|entities|, k requires 0 <= k < |entities| => DtoFromEntity(entities[k]));
    var r := DtosOf(entities);
    var idx := SomesKeepsPresentInOrder(dtos);
    forall k | 0 <= k < |r| ensures r[k] in StoredDtos(table) && Located(r[k], table) {
      PickedIsStored(entities, table, dtos, idx, r, k);
    }
    forall k, l | 0 <= k < l < |r| ensures r[k] != r[l] {
      assert r[k].url == Some(ObjectUri(entities[idx[k]].objectID));
      assert r[l].url == Some(ObjectUri(entities[idx[l]].objectID));
      assert idx[k] < idx[l];
    }
    forall d | d in StoredDtos(table) ensures d in r {
      StoredIsPicked(entities, table, dtos, idx, r, d);
    }
  }

  /** The DTO's locator names a stored object. */
  predicate Located(d: ArticleDTO, table: map<ObjectId, ArticleEntity>)
  {
    d.url.Some? && GetObjectId(d.url.value).Some? && GetObjectId(d.url.value).value in table
  }

  lemma PickedIsStored(entities: seq<ArticleEntity>, table: map<ObjectId, ArticleEntity>,
                       dtos: seq<Option<ArticleDTO>>, idx: seq<nat>, r: seq<ArticleDTO>, k: nat)
    requires Enumerates(entities, table)
    requires dtos == seq(|entities|, k requires 0 <= k < |entities| => DtoFromEntity(entities[k]))
    requires Picks(dtos, idx, r) && k < |r|
    ensures r[k] in StoredDtos(table) && Located(r[k], table)
  {
    var e := entities[idx[k]];
    assert DtoFromEntity(e) == Some(r[k]);
    assert table[e.objectID] == e;
  }

  lemma StoredIsPicked(entities: seq<ArticleEntity>, table: map<ObjectId, ArticleEntity>,
                       dtos: seq<Option<ArticleDTO>>, idx: seq<nat>, r: seq<ArticleDTO>, d: ArticleDTO)
    requires Enumerates(entities, table)
    requires dtos == seq(|entities|, k requires 0 <= k < |entities| => DtoFromEntity(entities[k]))
    requires Picks(dtos, idx, r)
    requires forall i :: 0 <= i < |dtos| && dtos[i].Some? ==> i in idx
    requires d in StoredDtos(table)
    ensures d in r
  {
    var id :| id in table && IsComplete(table[id]) && DtoFromEntity(table[id]).value == d;
    var i :| 0 <= i < |entities| && entities[i] == table[id];
    assert dtos[i] == Some(d);
    var k :| 0 <= k < |idx| && idx[k] == i;
    assert r[k] == d;
  }

  /** A complete entity inserted under a new id can be read back. */
  lemma InsertedIsStored(table: map<ObjectId, ArticleEntity>, id: ObjectId, e: ArticleEntity)
    requires IsComplete(e)
    ensures DtoFromEntity(e).value in StoredDtos(table[id := e])
  {
    assert id in table[id := e] && table[id := e][id] == e;
  }

  /** Once an id is removed from a table, no readable DTO carries its locator. */
  lemma RemovedIsGone(table: map<ObjectId, ArticleEntity>, nextId: nat, id: ObjectId)
    requires KeyedBy(table, nextId)
    ensures forall d :: d in StoredDtos(table - {id}) ==> d.url != Some(ObjectUri(id))
  {
    forall d | d in StoredDtos(table - {id}) ensures d.url != Some(ObjectUri(id)) {
      var other :| other in table - {id} && IsComplete((table - {id})[other]) && DtoFromEntity((table - {id})[other]).value == d;
      assert d.url == Some(ObjectUri(other));
    }
  }

  class PersistenceService {
    var committed: map<ObjectId, ArticleEntity>
    var pending: map<ObjectId, ArticleEntity>
    var nextId: nat
    /** How the main and the background context print themselves. */
    const mainDescription: string
    const backgroundDescription: string

    ghost predicate Valid()
      reads this
    {
      KeyedBy(committed, nextId) && KeyedBy(pending, nextId)
    }

    /**
     * Opening the persistent store: both contexts start with the favourites
     * saved by earlier launches, `loaded`, and new ids are handed out from
     * `nextFree` on.
     */
    constructor (loaded: map<ObjectId, ArticleEntity>, nextFree: nat, mainDescription: string, backgroundDescription: string)
      requires KeyedBy(loaded, nextFree)
      ensures Valid()
      ensures committed == loaded && pending == loaded && nextId == nextFree
      ensures this.mainDescription == mainDescription && this.backgroundDescription == backgroundDescription
    {
      committed := loaded;
      pending := loaded;
      nextId := nextFree;
      this.mainDescription := mainDescription;
      this.backgroundDescription := backgroundDescription;
    }

    /** The objects a context sees. */
    function Table(context: Context): map<ObjectId, ArticleEntity>
      reads this
    {
      if context == Main then committed else pending
    }

    function Description(context: Context): string
      reads this
    {
      if context == Main then mainDescription else backgroundDescription
    }

    /** `fetch(on:)` with no predicate: every entity the context sees, once each, in no particular order. */
    method Fetch(context: Context) returns (entities: seq<ArticleEntity>)
      requires Valid()
      ensures Enumerates(entities, Table(context))
    {
      var table := Table(context);
      var todo := table.Keys;
      entities := [];
      while todo != {}
        invariant todo <= table.Keys
        invariant forall k :: 0 <= k < |entities| ==>
                    entities[k].objectID in table && entities[k].objectID !in todo && table[entities[k].objectID] == entities[k]
        invariant forall k, l :: 0 <= k < l < |entities| ==> entities[k].objectID != entities[l].objectID
        invariant forall id :: id in table && id !in todo ==> table[id] in entities
        decreases |todo|
      {
        var id :| id in todo;
        entities := entities + [table[id]];
        todo := todo - {id};
      }
    }

    /**
     * `fetch(url:on:)`: the entity the URL names; fails when the URL names no
     * object id, and when no object exists for the id.
     */
    function FetchUrl(url: Url, context: Context): (r: Result<ArticleEntity, StoreError>)
      reads this
      ensures url.WebUrl? ==> r == Failure(Service(PE.General(NotFoundMessage(url, Description(context)))))
      ensures url.ObjectUri? && url.id !in Table(context) ==> r == Failure(NoSuchObject(url.id))
      ensures r.Success? <==> GetObjectId(url).Some? && GetObjectId(url).value in Table(context)
      ensures r.Success? ==> r.value == Table(context)[GetObjectId(url).value]
    {
      match GetObjectId(url)
      case None => Failure(Service(PE.General(NotFoundMessage(url, Description(context)))))
      case Some(id) => if id in Table(context) then Success(Table(context)[id]) else Failure(NoSuchObject(id))
    }

    /**
     * `delete(url:on:)` on the background context: removes exactly the named
     * object from the unsaved state; on either failure nothing changes.
     */
    method Delete(url: Url) returns (r: Result<(), StoreError>)
      requires Valid()
      modifies this
      ensures Valid()
      ensures committed == old(committed) && nextId == old(nextId)
      ensures url.WebUrl? ==> r == Failure(Service(PE.General(NotFoundMessage(url, backgroundDescription))))
      ensures url.ObjectUri? && url.id !in old(pending) ==> r == Failure(NoSuchObject(url.id))
      ensures r.Success? <==> GetObjectId(url).Some? && GetObjectId(url).value in old(pending)
      ensures r.Success? ==> pending == old(pending) - {GetObjectId(url).value}
      ensures r.Failure? ==> pending == old(pending)
    {
      var objectId := GetObjectId(url);
      if objectId.None? {
        return Failure(Service(PE.General(NotFoundMessage(url, backgroundDescription))));
      }
      var id := objectId.value;
      if id !in pending {
        return Failure(NoSuchObject(id));
      }
      pending := pending - {id};
      r := Success(());
    }

    /** `saveContextIfNeeded` on the background context: commit, or roll back and return normally. */
    method SaveContextIfNeeded(saveSucceeds: bool)
      requires Valid()
      modifies this
      ensures Valid()
      ensures nextId == old(nextId)
      ensures saveSucceeds ==> committed == old(pending) && pending == old(pending)
      ensures !saveSucceeds ==> committed == old(committed) && pending == old(committed)
    {
      if saveSucceeds {
        committed := pending;
      } else {
        pending := committed;
      }
    }

    /**
     * `create(article:)`: inserts one new entity with the DTO's content and
     * reports it, with its new locator, before saving. The report is a success
     * even when the save is rolled back. Once saved, the store holds a DTO with
     * the same content.
     */
    method Create(article: ArticleDTO, saveSucceeds: bool) returns (r: Result<ArticleDTO, StoreError>)
      requires Valid()
      modifies this
      ensures Valid()
      ensures nextId == old(nextId) + 1
      ensures r == Success(article.(url := Some(ObjectUri(ObjectId(old(nextId))))))
      ensures ObjectId(old(nextId)) !in old(pending) && ObjectId(old(nextId)) !in old(committed)
      ensures saveSucceeds ==>
                && ObjectId(old(nextId)) in committed && pending == committed
                && committed == old(pending)[ObjectId(old(nextId)) := committed[ObjectId(old(nextId))]]
                && DtoFromEntity(committed[ObjectId(old(nextId))]).Some?
                && SameContent(DtoFromEntity(committed[ObjectId(old(nextId))]).value, r.value)
                && exists d :: d in StoredDtos(committed) && SameContent(d, r.value)
      ensures !saveSucceeds ==> committed == old(committed) && pending == old(committed)
    {
      var id := ObjectId(nextId);
      nextId := nextId + 1;
      var entity := new ArticleEntity(article, id);
      pending := pending[id := entity];
      var dto := DtoFromEntity(entity);
      if dto.None? {
        assert false;
      }
      r := Success(dto.value);
      InsertedIsStored(old(pending), id, entity);
      SaveContextIfNeeded(saveSucceeds);
    }

    /**
     * `fetchArticles()`: the main context's readable entities as DTOs, each
     * once, each locating a saved object; incomplete entities are dropped.
     */
    method FetchArticles() returns (articles: seq<ArticleDTO>)
      requires Valid()
      ensures forall d :: d in articles <==> d in StoredDtos(committed)
      ensures forall k, l :: 0 <= k < l < |articles| ==> articles[k] != articles[l]
      ensures forall k :: 0 <= k < |articles| ==> Located(articles[k], committed)
    {
      var entities := Fetch(Main);
      articles := DtosOf(entities);
      DtosOfEnumeration(entities, committed, nextId);
    }

    /**
     * `deleteArticle(_:)`: needs the DTO's locator, deletes the object in the
     * background context and saves; on success it hands back the very DTO it
     * was given, even when the save is rolled back.
     */
    method DeleteArticle(article: ArticleDTO, saveSucceeds: bool) returns (r: Result<ArticleDTO, StoreError>)
      requires Valid()
      modifies this
      ensures Valid()
      ensures nextId == old(nextId)
      ensures article.url.None? ==> r == Failure(Service(PE.General("Url is nil")))
      ensures r.Success? <==> Located(article, old(pending))
      ensures r.Success? ==> r.value == article
      ensures r.Failure? ==> committed == old(committed) && pending == old(pending)
      ensures r.Success? && saveSucceeds ==>
                && committed == pending == old(pending) - {GetObjectId(article.url.value).value}
                && forall d :: d in StoredDtos(committed) ==> d.url != article.url
      ensures r.Success? && !saveSucceeds ==> committed == old(committed) && pending == old(committed)
    {
      if article.url.None? {
        return Failure(Service(PE.General("Url is nil")));
      }
      var deleted := Delete(article.url.value);
      if deleted.Failure? {
        return Failure(deleted.error);
      }
      SaveContextIfNeeded(saveSucceeds);
      r := Success(article);
      if saveSucceeds {
        RemovedIsGone(old(pending), nextId, GetObjectId(article.url.value).value);
      }
    }
  }
}
