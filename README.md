# NewsApp core in Dafny

A model of the deterministic core of the NewsApp iOS client, with proofs about it. The app searches a news API, pages through the results and keeps favourite articles in a local CoreData store. The model covers these parts:

- **Record validation** (`TextNews`). A wire record (`TextNewsNetworkModel`) becomes a strict `Article` or is dropped. A batch keeps exactly its valid records, in order.
- **Response handling** (`HttpStatusCode`, `StatusCodeValidation`, `NetworkService`). Status codes are classified, the classification is mapped to a `NetworkServiceError`, and `mapError` is modelled.
- **Request building** (`NetworkServiceContext`, `QueryItems`). This covers the query dictionary of `getnewsPublisher`, its router, and the conversion of the dictionary to query items.
- **Query and page bookkeeping**:
  - `NewsModel` normalises and remembers the query.
  - `NewsViewModel` is the event dispatch and the page counter, capped at 5.
- **Favourites**:
  - `ArticleDto` and `CoreDataModels` are the DTO and entity conversions.
  - `PersistenceService` is the store. It is a table from object id to entity with a committed/pending split for save and rollback.
- **Small screens** (`FavouriteArticlesViewModel`, `ArticleShowViewModel`). Each maps an event, or an asynchronous result, to one output.

The model has these parameters:

- **URL parsing**: a function `parse: string -> Option<Url>`. A web URL keeps its text and its optional scheme.
- **Object identifiers**: the URI of a managed object id is a URL of its own kind (`ObjectUri`).
- **UUIDs** for new articles: an input sequence.
- **Dictionary iteration order**: an input sequence of keys.
- **Save outcome**: a boolean.
- **Transport and JSON decoder**: functions.
- **Descriptions**: an error's `localizedDescription` and a context's own description enter as strings.
- **Publishers**: a Combine publisher that delivers one value or one failure becomes a `Result`.

The model follows the code as written. Some of its behaviour is worth knowing in advance:

- **Validation checks only absence.** Present but empty strings are accepted (`TextNews.EmptyFieldsAccepted`).
- **The page counter is raised before the page is requested.** A failed request never lowers it, and a new search does not reset it (`NewsViewModel.SearchKeepsPage`, `NewsViewModel.RunRequestsEachPageOnce`).
- **Scrolling before any search still raises the counter.** The request then fails with "There is no query".
- **401 is a general error** with the reason "Api Key isn't provided", like the 426 and 429 limits. There is no separate unauthorised error.
- **`create(article:)` reports success before it saves.** The success stands even when the save fails and is rolled back. A failed save is swallowed after the rollback and never reported.
- **`deleteArticle` returns the DTO it was given.** It does so also when the save is rolled back.

## Model

| member | source | states |
|---|---|---|
| TextNews.Validate | NewsApp/NewsApp/App/NewsScene/DTO/TextNews.swift:28-46 | The result is nil exactly when one of these holds: title, description, author or source is absent; the article URL does not parse; or the image URL is absent, does not parse, or is not https. Otherwise every field is copied, `source` is the source's name, and `id` is the new UUID. |
| TextNews.EmptyFieldsAccepted | NewsApp/NewsApp/App/NewsScene/DTO/TextNews.swift:29-38 | A record whose strings are present but empty passes validation, because only absence is checked. |
| TextNews.FromNetwork | NewsApp/NewsApp/App/NewsScene/DTO/TextNews.swift:50-53 | `totalResults` is copied unchanged, and the batch never has more articles than records. |
| TextNews.FromNetworkKeepsValidInOrder | NewsApp/NewsApp/App/NewsScene/DTO/TextNews.swift:52 | The articles are exactly the valid records, in input order. Their positions are increasing, and a record is kept if and only if it validates. |
| TextNews.FromNetworkArticlesAreValid | NewsApp/NewsApp/App/NewsScene/DTO/TextNews.swift:52 | Every article of a batch has an https image URL and one of the batch's UUIDs. |
| TextNews.FromNetworkKeepsAllValid | NewsApp/NewsApp/App/NewsScene/DTO/TextNews.swift:52 | A batch whose records all validate loses none of them. |
| TextNews.HashInput | NewsApp/NewsApp/App/NewsScene/DTO/TextNews.swift:56-60 | The hasher is fed the article's id alone. |
| TextNews.HashDependsOnlyOnId | NewsApp/NewsApp/App/NewsScene/DTO/TextNews.swift:56-60 | Two articles feed the hasher the same values if and only if their ids are equal. |
| TextNewsNetworkModel.SortRawValue | NewsApp/NewsApp/Services/NetworkService/Models/TextNewsNetworkModel.swift:36-40 | Each sort order has its case name as raw value, and the raw values tell the orders apart. |
| HttpStatusCode.RawValue | NewsApp/NewsApp/Services/NetworkService/Helpers/HTTPStatusCode.swift:10-17 | The raw values are 200, 201, 500, 426, 401 and 429, each one belonging to exactly one case. |
| HttpStatusCode.FromRawValue | NewsApp/NewsApp/Services/NetworkService/Helpers/HTTPStatusCode.swift:10-17 | `init(rawValue:)` succeeds exactly on the six raw values, and then yields the case with that raw value. |
| HttpStatusCode.FromRawValueInvertsRawValue | NewsApp/NewsApp/Services/NetworkService/Helpers/HTTPStatusCode.swift:10-17 | `init(rawValue:)` is a left inverse of `rawValue`. |
| HttpStatusCode.RawValueInjective | NewsApp/NewsApp/Services/NetworkService/Helpers/HTTPStatusCode.swift:11-16 | The raw values are pairwise distinct. |
| HttpStatusCode.SixCases | NewsApp/NewsApp/Services/NetworkService/Helpers/HTTPStatusCode.swift:11-16 | There are exactly six distinct cases, and their raw values are exactly the six codes. |
| StatusCodeValidation.HandleStatusCode | NewsApp/NewsApp/Services/NetworkService/Helpers/StatusCodeValidation.swift:16-31 | The classification is total. 200 and 201, and only those, are a success. 500 is a server error. 426, 429 and 401 fail with "Page limit", "Request limit" and "Api Key isn't provided". Every other code is unknown. |
| NetworkService.CheckResponse | NewsApp/NewsApp/Services/NetworkService/NetworkService.swift:31-46 | A non-HTTP response is undefined. Each classification maps to its error, the failure reason carried unchanged. The body passes on, unchanged, exactly after a 200 or 201. |
| NetworkService.MapError | NewsApp/NewsApp/Services/NetworkService/NetworkService.swift:48-57 | A decoding error becomes `failedDecodingResponse` with its description. A service error passes through unchanged. Anything else becomes `general` with its description. |
| NetworkService.Publisher | NewsApp/NewsApp/Services/NetworkService/NetworkService.swift:24-59 | With no request, the result is `invalidRequest`. A transport failure becomes `general`. A delivered response gives the decoded model, if the status check and the decoder both succeed; otherwise it gives the status check's error or `failedDecodingResponse`. |
| NetworkService.InvalidRequestSendsNothing | NewsApp/NewsApp/Services/NetworkService/NetworkService.swift:25-27 | Without a buildable request the result does not depend on the transport, so nothing is sent. |
| NetworkService.OnlySuccessIsDecoded | NewsApp/NewsApp/Services/NetworkService/NetworkService.swift:36-47 | A successful publisher result implies an HTTP 200 or 201. The result is then what the decoder made of the body as delivered. |
| QueryItems.Description | NewsApp/NewsApp/Common/Extensions/Collection+Extensions.swift:12 | A string value describes itself. An `Int` value's description parses back to the same `Int`, as `LosslessStringConvertible` promises. |
| QueryItems.IntDescriptionIsLossless | NewsApp/NewsApp/Common/Extensions/Collection+Extensions.swift:12 | Parsing `Int.description` gives back the integer, negative values included. |
| QueryItems.FromDictionary | NewsApp/NewsApp/Common/Extensions/Collection+Extensions.swift:11-13 | There is one item per key, in the dictionary's iteration order, named by the key and valued by the description of the key's value. |
| QueryItems.FromDictionaryOneItemPerEntry | NewsApp/NewsApp/Common/Extensions/Collection+Extensions.swift:11-13 | There are as many items as entries. Every item comes from an entry, every key names an item, and no name repeats. |
| NetworkServiceContext.NewsQueryItems | NewsApp/NewsApp/Services/NetworkService/NetworkService+Context.swift:20-27 | The dictionary has exactly the six keys. `q`, `page` and `pageSize` are the arguments, `apiKey` is the fixed key, `language` is "en", and `sortBy` is the sort order's raw value. |
| NetworkServiceContext.NewsRouter | NewsApp/NewsApp/Services/NetworkService/NetworkService+Context.swift:29-32 | The router has host newsapi.org, path /v2/everything and no headers. Through `Router.init`'s defaults it has scheme https, method GET and no body. Its query is the dictionary above. |
| NetworkServiceContext.NewsQueryCarriesArguments | NewsApp/NewsApp/Services/NetworkService/NetworkService+Context.swift:20-31 | Whatever the iteration order, the request carries six distinct items. Each reads back as its argument: the page and page size parse back to the integers they came from. |
| NewsModel.Normalized | NewsApp/NewsApp/App/NewsScene/NewsModel.swift:33 | The normalised query is never longer than the input, and it neither starts nor ends with whitespace or a newline. |
| NewsModel.NormalizedIsTrimmedLowercase | NewsApp/NewsApp/App/NewsScene/NewsModel.swift:33 | The normalised query is the lower-cased input with a whitespace prefix and a whitespace suffix cut off, and it contains no upper-case letter. |
| NewsModel.NormalizedFixesExactlyNormalForms | NewsApp/NewsApp/App/NewsScene/NewsModel.swift:33 | Normalising leaves a string unchanged if and only if it is lower-case and has no whitespace at either end. |
| NewsModel.NormalizedIdempotent | NewsApp/NewsApp/App/NewsScene/NewsModel.swift:33 | Normalising an already normalised query changes nothing. |
| NewsModel.NormalizedIgnoresLeadingWhitespace | NewsApp/NewsApp/App/NewsScene/NewsModel.swift:33 | A whitespace character in front of the search text does not change the query. |
| NewsModel.NormalizedIgnoresTrailingWhitespace | NewsApp/NewsApp/App/NewsScene/NewsModel.swift:33 | A whitespace character after the search text does not change the query. |
| NewsModel.NormalizedIgnoresCase | NewsApp/NewsApp/App/NewsScene/NewsModel.swift:33 | Lower-casing the search text first does not change the query. |
| NewsModel.MapPayload | NewsApp/NewsApp/App/NewsScene/NewsModel.swift:37 | A delivered payload is converted by `TextNews(model:)`, and an error passes through unchanged. |
| NewsModel.AddToFavourites | NewsApp/NewsApp/App/NewsScene/NewsModel.swift:49-51 | The store receives the article's DTO, which has no locator yet. |
| NewsModel.NewsModel.constructor | NewsApp/NewsApp/App/NewsScene/NewsModel.swift:25 | A new model has no last query. |
| NewsModel.NewsModel.GetTextNewsPublisher | NewsApp/NewsApp/App/NewsScene/NewsModel.swift:32-39 | The last query becomes the normalised query at once, before any response arrives. The request asks for page 1 of that query, 20 per page, newest first. |
| NewsModel.NewsModel.GetPaginatedPublisher | NewsApp/NewsApp/App/NewsScene/NewsModel.swift:41-47 | With no last query, it fails with `general("There is no query")` and makes no request. Otherwise it asks for the given page of the last query, 20 per page, newest first. It changes nothing. |
| NewsViewModel.Step | NewsApp/NewsApp/App/NewsScene/NewsViewModel.swift:53-76 | An event never both sends an output and calls the model. The page changes if and only if the event is a scroll below page 5. It then grows by one, and that page is requested. Any page request is for the next page. |
| NewsViewModel.StepTable | NewsApp/NewsApp/App/NewsScene/NewsViewModel.swift:56-70 | Search forwards the text unchanged, and tapping favourites shows them. Tapping an article shows its URL. Load and filter do nothing, and neither does a scroll at page 5. Add-to-favourites calls the model only for an article cell. |
| NewsViewModel.SearchCompletion | NewsApp/NewsApp/App/NewsScene/NewsViewModel.swift:78-86 | A found batch replaces the list (`appending: false`). A failure becomes the alert "Error" with the error's description. |
| NewsViewModel.PaginationCompletion | NewsApp/NewsApp/App/NewsScene/NewsViewModel.swift:92-98 | A found page is appended (`appending: true`). A failure becomes the alert "Error" with the error's description. |
| NewsViewModel.FavouriteCompletion | NewsApp/NewsApp/App/NewsScene/NewsViewModel.swift:101-108 | Success sends nothing. A failure sends the alert "Error" with the error's description. |
| NewsViewModel.RunRequestsEachPageOnce | NewsApp/NewsApp/App/NewsScene/NewsViewModel.swift:88-92 | Take any sequence of events, searches included. The counter stays within 1..5 and never decreases. A failed request cannot undo a raise, because the completion handlers do not take the counter. The run's page requests are exactly the pages after the start up to the final page, each once and in order. |
| NewsViewModel.AtMostFourPageRequests | NewsApp/NewsApp/App/NewsScene/NewsViewModel.swift:37 | From the initial page, no run of events makes more than four page requests. |
| NewsViewModel.ScrollingRequestsNextPages | NewsApp/NewsApp/App/NewsScene/NewsViewModel.swift:88-92 | `n` scrolls from page `p` end at page min(p+n, 5) and send no output. They request exactly the pages p+1 up to that page. |
| NewsViewModel.SearchKeepsPage | NewsApp/NewsApp/App/NewsScene/NewsViewModel.swift:58-59 | A search does not touch the counter: the events after it continue from the same page. |
| NewsViewModel.PaginationScenario | NewsApp/NewsApp/App/NewsScene/NewsViewModel.swift:88-99 | A search followed by four or more scrolls makes exactly these calls: the search text; then pages 2, 3, 4 and 5. It ends at page 5 and sends no output of its own. |
| NewsViewModel.NewsViewModel.constructor | NewsApp/NewsApp/App/NewsScene/NewsViewModel.swift:45 | The counter starts at 1. |
| NewsViewModel.NewsViewModel.Send | NewsApp/NewsApp/App/NewsScene/NewsViewModel.swift:53-76 | Handling an event produces the output, the model call and the new counter that `Step` prescribes, and keeps the counter within 1..5. |
| NewsViewModel.NewsViewModel.PaginateQuery | NewsApp/NewsApp/App/NewsScene/NewsViewModel.swift:88-92 | At page 5 nothing happens. Otherwise the counter grows by one before the request, and the new value is the page requested. |
| ArticleDto.FromArticle | NewsApp/NewsApp/Services/PersistenceService/Models/ArticleDTO.swift:41-49 | The DTO has no locator. The description goes to `articleDescription` and the URL to `articleUrl`, and the other fields are copied. |
| ArticleDto.Description | NewsApp/NewsApp/Services/PersistenceService/Models/ArticleDTO.swift:54 | `description` is `articleDescription`. |
| ArticleDto.EqualityIncludesLocator | NewsApp/NewsApp/Services/PersistenceService/Models/ArticleDTO.swift:52 | Two DTOs are equal if and only if they match in all six descriptive fields and in the locator. |
| ArticleDto.FromArticleForgetsId | NewsApp/NewsApp/Services/PersistenceService/Models/ArticleDTO.swift:41-49 | Two articles that differ only in their UUID give the same DTO. |
| CoreDataModels.ArticleEntity.constructor | NewsApp/NewsApp/CoreData/Models/ArticleEntity+CoreDataClass.swift:15-23 | All six attributes are present and equal the DTO's. The DTO's locator is not copied: the identity is the one the store hands out. Reading the entity back gives the DTO under that identity's URI. |
| CoreDataModels.DtoFromEntity | NewsApp/NewsApp/Services/PersistenceService/Models/ArticleDTO.swift:22-39 | The result is nil if and only if an attribute is missing. Otherwise the locator is the URI of the object's id, and the six fields equal the attributes. |
| CoreDataModels.DtoEntityRoundTrip | NewsApp/NewsApp/Services/PersistenceService/Models/ArticleDTO.swift:22-39 | An entity holding a DTO's fields reads back as a DTO. It has the same content and the entity's locator, so the "Creation Errpr" branch of `create` cannot be taken. |
| PersistenceService.GetObjectId | NewsApp/NewsApp/Services/PersistenceService/PersistenceService.swift:38-40 | A URL names an object id if and only if it is the URI of that id. |
| PersistenceService.DtosOf | NewsApp/NewsApp/Services/PersistenceService/PersistenceService+Context.swift:47 | The compact map never yields more DTOs than entities. |
| PersistenceService.DtosOfKeepsCompleteInOrder | NewsApp/NewsApp/Services/PersistenceService/PersistenceService+Context.swift:47 | The compact map keeps exactly the complete entities, in fetch order, and silently drops the rest. Each DTO is the one read from its entity. |
| PersistenceService.DtosOfEnumeration | NewsApp/NewsApp/Services/PersistenceService/PersistenceService+Context.swift:46-48 | Converting an enumeration of a table yields exactly the table's readable DTOs. Each appears once and locates a stored object, and incomplete entities are dropped. |
| PersistenceService.PersistenceService.constructor | NewsApp/NewsApp/Services/PersistenceService/PersistenceService.swift:23-36 | Both contexts open on the favourites already in the persistent store, keyed by their ids, with no unsaved changes. Each context has its own description. |
| PersistenceService.PersistenceService.Fetch | NewsApp/NewsApp/Services/PersistenceService/PersistenceService.swift:45-52 | Fetching with no predicate returns every entity the context sees, each exactly once. |
| PersistenceService.PersistenceService.FetchUrl | NewsApp/NewsApp/Services/PersistenceService/PersistenceService.swift:54-60 | A URL that names no object id fails with `general("Not found id from URL: … in context …")`. An id with no object fails, and otherwise the result is that object. |
| PersistenceService.PersistenceService.Delete | NewsApp/NewsApp/Services/PersistenceService/PersistenceService.swift:65-72 | On success, exactly the named object is removed from the background context. A URL with no id, or an id with no object, fails and changes nothing. The saved state is never touched. |
| PersistenceService.PersistenceService.SaveContextIfNeeded | NewsApp/NewsApp/Services/PersistenceService/PersistenceService.swift:88-96 | The save either commits the pending changes, or rolls them back and returns normally; it never reports a failure. |
| PersistenceService.PersistenceService.Create | NewsApp/NewsApp/Services/PersistenceService/PersistenceService+Context.swift:17-38 | One new entity is inserted under a fresh id, and the result is the input's content under the id's URI. On commit, the saved table is the old pending table plus that entity, and the store then holds a DTO with the result's content. On rollback, nothing is saved, yet the result is still a success. |
| PersistenceService.PersistenceService.FetchArticles | NewsApp/NewsApp/Services/PersistenceService/PersistenceService+Context.swift:40-55 | The result is exactly the readable DTOs of the saved objects. Each appears once and locates a saved object. |
| PersistenceService.PersistenceService.DeleteArticle | NewsApp/NewsApp/Services/PersistenceService/PersistenceService+Context.swift:57-73 | A DTO without a locator fails with `general("Url is nil")`. The call succeeds if and only if the locator names a stored object, and it then returns the input DTO. On failure nothing changes. After a successful delete and commit, that object is gone and no fetched DTO carries the locator. |
| FavouriteArticlesViewModel.Transform | NewsApp/NewsApp/App/NewsScene/ChildScenes/FavouriteArticlesScene/FavouriteArticlesViewModel.swift:43-57 | Load fetches the favourites, and nothing else does. Tapping an article shows its article URL, and it is the only event that outputs at once. A swipe asks the store to delete that article. |
| FavouriteArticlesViewModel.FetchCompletion | NewsApp/NewsApp/App/NewsScene/ChildScenes/FavouriteArticlesScene/FavouriteArticlesViewModel.swift:59-68 | A fetched list is shown unchanged. A failure, and only a failure, becomes the alert "Error" with its description. |
| FavouriteArticlesViewModel.DeleteCompletion | NewsApp/NewsApp/App/NewsScene/ChildScenes/FavouriteArticlesScene/FavouriteArticlesViewModel.swift:70-79 | The DTO the store returns is passed on as `deleteArticle`. A failure, and only a failure, becomes the alert "Error" with its description. |
| ArticleShowViewModel.Transform | NewsApp/NewsApp/App/NewsScene/ChildScenes/ArticleShowScene/ArticleShowViewModel.swift:41-56 | Load shows the model's article URL, back navigates back and reload reloads, each if and only if. No event alerts. |
| ArticleShowViewModel.TransformInjective | NewsApp/NewsApp/App/NewsScene/ChildScenes/ArticleShowScene/ArticleShowViewModel.swift:43-51 | Different events give different outputs. |

## Left out

- Transport is left out: `URLSession`, `.retry(1)`, the 15-second timeout and header setting. The data task, retry included, is the function parameter `send`.
- `Route.request` and `URLComponents` are left out. Whether a request can be built is an input of `NetworkService.Publisher`.
- JSON decoding is left out. The decoder is a function parameter, and the wire model is already decoded.
- Foundation's URL parsing and `URL.scheme` are left out. They are the parameter `parse`.
- An object URI's `absoluteString` is not modelled. Every object URI resolves to an id, so the "Not found id" message arises only for web URLs.
- Unicode lower-casing is left out. `lowercased()` is modelled for ASCII letters only, and every other character is kept as it is.
- `Int` is unbounded. The 64-bit range of counts and page numbers is not modelled; the pages the core computes stay within 1..5.
- Temporary versus permanent object ids are not distinguished. The store hands out one fresh id on insertion and keeps it when saving.
- PersistenceService.PersistenceService.Create: the locator it returns is, in the app, the URI of the object's temporary id, because `ArticleDTO(entity)` runs before the save. The saved object gets a permanent id with a different URI. The model keeps one id from insertion through the save (see the line above). Its contract therefore still implies that the returned DTO itself is stored and that its locator finds the saved object. The app does not guarantee either: there a fetch returns the content under the permanent locator, and `deleteArticle` given the returned DTO need not find the saved object.
- Errors thrown by CoreData's fetch and save are left out. A failed save is the `saveSucceeds = false` path, which the code swallows.
- Concurrency is left out: the `perform` blocks, `Task`, `Future` delivering only its first promise, and `[weak self]` captures. Each operation runs to completion, one at a time.
- Merging changes into the main context is not modelled separately: `committed` is what both contexts see after a commit.
- `deleteAndMergeChanges` is left out. No operation of the core calls it.
- `PersistenceService.PersistenceService.Delete` works on the background context only, because that is the one context `deleteArticle` passes to `delete(url:on:)`. `PersistenceService.PersistenceService.FetchUrl` takes the context as a parameter.
- The entity's attributes are constants. After the initialiser nothing in the app assigns them again.
- The view controllers, table cells, the navigation they drive and the "NEWS" titles are UI and are left out.
- `filterTapped` only prints the filter kind. It is modelled as doing nothing.
- The Combine subjects and cancellables of the view models are left out. An event's output or model call is returned, and a model call's result reaches the pure completion function.
