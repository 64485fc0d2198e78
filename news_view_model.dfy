/**
 * `NewsViewModel`: turns the news screen's events into model calls and
 * outputs, and keeps the page counter. The counter starts at 1, stops at 5,
 * is raised before the page is asked for, is never put back when the request
 * fails and is not reset by a new search. Model calls are asynchronous: the
 * event handler issues the call, and its result reaches a completion handler
 * later, as a `Result` whose failure side is the error's description.
 */
module NewsViewModel {
  import opened Wrappers
  import opened Urls
  import TN = TextNews
  import ArticleDto

  const MaxPage := 5

  datatype FilterKind = ByCategory | ByCountry | BySources

  /** The cell model handed over by the add-to-favourites button: an article, or another kind of cell model. */
  datatype CellModel = ArticleCell(article: TN.Article) | OtherCell

  datatype Input =
    | OnLoad
    | SearchTapped(text: string)
    | FavouritesTapped
    | FilterTapped(kind: FilterKind)
    | NewsTapped(article: TN.Article)
    | ShouldPaginate
    | AddToFavouritesTapped(cell: CellModel)

  datatype Output =
    | ShowAlert(title: string, message: string)
    | UpdateNews(news: TN.TextNews, appending: bool)
    | ShowArticle(url: Url)
    | ShowFavouriteArticles

  /** The call an event makes on the model. */
  datatype ModelCall =
    | GetTextNews(query: string)
    | GetPaginated(page: int)
    | AddToFavourites(article: TN.Article)

  /** The page after an event, the output it sends at once, and the model call it makes. */
  datatype Reaction = Reaction(page: int, output: Option<Output>, call: Option<ModelCall>)

  /** The `transform` dispatch for one event, on the page counter `page`. */
  function Step(page: int, event: Input): (r: Reaction)
    ensures !(r.output.Some? && r.call.Some?)
    ensures r.page != page <==> event.ShouldPaginate? && page != MaxPage
    ensures r.page != page ==> r.page == page + 1 && r.call == Some(GetPaginated(r.page))
    ensures r.call.Some? && r.call.value.GetPaginated? ==> r.page == page + 1
  {
    match event
    case OnLoad => Reaction(page, None, None)
    case SearchTapped(text) => Reaction(page, None, Some(GetTextNews(text)))
    case FavouritesTapped => Reaction(page, Some(ShowFavouriteArticles), None)
    case FilterTapped(_) => Reaction(page, None, None)
    case ShouldPaginate =>
      if page == MaxPage then Reaction(page, None, None)
      else Reaction(page + 1, None, Some(GetPaginated(page + 1)))
    case NewsTapped(article) => Reaction(page, Some(ShowArticle(article.url)), None)
    case AddToFavouritesTapped(cell) =>
      match cell
      case ArticleCell(article) => Reaction(page, None, Some(AddToFavourites(article)))
      case OtherCell => Reaction(page, None, None)
  }

  /** What each event does, case by case. */
  lemma StepTable(page: int, event: Input)
    ensures event.ShouldPaginate? && page == MaxPage ==> Step(page, event) == Reaction(page, None, None)
    ensures event.SearchTapped? ==> Step(page, event) == Reaction(page, None, Some(GetTextNews(event.text)))
    ensures event.FavouritesTapped? ==> Step(page, event) == Reaction(page, Some(ShowFavouriteArticles), None)
    ensures event.NewsTapped? ==> Step(page, event) == Reaction(page, Some(ShowArticle(event.article.url)), None)
    ensures event.OnLoad? || event.FilterTapped? ==> Step(page, event) == Reaction(page, None, None)
    ensures event.AddToFavouritesTapped? ==>
              Step(page, event)
              == Reaction(page, None, if event.cell.ArticleCell? then Some(AddToFavourites(event.cell.article)) else None)
  {
  }

  /** The result handler of a search: the batch replaces the list, or an alert. */
  function SearchCompletion(result: Result<TN.TextNews, string>): (o: Output)
    ensures o.ShowAlert? <==> result.Failure?
    ensures result.Success? ==> o == UpdateNews(result.value, false)
    ensures result.Failure? ==> o == ShowAlert("Error", result.error)
  {
    match result
    case Success(news) => UpdateNews(news, false)
    case Failure(description) => ShowAlert("Error", description)
  }

  /** The result handler of a page request: the batch is appended, or an alert. */
  function PaginationCompletion(result: Result<TN.TextNews, string>): (o: Output)
    ensures o.ShowAlert? <==> result.Failure?
    ensures result.Success? ==> o == UpdateNews(result.value, true)
    ensures result.Failure? ==> o == ShowAlert("Error", result.error)
  {
    match result
    case Success(news) => UpdateNews(news, true)
    case Failure(description) => ShowAlert("Error", description)
  }

  /** The result handler of add-to-favourites: silence on success, an alert on failure. */
  function FavouriteCompletion(result: Result<ArticleDto.ArticleDTO, string>): (o: Option<Output>)
    ensures o.Some? <==> result.Failure?
    ensures result.Failure? ==> o == Some(ShowAlert("Error", result.error))
  {
    match result
    case Success(_) => None
    case Failure(description) => Some(ShowAlert("Error", description))
  }

  function ToSeq<T>(o: Option<T>): (r: seq<T>)
    ensures |r| <= 1
    ensures o.Some? ==> r == [o.value]
    ensures o.None? ==> r == []
  {
    match o
    case Some(v) => [v]
    case None => []
  }

  /** The outputs and calls of a run of events. */
  datatype Trace = Trace(page: int, outputs: seq<Output>, calls: seq<ModelCall>)

  /** Handling `events` one after the other from page `page`. */
  function Run(page: int, events: seq<Input>): (t: Trace)
    decreases |events|
  {
    if events == [] then Trace(page, [], [])
    else
      var s := Step(page, events[0]);
      var t := Run(s.page, events[1..]);
      Trace(t.page, ToSeq(s.output) + t.outputs, ToSeq(s.call) + t.calls)
  }

  /** The pages asked for by the page requests among `calls`, in order. */
  function PagesRequested(calls: seq<ModelCall>): (r: seq<int>)
    ensures |r| <= |calls|
  {
    if calls == [] then []
    else (if calls[0].GetPaginated? then [calls[0].page] else []) + PagesRequested(calls[1..])
  }

  /** The integers from `lo` up to, not including, `hi`. */
  function Range(lo: int, hi: int): (r: seq<int>)
    decreases hi - lo
  {
    if lo < hi then [lo] + Range(lo + 1, hi) else []
  }

  lemma {:induction false} PagesRequestedAppend(a: seq<ModelCall>, b: seq<ModelCall>)
    ensures PagesRequested(a + b) == PagesRequested(a) + PagesRequested(b)
    decreases |a|
  {
    if a == [] {
      assert a + b == b;
    } else {
      assert (a + b)[0] == a[0];
      assert (a + b)[1..] == a[1..] + b;
      PagesRequestedAppend(a[1..], b);
    }
  }

  /**
   * Whatever the events — searches, failures, repeated scrolling — the page
   * counter stays within 1..5, never goes down, and the page requests of the
   * whole run ask for exactly the pages after the starting one up to the
   * final one, each once and in order. Starting from 1, no run asks for more
   * than four pages, and a new search never asks for page 2 again.
   */
  lemma {:induction false} RunRequestsEachPageOnce(page: int, events: seq<Input>)
    requires 1 <= page <= MaxPage
    ensures page <= Run(page, events).page <= MaxPage
    ensures PagesRequested(Run(page, events).calls) == Range(page + 1, Run(page, events).page + 1)
    decreases |events|
  {
    if events != [] {
      var s := Step(page, events[0]);
      var t := Run(s.page, events[1..]);
      RunUnfold(page, events);
      RunRequestsEachPageOnce(s.page, events[1..]);
      PagesRequestedAppend(ToSeq(s.call), t.calls);
      PagesOfStep(page, events[0]);
      if s.page != page {
        RangeCons(page + 1, t.page + 1);
      }
    }
  }

  lemma RunUnfold(page: int, events: seq<Input>)
    requires events != []
    ensures Run(page, events).page == Run(Step(page, events[0]).page, events[1..]).page
    ensures Run(page, events).calls == ToSeq(Step(page, events[0]).call) + Run(Step(page, events[0]).page, events[1..]).calls
  {
  }

  /** One event asks for the page it moves to, or for no page when it does not move. */
  lemma PagesOfStep(page: int, event: Input)
    ensures PagesRequested(ToSeq(Step(page, event).call))
            == if Step(page, event).page != page then [page + 1] else []
  {
    var c := Step(page, event).call;
    if c.Some? {
      assert ToSeq(c) == [c.value];
      assert ToSeq(c)[1..] == [];
    }
  }

  lemma RangeCons(lo: int, hi: int)
    requires lo < hi
    ensures Range(lo, hi) == [lo] + Range(lo + 1, hi)
  {
  }

  /** From the initial page, a run makes at most four page requests. */
  lemma AtMostFourPageRequests(events: seq<Input>)
    ensures |PagesRequested(Run(1, events).calls)| <= MaxPage - 1
  {
    RunRequestsEachPageOnce(1, events);
    RangeLength(2, Run(1, events).page + 1);
  }

  lemma {:induction false} RangeLength(lo: int, hi: int)
    requires lo <= hi
    ensures |Range(lo, hi)| == hi - lo
    decreases hi - lo
  {
    if lo < hi {
      RangeLength(lo + 1, hi);
    }
  }

  /** Handling one event and then the rest. */
  lemma RunCons(page: int, event: Input, rest: seq<Input>)
    ensures Run(page, [event] + rest).page == Run(Step(page, event).page, rest).page
    ensures Run(page, [event] + rest).outputs == ToSeq(Step(page, event).output) + Run(Step(page, event).page, rest).outputs
    ensures Run(page, [event] + rest).calls == ToSeq(Step(page, event).call) + Run(Step(page, event).page, rest).calls
  {
    assert ([event] + rest)[0] == event;
    assert ([event] + rest)[1..] == rest;
  }

  /** `n` scroll events in a row. */
  function Scrolls(n: nat): (r: seq<Input>)
    ensures |r| == n
  {
    if n == 0 then [] else [ShouldPaginate] + Scrolls(n - 1)
  }

  /** Requests for the pages from `lo` up to, not including, `hi`. */
  function PageRequests(lo: int, hi: int): (r: seq<ModelCall>)
    decreases hi - lo
  {
    if lo < hi then [GetPaginated(lo)] + PageRequests(lo + 1, hi) else []
  }

  function Min(a: int, b: int): int
  {
    if a <= b then a else b
  }

  /** `n` scroll events from page `page` ask for the following pages, up to the last one, and send nothing. */
  lemma {:induction false} ScrollingRequestsNextPages(page: int, n: nat)
    requires 1 <= page <= MaxPage
    ensures Run(page, Scrolls(n)).page == Min(page + n, MaxPage)
    ensures Run(page, Scrolls(n)).outputs == []
    ensures Run(page, Scrolls(n)).calls == PageRequests(page + 1, Min(page + n, MaxPage) + 1)
    decreases n
  {
    if n > 0 {
      assert Scrolls(n) == [ShouldPaginate] + Scrolls(n - 1);
      RunCons(page, ShouldPaginate, Scrolls(n - 1));
      if page == MaxPage {
        assert Step(page, ShouldPaginate) == Reaction(page, None, None);
        ScrollingRequestsNextPages(page, n - 1);
      } else {
        assert Step(page, ShouldPaginate) == Reaction(page + 1, None, Some(GetPaginated(page + 1)));
        ScrollingRequestsNextPages(page + 1, n - 1);
        var last := Min(page + n, MaxPage);
        assert Min(page + 1 + (n - 1), MaxPage) == last && page + 1 <= last;
        assert PageRequests(page + 1, last + 1) == [GetPaginated(page + 1)] + PageRequests(page + 2, last + 1);
      }
    }
  }

  /**
   * A search leaves the counter alone: the events after it go on from the
   * same page, so a new search does not start again at page 1.
   */
  lemma SearchKeepsPage(page: int, query: string, rest: seq<Input>)
    ensures Run(page, [SearchTapped(query)] + rest).page == Run(page, rest).page
    ensures Run(page, [SearchTapped(query)] + rest).calls == [GetTextNews(query)] + Run(page, rest).calls
  {
    RunCons(page, SearchTapped(query), rest);
  }

  /**
   * A first search followed by four or more scroll events: the search text
   * goes to the model as typed, the first four scroll events ask for pages 2
   * to 5, and any further ones do nothing.
   */
  lemma PaginationScenario(query: string, n: nat)
    requires n >= MaxPage - 1
    ensures var t := Run(1, [SearchTapped(query)] + Scrolls(n));
            && t.page == MaxPage && t.outputs == []
            && t.calls == [GetTextNews(query)] + [GetPaginated(2), GetPaginated(3), GetPaginated(4), GetPaginated(5)]
  {
    ScrollingRequestsNextPages(1, n);
    assert Min(1 + n, MaxPage) == MaxPage;
    PageRequestsAfterFirst();
    RunCons(1, SearchTapped(query), Scrolls(n));
    assert Step(1, SearchTapped(query)) == Reaction(1, None, Some(GetTextNews(query)));
  }

  lemma PageRequestsAfterFirst()
    ensures PageRequests(2, MaxPage + 1) == [GetPaginated(2), GetPaginated(3), GetPaginated(4), GetPaginated(5)]
  {
    assert PageRequests(5, 6) == [GetPaginated(5)] + PageRequests(6, 6);
    assert PageRequests(4, 6) == [GetPaginated(4)] + PageRequests(5, 6);
    assert PageRequests(3, 6) == [GetPaginated(3)] + PageRequests(4, 6);
    assert PageRequests(2, 6) == [GetPaginated(2)] + PageRequests(3, 6);
  }

  class NewsViewModel {
    var currentPage: int

    ghost predicate Valid()
      reads this
    {
      1 <= currentPage <= MaxPage
    }

    constructor ()
      ensures Valid() && currentPage == 1
    {
      currentPage := 1;
    }

    /**
     * The `transform` sink for one event: the output it sends, the model call
     * it makes, and the new page counter, as `Step` prescribes.
     */
    method Send(event: Input) returns (output: Option<Output>, call: Option<ModelCall>)
      requires Valid()
      modifies this
      ensures Valid()
      ensures Reaction(currentPage, output, call) == Step(old(currentPage), event)
    {
      output, call := None, None;
      match event {
        case OnLoad =>
        case SearchTapped(text) =>
          call := Some(GetTextNews(text));
        case FavouritesTapped =>
          output := Some(ShowFavouriteArticles);
        case FilterTapped(_) =>
        case ShouldPaginate =>
          call := PaginateQuery();
        case NewsTapped(article) =>
          output := Some(ShowArticle(article.url));
        case AddToFavouritesTapped(cell) =>
          if cell.ArticleCell? {
            call := Some(AddToFavourites(cell.article));
          }
      }
    }

    /** `paginateQuery`: at the last page nothing happens; otherwise the counter goes up first and that page is asked for. */
    method PaginateQuery() returns (call: Option<ModelCall>)
      requires Valid()
      modifies this
      ensures Valid()
      ensures old(currentPage) == MaxPage ==> call.None? && currentPage == old(currentPage)
      ensures old(currentPage) != MaxPage ==> currentPage == old(currentPage) + 1 && call == Some(GetPaginated(currentPage))
    {
      if currentPage == MaxPage {
        return None;
      }
      currentPage := currentPage + 1;
      call := Some(GetPaginated(currentPage));
    }
  }
}
