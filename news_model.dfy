/**
 * `NewsModel`: normalises the search text, remembers the last query and turns
 * searches and page requests into calls of `getnewsPublisher`; payloads are
 * converted with `TextNews(model:)`, favourites handed to the store as DTOs.
 */
module NewsModel {
  import opened Wrappers
  import opened Urls
  import Net = TextNewsNetworkModel
  import TN = TextNews
  import NetworkService
  import Ctx = NetworkServiceContext
  import ArticleDto

  const PageSize := 20

  /** `whitespacesAndNewlines`: tab through carriage return, next line, and the Unicode separators. */
  predicate IsWhitespaceOrNewline(c: char)
  {
    || c == ' ' || ('\t' <= c <= '\r') || c == '\U{85}' || c == '\U{A0}' || c == '\U{1680}'
    || ('\U{2000}' <= c <= '\U{200A}') || c == '\U{2028}' || c == '\U{2029}'
    || c == '\U{202F}' || c == '\U{205F}' || c == '\U{3000}'
  }

  /** Lower-casing, for the ASCII letters. */
  function LowerChar(c: char): (r: char)
    ensures 'A' <= c <= 'Z' ==> r as int == c as int + 32
    ensures !('A' <= c <= 'Z') ==> r == c
  {
    if 'A' <= c <= 'Z' then (c as int + 32) as char else c
  }

  function Lowercased(s: string): (r: string)
    ensures |r| == |s|
    ensures forall k :: 0 <= k < |s| ==> r[k] == LowerChar(s[k])
  {
    seq(|s|, k requires 0 <= k < |s| => LowerChar(s[k]))
  }

  /** The first index at or after `i` that does not hold whitespace, or `|s|`. */
  function SkipLeading(s: string, i: nat): (r: nat)
    requires i <= |s|
    ensures i <= r <= |s|
    ensures forall k :: i <= k < r ==> IsWhitespaceOrNewline(s[k])
    ensures r < |s| ==> !IsWhitespaceOrNewline(s[r])
    decreases |s| - i
  {
    if i < |s| && IsWhitespaceOrNewline(s[i]) then SkipLeading(s, i + 1) else i
  }

  /** Scanning back from `j` towards `lo`: the end of the last character that is not whitespace, or `lo`. */
  function SkipTrailing(s: string, lo: nat, j: nat): (r: nat)
    requires lo <= j <= |s|
    ensures lo <= r <= j
    ensures forall k :: r <= k < j ==> IsWhitespaceOrNewline(s[k])
    ensures r > lo ==> !IsWhitespaceOrNewline(s[r - 1])
    decreases j
  {
    if lo < j && IsWhitespaceOrNewline(s[j - 1]) then SkipTrailing(s, lo, j - 1) else j
  }

  /** `trimmingCharacters(in: .whitespacesAndNewlines)`: `s` without whitespace at either end. */
  function Trimmed(s: string): (r: string)
    ensures |r| <= |s|
    ensures r != [] ==> !IsWhitespaceOrNewline(r[0]) && !IsWhitespaceOrNewline(r[|r| - 1])
  {
    var i := SkipLeading(s, 0);
    s[i..SkipTrailing(s, i, |s|)]
  }

  /** `query.lowercased().trimmingCharacters(in: .whitespacesAndNewlines)`. */
  function Normalized(query: string): (r: string)
    ensures |r| <= |query|
    ensures r != [] ==> !IsWhitespaceOrNewline(r[0]) && !IsWhitespaceOrNewline(r[|r| - 1])
  {
    Trimmed(Lowercased(query))
  }

  lemma LowerCharKeepsWhitespace(c: char)
    ensures IsWhitespaceOrNewline(LowerChar(c)) == IsWhitespaceOrNewline(c)
    ensures !('A' <= LowerChar(c) <= 'Z')
  {
  }

  predicate NoUppercase(s: string)
  {
    forall k :: 0 <= k < |s| ==> !('A' <= s[k] <= 'Z')
  }

  /**
   * The normalised query is the lower-cased query with a whitespace prefix
   * `query[..i]` and a whitespace suffix `query[j..]` cut off; it holds no
   * upper-case ASCII letter.
   */
  lemma NormalizedIsTrimmedLowercase(query: string) returns (i: nat, j: nat)
    ensures i <= j <= |query| && Normalized(query) == Lowercased(query)[i..j]
    ensures forall k :: 0 <= k < i ==> IsWhitespaceOrNewline(query[k])
    ensures forall k :: j <= k < |query| ==> IsWhitespaceOrNewline(query[k])
    ensures NoUppercase(Normalized(query))
  {
    var l := Lowercased(query);
    i := SkipLeading(l, 0);
    j := SkipTrailing(l, i, |l|);
    CutIsWhitespace(query, 0, i);
    CutIsWhitespace(query, j, |query|);
    SliceIsLowercase(query, i, j);
  }

  lemma CutIsWhitespace(query: string, from: nat, to: nat)
    requires from <= to <= |query|
    requires forall k :: from <= k < to ==> IsWhitespaceOrNewline(Lowercased(query)[k])
    ensures forall k :: from <= k < to ==> IsWhitespaceOrNewline(query[k])
  {
    forall k | from <= k < to ensures IsWhitespaceOrNewline(query[k]) {
      assert IsWhitespaceOrNewline(Lowercased(query)[k]);
      LowerCharKeepsWhitespace(query[k]);
    }
  }

  lemma SliceIsLowercase(query: string, i: nat, j: nat)
    requires i <= j <= |query|
    ensures NoUppercase(Lowercased(query)[i..j])
  {
    forall k | 0 <= k < j - i ensures !('A' <= Lowercased(query)[i..j][k] <= 'Z') {
      assert Lowercased(query)[i..j][k] == LowerChar(query[i + k]);
      LowerCharKeepsWhitespace(query[i + k]);
    }
  }

  /** A query that is lower-case and neither starts nor ends with whitespace. */
  predicate IsNormalForm(s: string)
  {
    && NoUppercase(s)
    && (s != [] ==> !IsWhitespaceOrNewline(s[0]) && !IsWhitespaceOrNewline(s[|s| - 1]))
  }

  lemma NoUppercaseIsLowercased(s: string)
    requires NoUppercase(s)
    ensures Lowercased(s) == s
  {
  }

  lemma TrimmedKeepsUntrimmable(s: string)
    requires s != [] ==> !IsWhitespaceOrNewline(s[0]) && !IsWhitespaceOrNewline(s[|s| - 1])
    ensures Trimmed(s) == s
  {
    assert SkipLeading(s, 0) == 0;
    assert SkipTrailing(s, 0, |s|) == |s|;
  }

  /** Normalising leaves a query unchanged exactly when it is already in normal form. */
  lemma NormalizedFixesExactlyNormalForms(s: string)
    ensures Normalized(s) == s <==> IsNormalForm(s)
  {
    if Normalized(s) == s {
      var _, _ := NormalizedIsTrimmedLowercase(s);
    }
    if IsNormalForm(s) {
      NoUppercaseIsLowercased(s);
      TrimmedKeepsUntrimmable(s);
    }
  }

  /** Normalising an already normalised query changes nothing. */
  lemma NormalizedIdempotent(query: string)
    ensures Normalized(Normalized(query)) == Normalized(query)
  {
    var _, _ := NormalizedIsTrimmedLowercase(query);
    NormalizedFixesExactlyNormalForms(Normalized(query));
  }

  lemma {:induction false} SkipLeadingAfterCons(c: char, s: string, k: nat)
    requires k <= |s|
    ensures SkipLeading([c] + s, k + 1) == SkipLeading(s, k) + 1
    decreases |s| - k
  {
    assert ([c] + s)[k + 1..] == s[k..];
    if k < |s| {
      assert ([c] + s)[k + 1] == s[k];
      if IsWhitespaceOrNewline(s[k]) {
        SkipLeadingAfterCons(c, s, k + 1);
      }
    }
  }

  lemma {:induction false} SkipTrailingAfterCons(c: char, s: string, lo: nat, j: nat)
    requires lo <= j <= |s|
    ensures SkipTrailing([c] + s, lo + 1, j + 1) == SkipTrailing(s, lo, j) + 1
    decreases j
  {
    if lo < j {
      assert ([c] + s)[j] == s[j - 1];
      if IsWhitespaceOrNewline(s[j - 1]) {
        SkipTrailingAfterCons(c, s, lo, j - 1);
      }
    }
  }

  lemma ConsSlice(c: char, s: string, i: nat, j: nat)
    requires i <= j <= |s|
    ensures ([c] + s)[i + 1..j + 1] == s[i..j]
  {
    assert ([c] + s)[1..] == s;
  }

  lemma TrimmedSkipsLeadingWhitespace(c: char, s: string)
    requires IsWhitespaceOrNewline(c)
    ensures Trimmed([c] + s) == Trimmed(s)
  {
    var t := [c] + s;
    var i := SkipLeading(s, 0);
    var j := SkipTrailing(s, i, |s|);
    SkipLeadingAfterCons(c, s, 0);
    SkipTrailingAfterCons(c, s, i, |s|);
    ConsSlice(c, s, i, j);
    assert t[0] == c;
    assert SkipLeading(t, 0) == SkipLeading(t, 1);
  }

  lemma {:induction false} SkipLeadingBeforeSnoc(s: string, c: char, k: nat)
    requires IsWhitespaceOrNewline(c) && k <= |s|
    ensures SkipLeading(s + [c], k) == if SkipLeading(s, k) < |s| then SkipLeading(s, k) else |s| + 1
    decreases |s| - k
  {
    var t := s + [c];
    if k < |s| {
      assert t[k] == s[k];
      if IsWhitespaceOrNewline(s[k]) {
        SkipLeadingBeforeSnoc(s, c, k + 1);
      }
    } else {
      assert t[|s|] == c;
    }
  }

  lemma {:induction false} SkipTrailingBeforeSnoc(s: string, c: char, lo: nat, j: nat)
    requires lo <= j <= |s|
    ensures SkipTrailing(s + [c], lo, j) == SkipTrailing(s, lo, j)
    decreases j
  {
    if lo < j {
      assert (s + [c])[j - 1] == s[j - 1];
      if IsWhitespaceOrNewline(s[j - 1]) {
        SkipTrailingBeforeSnoc(s, c, lo, j - 1);
      }
    }
  }

  lemma TrimmedSkipsTrailingWhitespace(s: string, c: char)
    requires IsWhitespaceOrNewline(c)
    ensures Trimmed(s + [c]) == Trimmed(s)
  {
    SkipLeadingBeforeSnoc(s, c, 0);
    if SkipLeading(s, 0) < |s| {
      TrimmedBeforeSnocKept(s, c, SkipLeading(s, 0));
    }
  }

  lemma TrimmedBeforeSnocKept(s: string, c: char, i: nat)
    requires IsWhitespaceOrNewline(c) && i < |s|
    requires SkipLeading(s + [c], 0) == i == SkipLeading(s, 0)
    ensures Trimmed(s + [c]) == Trimmed(s)
  {
    var t := s + [c];
    assert t[|s|] == c;
    assert SkipTrailing(t, i, |t|) == SkipTrailing(t, i, |s|);
    SkipTrailingBeforeSnoc(s, c, i, |s|);
    SnocSlice(s, c, i, SkipTrailing(s, i, |s|));
  }

  lemma SnocSlice(s: string, c: char, i: nat, j: nat)
    requires i <= j <= |s|
    ensures (s + [c])[i..j] == s[i..j]
  {
    assert (s + [c])[..|s|] == s;
  }

  /** Whitespace in front of the search text does not change the query ("  fires" asks for "fires"). */
  lemma NormalizedIgnoresLeadingWhitespace(c: char, s: string)
    requires IsWhitespaceOrNewline(c)
    ensures Normalized([c] + s) == Normalized(s)
  {
    LowerCharKeepsWhitespace(c);
    assert Lowercased([c] + s) == [c] + Lowercased(s);
    TrimmedSkipsLeadingWhitespace(c, Lowercased(s));
  }

  /** Whitespace after the search text does not change the query ("fires\n" asks for "fires"). */
  lemma NormalizedIgnoresTrailingWhitespace(s: string, c: char)
    requires IsWhitespaceOrNewline(c)
    ensures Normalized(s + [c]) == Normalized(s)
  {
    LowerCharKeepsWhitespace(c);
    assert Lowercased(s + [c]) == Lowercased(s) + [c];
    TrimmedSkipsTrailingWhitespace(Lowercased(s), c);
  }

  /** Upper-case ASCII letters in the search text do not change the query ("Fires" asks for "fires"). */
  lemma NormalizedIgnoresCase(s: string)
    ensures Normalized(Lowercased(s)) == Normalized(s)
  {
    forall k | 0 <= k < |s| ensures LowerChar(LowerChar(s[k])) == LowerChar(s[k]) {
      LowerCharKeepsWhitespace(s[k]);
    }
    assert Lowercased(Lowercased(s)) == Lowercased(s);
  }

  /** `.map { TextNews(model: $0) }` on the delivered payload; `ids` are the UUIDs the new articles get. */
  function MapPayload(payload: Result<Net.TextNewsNetworkModel, NetworkService.NetworkServiceError>,
                      ids: seq<TN.Uuid>, parse: string -> Option<Url>): (r: Result<TN.TextNews, NetworkService.NetworkServiceError>)
    requires payload.Success? ==> |ids| == |payload.value.articles|
    ensures payload.Failure? ==> r == Failure(payload.error)
    ensures payload.Success? ==> r.Success? && r.value == TN.FromNetwork(payload.value, ids, parse)
  {
    match payload
    case Success(m) => Success(TN.FromNetwork(m, ids, parse))
    case Failure(e) => Failure(e)
  }

  /** `addToFavourites`: the DTO handed to the store is a fresh, not yet stored copy of the article. */
  function AddToFavourites(article: TN.Article): (dto: ArticleDto.ArticleDTO)
    ensures dto.url.None?
    ensures dto == ArticleDto.FromArticle(article)
  {
    ArticleDto.FromArticle(article)
  }

  class NewsModel {
    var lastQuery: Option<string>

    constructor ()
      ensures lastQuery.None?
    {
      lastQuery := None;
    }

    /**
     * `getTextNewsPublisher`: remembers the normalised query at once, before any
     * response, and asks for its first page, newest first.
     */
    method GetTextNewsPublisher(query: string) returns (req: Ctx.NewsRequest)
      modifies this
      ensures lastQuery == Some(Normalized(query))
      ensures req == Ctx.NewsRequest(Normalized(query), 1, Net.PublishedAt, PageSize)
    {
      var handledQuery := Normalized(query);
      lastQuery := Some(handledQuery);
      req := Ctx.NewsRequest(handledQuery, 1, Net.PublishedAt, PageSize);
    }

    /**
     * `getPaginatedPublisher`: with no query yet it fails at once and asks for
     * nothing; otherwise it asks for the given page of the last query.
     */
    method GetPaginatedPublisher(page: int) returns (r: Result<Ctx.NewsRequest, NetworkService.NetworkServiceError>)
      ensures lastQuery.None? ==> r == Failure(NetworkService.General("There is no query"))
      ensures lastQuery.Some? ==> r == Success(Ctx.NewsRequest(lastQuery.value, page, Net.PublishedAt, PageSize))
    {
      if lastQuery.None? {
        r := Failure(NetworkService.General("There is no query"));
      } else {
        r := Success(Ctx.NewsRequest(lastQuery.value, page, Net.PublishedAt, PageSize));
      }
    }
  }
}
