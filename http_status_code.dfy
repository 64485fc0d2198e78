/** The HTTP status codes the app distinguishes, as a raw-value enum over `Int`. */
module HttpStatusCode {
  import W = Wrappers

  datatype HttpStatusCode =
    | Success
    | Created
    | InternalServerError
    | PageLimit
    | Unauthourized   // the app's spelling
    | RequestLimit

  const AllCases: seq<HttpStatusCode> :=
    [Success, Created, InternalServerError, PageLimit, Unauthourized, RequestLimit]

  const RawValues: set<int> := {200, 201, 500, 426, 401, 429}

  function RawValue(c: HttpStatusCode): (r: int)
    ensures c == Success <==> r == 200
    ensures c == Created <==> r == 201
    ensures c == InternalServerError <==> r == 500
    ensures c == PageLimit <==> r == 426
    ensures c == Unauthourized <==> r == 401
    ensures c == RequestLimit <==> r == 429
  {
    match c
    case Success => 200
    case Created => 201
    case InternalServerError => 500
    case PageLimit => 426
    case Unauthourized => 401
    case RequestLimit => 429
  }

  /** The synthesised failable `init(rawValue:)`. */
  function FromRawValue(code: int): (r: W.Option<HttpStatusCode>)
    ensures r.Some? <==> code in RawValues
    ensures r.Some? ==> RawValue(r.value) == code
  {
    if code == 200 then W.Some(Success)
    else if code == 201 then W.Some(Created)
    else if code == 500 then W.Some(InternalServerError)
    else if code == 426 then W.Some(PageLimit)
    else if code == 401 then W.Some(Unauthourized)
    else if code == 429 then W.Some(RequestLimit)
    else W.None
  }

  /** `init(rawValue:)` is a left inverse of `rawValue`, so the raw values are pairwise distinct. */
  lemma FromRawValueInvertsRawValue(c: HttpStatusCode)
    ensures FromRawValue(RawValue(c)) == W.Some(c)
  {
  }

  lemma RawValueInjective(c: HttpStatusCode, d: HttpStatusCode)
    ensures RawValue(c) == RawValue(d) ==> c == d
  {
    FromRawValueInvertsRawValue(c);
    FromRawValueInvertsRawValue(d);
  }

  /** Exactly six cases, whose raw values are exactly the six codes. */
  lemma SixCases()
    ensures |AllCases| == 6
    ensures forall c: HttpStatusCode :: c in AllCases
    ensures forall i, j :: 0 <= i < j < |AllCases| ==> AllCases[i] != AllCases[j]
    ensures forall code :: code in RawValues <==> exists c: HttpStatusCode :: RawValue(c) == code
  {
    forall c: HttpStatusCode ensures c in AllCases {
      match c
      case Success => assert AllCases[0] == c;
      case Created => assert AllCases[1] == c;
      case InternalServerError => assert AllCases[2] == c;
      case PageLimit => assert AllCases[3] == c;
      case Unauthourized => assert AllCases[4] == c;
      case RequestLimit => assert AllCases[5] == c;
    }
    forall code | code in RawValues ensures exists c: HttpStatusCode :: RawValue(c) == code {
      assert RawValue(FromRawValue(code).value) == code;
    }
  }
}
