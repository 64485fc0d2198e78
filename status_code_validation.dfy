/** How a response status code is classified before the body is decoded. */
module StatusCodeValidation {
  import W = Wrappers
  import H = HttpStatusCode

  datatype StatusCodeValidation =
    | Success
    | Failure(reason: string)
    | InternalServerError
    | Unknown

  /** `handleStatusCode`: a switch over `HTTPStatusCode(rawValue:)`, total over `Int`. */
  function HandleStatusCode(code: int): (r: StatusCodeValidation)
    ensures r == Success <==> code == 200 || code == 201
    ensures r == InternalServerError <==> code == 500
    ensures r == Failure("Page limit") <==> code == 426
    ensures r == Failure("Request limit") <==> code == 429
    ensures r == Failure("Api Key isn't provided") <==> code == 401
    ensures r == Unknown <==> code !in H.RawValues
    ensures r.Failure? ==> code in {426, 429, 401}
  {
    var c := H.FromRawValue(code);
    if c == W.Some(H.Success) || c == W.Some(H.Created) then Success
    else if c == W.Some(H.InternalServerError) then InternalServerError
    else if c == W.Some(H.PageLimit) then Failure("Page limit")
    else if c == W.Some(H.RequestLimit) then Failure("Request limit")
    else if c == W.Some(H.Unauthourized) then Failure("Api Key isn't provided")
    else Unknown
  }
}
