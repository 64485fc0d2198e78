/**
 * The response pipeline of `NetworkService.publisher(route:)`: the guard on
 * an unbuildable request, the status classification inside `tryMap`, decoding
 * and `mapError`. The transport and the decoder enter as parameters.
 */
module NetworkService {
  import W = Wrappers
  import SCV = StatusCodeValidation

  newtype Byte = x: int | 0 <= x < 256

  datatype NetworkServiceError =
    | Undefined
    | InternalServerError
    | InvalidRequest
    | FailedDecodingResponse(reason: string)
    | General(message: string)

  /** The API key the requests carry (`Keys.newsKey`). */
  const NewsKey := "2ccc57ecb62846a48910167e1c5311ce"

  /** What came back with the data: an HTTP response with a status code, or some other URL response. */
  datatype UrlResponse = HttpUrlResponse(statusCode: int) | OtherResponse

  /** What the transport delivered: data and a response, or a transport error and its description. */
  datatype Transport = Delivered(data: seq<Byte>, response: UrlResponse) | TransportFailed(description: string)

  /** The errors that reach `mapError`, each with its `localizedDescription` where the switch uses it. */
  datatype PipelineError =
    | DecodingError(description: string)
    | ServiceError(error: NetworkServiceError)
    | OtherError(description: string)

  /** The `tryMap` closure: classify the status code; only a success passes the body on. */
  function CheckResponse(data: seq<Byte>, response: UrlResponse): (r: W.Result<seq<Byte>, NetworkServiceError>)
    ensures response.OtherResponse? ==> r == W.Failure(Undefined)
    ensures response.HttpUrlResponse? ==>
              match SCV.HandleStatusCode(response.statusCode)
              case Success => r == W.Success(data)
              case Failure(reason) => r == W.Failure(General(reason))
              case InternalServerError => r == W.Failure(InternalServerError)
              case Unknown => r == W.Failure(Undefined)
    ensures r.Success? <==> response.HttpUrlResponse? && response.statusCode in {200, 201}
    ensures r.Success? ==> r.value == data
  {
    match response
    case OtherResponse => W.Failure(Undefined)
    case HttpUrlResponse(code) =>
      match SCV.HandleStatusCode(code)
      case Success => W.Success(data)
      case Failure(reason) => W.Failure(General(reason))
      case InternalServerError => W.Failure(InternalServerError)
      case Unknown => W.Failure(Undefined)
  }

  /** The `mapError` closure. */
  function MapError(e: PipelineError): (r: NetworkServiceError)
    ensures e.DecodingError? ==> r == FailedDecodingResponse(e.description)
    ensures e.ServiceError? ==> r == e.error
    ensures e.OtherError? ==> r == General(e.description)
  {
    match e
    case DecodingError(d) => FailedDecodingResponse(d)
    case ServiceError(err) => err
    case OtherError(d) => General(d)
  }

  /**
   * The whole publisher, its single result delivered as a `Result`. `request` is
   * `route.request`; `send` stands for the data task, `decode` for the JSON
   * decoder, whose failure carries the decoding error's description.
   */
  function Publisher<Req, Model>(request: W.Option<Req>, send: Req -> Transport,
                                 decode: seq<Byte> -> W.Result<Model, string>): (r: W.Result<Model, NetworkServiceError>)
    ensures request.None? ==> r == W.Failure(InvalidRequest)
    ensures request.Some? && send(request.value).TransportFailed? ==>
              r == W.Failure(General(send(request.value).description))
    ensures request.Some? && send(request.value).Delivered? ==>
              var t := send(request.value);
              match CheckResponse(t.data, t.response)
              case Failure(err) => r == W.Failure(err)
              case Success(body) =>
                match decode(body)
                case Success(m) => r == W.Success(m)
                case Failure(d) => r == W.Failure(FailedDecodingResponse(d))
  {
    match request
    case None => W.Failure(InvalidRequest)
    case Some(req) =>
      var mapped: W.Result<Model, PipelineError> :=
        match send(req)
        case TransportFailed(d) => W.Failure(OtherError(d))
        case Delivered(data, response) =>
          match CheckResponse(data, response)
          case Failure(err) => W.Failure(ServiceError(err))
          case Success(body) =>
            match decode(body)
            case Success(m) => W.Success(m)
            case Failure(d) => W.Failure(DecodingError(d));
      match mapped
      case Success(m) => W.Success(m)
      case Failure(e) => W.Failure(MapError(e))
  }

  /** With no buildable request nothing is sent: the result does not depend on the transport at all. */
  lemma InvalidRequestSendsNothing<Req, Model>(send1: Req -> Transport, send2: Req -> Transport,
                                               decode: seq<Byte> -> W.Result<Model, string>)
    ensures Publisher(W.None, send1, decode) == Publisher(W.None, send2, decode) == W.Failure(InvalidRequest)
  {
  }

  /** A body reaches the decoder unchanged only after a 200 or a 201. */
  lemma OnlySuccessIsDecoded<Req, Model>(request: Req, send: Req -> Transport,
                                         decode: seq<Byte> -> W.Result<Model, string>)
    requires send(request).Delivered?
    ensures Publisher(W.Some(request), send, decode).Success? ==>
              && send(request).response.HttpUrlResponse?
              && send(request).response.statusCode in {200, 201}
              && decode(send(request).data).Success?
              && Publisher(W.Some(request), send, decode).value == decode(send(request).data).value
  {
  }
}
