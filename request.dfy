/**
 * One round trip (request.go): build the URL, sign, marshal and attach the body, send, and
 * decide the result from the status code and the decoders' outcomes. Marshalling, the
 * network and XML decoding are foreign: an `Exchange` says what each of them gives for one call.
 */
module Request {
  import opened Wrappers
  import opened Types
  import opened Http
  import Sign

  /** A request descriptor: built by an operation, consumed once by `Run`. */
  datatype Request = Request(httpMethod: string, path: string, params: Option<Values>, body: Option<Body>)

  /** Foreign behaviour a round trip needs besides the exchange: crypto and `url.Values.Encode`. */
  datatype Foreign = Foreign(crypto: Sign.Crypto, encodeQuery: Values -> string)

  /** Builds the target address: the fixed service host, the descriptor's path, and the query when there are params. */
  function BuildUrl(r: Request, encodeQuery: Values -> string): (u: Url)
    ensures u.scheme == "https" && u.host == "route53.amazonaws.com"
    ensures u.path == r.path
    ensures r.params.None? ==> u.rawQuery == ""
    ensures r.params.Some? ==> u.rawQuery == encodeQuery(r.params.value)
  {
    var base := Url("https", "route53.amazonaws.com", "", "");
    var url := base.(path := r.path);
    if r.params.Some? then url.(rawQuery := encodeQuery(r.params.value)) else url
  }

  /** The `errorResponse` struct a non-200 body is decoded into. */
  datatype ErrorResponse = ErrorResponse(errorType: string, code: string, message: string, requestId: string)

  /**
   * Decoding a non-200 body into a fresh `errorResponse`: either it parsed, or the decoder
   * reported an error, leaving the struct with whatever it had filled in before failing.
   */
  datatype ErrorDecode = Parsed(eres: ErrorResponse) | Unparsable(eres: ErrorResponse)

  /**
   * The network: `Do` fails, reading the body fails, or a response arrives with a status and
   * a body of `bodyLength` bytes.
   */
  datatype Transport = DoFailed(err: Error) | ReadFailed(err: Error) | Delivered(status: int, bodyLength: nat)

  /**
   * `xml.NewDecoder` reads through a `bufio.Reader` of this size when its reader has no
   * `ReadByte`, as the `ioutil.NopCloser` around the body has not. Its first fill takes up to
   * this many bytes of the body, whether or not the decode needs them.
   */
  const DecoderBuffer: nat := 4096

  /** `io.EOF`, what a decoder reports when its reader is already exhausted. */
  const EndOfInput: Error := Error("EOF")

  /**
   * What the foreign parts give for one call: the outcome of `xml.Marshal` on the body, the
   * transport, decoding the body as an error envelope, and decoding into the result what
   * is left of the body for the second decoder (all of it after a 200 status).
   */
  datatype Exchange<T> = Exchange(
    marshal: Result<seq<byte>, Error>,
    transport: Transport,
    errorBody: ErrorDecode,
    decoded: Result<T, Error>)

  /** The text `fmt.Errorf("%s: %s", Code, Message)` produces. */
  function RejectionText(e: ErrorResponse): string {
    e.code + ": " + e.message
  }

  /** The body is present and could not be marshalled, so nothing is sent. */
  predicate MarshalFails<T>(req: Request, x: Exchange<T>) {
    req.body.Some? && x.marshal.Failure?
  }

  /**
   * The result `run` returns. Note the error-body branch as written: a rejection is
   * returned only when the error body does NOT parse; a parsable error body falls through
   * to a second decoder over the same reader, which the first one has drained of its first
   * `DecoderBuffer` bytes, so a short body gives `io.EOF`.
   */
  function RunOutcome<T>(req: Request, x: Exchange<T>): (r: Result<T, Error>)
    ensures r.Success? ==> r == x.decoded && !MarshalFails(req, x) && x.transport.Delivered?
    ensures MarshalFails(req, x) ==> r == Failure(x.marshal.error)
    ensures !MarshalFails(req, x) && !x.transport.Delivered? ==> r == Failure(x.transport.err)
    ensures !MarshalFails(req, x) && x.transport.Delivered? && x.transport.status == 200 ==> r == x.decoded
    ensures !MarshalFails(req, x) && x.transport.Delivered? && x.transport.status != 200 ==>
      r == if x.errorBody.Unparsable? then Failure(Error(RejectionText(x.errorBody.eres)))
           else if x.transport.bodyLength <= DecoderBuffer then Failure(EndOfInput)
           else x.decoded
  {
    if MarshalFails(req, x) then Failure(x.marshal.error)
    else match x.transport
      case DoFailed(err) => Failure(err)
      case ReadFailed(err) => Failure(err)
      case Delivered(status, bodyLength) =>
        if status == 200 then x.decoded
        else if x.errorBody.Unparsable? then Failure(Error(RejectionText(x.errorBody.eres)))
        else if bodyLength <= DecoderBuffer then Failure(EndOfInput)
        else x.decoded
  }

  /**
   * Runs one request for client `r53` at timestamp `now`: a fresh request object is signed,
   * then given the marshalled body, then handed to the transport. `sent` is what the
   * transport received, `None` when marshalling failed and nothing was sent.
   */
  method Run<T>(r53: Client, req: Request, x: Exchange<T>, now: string, foreign: Foreign)
    returns (res: Result<T, Error>, sent: Option<Transmitted>)
    ensures res == RunOutcome(req, x)
    ensures sent.None? <==> MarshalFails(req, x)
    ensures sent.Some? ==> sent.value.httpMethod == req.httpMethod
    ensures sent.Some? ==> sent.value.url == BuildUrl(req, foreign.encodeQuery)
    ensures sent.Some? ==> sent.value.header == Sign.SigningWrites(r53.auth, now, foreign.crypto)
    ensures sent.Some? ==> sent.value.body == if req.body.Some? then Some(x.marshal.value) else None
  {
    var hreq := new HttpRequest(req.httpMethod, BuildUrl(req, foreign.encodeQuery));
    Sign.Sign(r53.auth, now, foreign.crypto, hreq);
    assert hreq.header == Sign.SigningWrites(r53.auth, now, foreign.crypto);
    if req.body.Some? {
      match x.marshal
      case Failure(err) =>
        return Failure(err), None;
      case Success(data) =>
        hreq.body := Some(data);
    }
    sent := Some(hreq.Snapshot());
    match x.transport
    case DoFailed(err) =>
      res := Failure(err);
    case ReadFailed(err) =>
      res := Failure(err);
    case Delivered(status, bodyLength) =>
      if status != 200 {
        match x.errorBody
        case Unparsable(eres) =>
          return Failure(Error(RejectionText(eres))), sent;
        case Parsed(_) =>
          if bodyLength <= DecoderBuffer {
            return Failure(EndOfInput), sent;
          }
      }
      res := x.decoded;
  }

  /**
   * A well-formed error envelope in a body longer than the decoder's buffer never becomes a
   * rejection: the result is what the second decoder makes of the rest of the body.
   */
  lemma ParsedErrorBodyFallsThrough<T>(req: Request, x: Exchange<T>, v: T)
    requires !MarshalFails(req, x) && x.transport.Delivered? && x.transport.status != 200
    requires x.transport.bodyLength > DecoderBuffer
    requires x.errorBody.Parsed? && x.decoded == Success(v)
    ensures RunOutcome(req, x) == Success(v)
  {
  }

  /** No rejection text reads "EOF": the text always holds ": " right after the code. */
  lemma {:induction false} RejectionTextIsNotEndOfInput(e: ErrorResponse)
    ensures Error(RejectionText(e)) != EndOfInput
  {
    assert RejectionText(e)[|e.code|] == ':';
  }

  /**
   * A well-formed error envelope in a body that fits the decoder's buffer reaches the caller
   * as "EOF": the rejection's code and message are lost.
   */
  lemma ShortRejectionReadsEndOfInput<T>(req: Request, x: Exchange<T>)
    requires !MarshalFails(req, x) && x.transport.Delivered? && x.transport.status != 200
    requires x.transport.bodyLength <= DecoderBuffer && x.errorBody.Parsed?
    ensures RunOutcome(req, x) == Failure(EndOfInput)
    ensures RunOutcome(req, x) != Failure(Error(RejectionText(x.errorBody.eres)))
  {
    RejectionTextIsNotEndOfInput(x.errorBody.eres);
  }

  /**
   * `run` as evidently intended: a status other than 200 always fails, with the code and
   * message of the error envelope, parsed or not; everything else is as in `RunOutcome`.
   */
  function RunOutcomeIntended<T>(req: Request, x: Exchange<T>): (r: Result<T, Error>)
    ensures !MarshalFails(req, x) && x.transport.Delivered? && x.transport.status != 200 ==>
      r == Failure(Error(RejectionText(x.errorBody.eres)))
    ensures MarshalFails(req, x) || !x.transport.Delivered? || x.transport.status == 200 ==>
      r == RunOutcome(req, x)
  {
    if !MarshalFails(req, x) && x.transport.Delivered? && x.transport.status != 200 then
      Failure(Error(RejectionText(x.errorBody.eres)))
    else RunOutcome(req, x)
  }

  /**
   * Under the intended rule a call succeeds only on a 200 status, and a well-formed rejection
   * exposes its code and message, whatever the body's length.
   */
  lemma {:induction false} IntendedRejectionKeepsCodeAndMessage<T>(req: Request, x: Exchange<T>)
    ensures RunOutcomeIntended(req, x).Success? ==> x.transport.Delivered? && x.transport.status == 200
    ensures !MarshalFails(req, x) && x.transport.Delivered? && x.transport.status != 200 && x.errorBody.Parsed? ==>
      RunOutcomeIntended(req, x).Failure? &&
      RunOutcomeIntended(req, x).error.text[..|x.errorBody.eres.code|] == x.errorBody.eres.code &&
      RunOutcomeIntended(req, x).error.text[|x.errorBody.eres.code| + 2..] == x.errorBody.eres.message
  {
    var e := x.errorBody.eres;
    var t := RejectionText(e);
    assert t[..|e.code|] == e.code;
    assert t[|e.code| + 2..] == e.message;
  }

  /** Once the transport fails, the decoders are never consulted: the outcome ignores them. */
  lemma TransportFailureSkipsDecoding<T>(req: Request, x: Exchange<T>, y: Exchange<T>)
    requires x.marshal == y.marshal && x.transport == y.transport && !x.transport.Delivered?
    ensures RunOutcome(req, x) == RunOutcome(req, y)
  {
  }
}
