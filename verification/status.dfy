/**
 The status-code table of `HttpStatus` (a `repr(u32)` enum): each variant's
 discriminant, its display name (the identifier with `_` shown as a space)
 and `get_string`, which writes "<code> <name>".
 */
module Status {
  import opened Wrappers
  import Text
  import Decimal

  /** One constructor per variant, in declaration order. */
  datatype HttpStatus =
      Continue
    | SwitchingProtocols
    | OK
    | Created
    | Accepted
    | NonAuthoritativeInformation
    | NoContent
    | ResetContent
    | PartialContent
    | MultipleChoices
    | MovedPermanently
    | Found
    | SeeOther
    | NotModified
    | UseProxy
    | TemporaryRedirect
    | PermanentRedirect
    | BadRequest
    | Unauthorized
    | PaymentRequired
    | Forbidden
    | NotFound
    | MethodNotAllowed
    | NotAcceptable
    | ProxyAuthenticationRequired
    | RequestTimeout
    | Conflict
    | Gone
    | LengthRequired
    | PreconditionFailed
    | PayloadTooLarge
    | URITooLong
    | UnsupportedMediaType
    | RangeNotSatisfiable
    | ExpectationFailed
    | ImATeapot
    | MisdirectedRequest
    | UnprocessableEntity
    | Locked
    | FailedDependency
    | TooEarly
    | UpgradeRequired
    | PreconditionRequired
    | TooManyRequests
    | RequestHeaderFieldsTooLarge
    | UnavailableForLegalReasons
    | InternalServerError
    | NotImplemented
    | BadGateway
    | ServiceUnavailable
    | GatewayTimeout
    | HTTPVersionNotSupported
    | VariantAlsoNegotiates
    | InsufficientStorage
    | LoopDetected
    | NotExtended
    | NetworkAuthenticationRequired

  /** The declared discriminant of each variant. */
  function Code(s: HttpStatus): (c: nat)
    ensures 100 <= c <= 511
  {
    match s
    case Continue => 100
    case SwitchingProtocols => 101
    case OK => 200
    case Created => 201
    case Accepted => 202
    case NonAuthoritativeInformation => 203
    case NoContent => 204
    case ResetContent => 205
    case PartialContent => 206
    case MultipleChoices => 300
    case MovedPermanently => 301
    case Found => 302
    case SeeOther => 303
    case NotModified => 304
    case UseProxy => 305
    case TemporaryRedirect => 307
    case PermanentRedirect => 308
    case BadRequest => 400
    case Unauthorized => 401
    case PaymentRequired => 402
    case Forbidden => 403
    case NotFound => 404
    case MethodNotAllowed => 405
    case NotAcceptable => 406
    case ProxyAuthenticationRequired => 407
    case RequestTimeout => 408
    case Conflict => 409
    case Gone => 410
    case LengthRequired => 411
    case PreconditionFailed => 412
    case PayloadTooLarge => 413
    case URITooLong => 414
    case UnsupportedMediaType => 415
    case RangeNotSatisfiable => 416
    case ExpectationFailed => 417
    case ImATeapot => 418
    case MisdirectedRequest => 421
    case UnprocessableEntity => 422
    case Locked => 423
    case FailedDependency => 424
    case TooEarly => 425
    case UpgradeRequired => 426
    case PreconditionRequired => 428
    case TooManyRequests => 429
    case RequestHeaderFieldsTooLarge => 431
    case UnavailableForLegalReasons => 451
    case InternalServerError => 500
    case NotImplemented => 501
    case BadGateway => 502
    case ServiceUnavailable => 503
    case GatewayTimeout => 504
    case HTTPVersionNotSupported => 505
    case VariantAlsoNegotiates => 506
    case InsufficientStorage => 507
    case LoopDetected => 508
    case NotExtended => 510
    case NetworkAuthenticationRequired => 511
  }

  /** The variant identifier as written in the source, which is what `{:?}` prints. */
  function Identifier(s: HttpStatus): string
  {
    match s
    case Continue => "Continue"
    case SwitchingProtocols => "Switching_Protocols"
    case OK => "OK"
    case Created => "Created"
    case Accepted => "Accepted"
    case NonAuthoritativeInformation => "Non_Authoritative_Information"
    case NoContent => "No_Content"
    case ResetContent => "Reset_Content"
    case PartialContent => "Partial_Content"
    case MultipleChoices => "Multiple_Choices"
    case MovedPermanently => "Moved_Permanently"
    case Found => "Found"
    case SeeOther => "See_Other"
    case NotModified => "Not_Modified"
    case UseProxy => "Use_Proxy"
    case TemporaryRedirect => "Temporary_Redirect"
    case PermanentRedirect => "Permanent_Redirect"
    case BadRequest => "Bad_Request"
    case Unauthorized => "Unauthorized"
    case PaymentRequired => "Payment_Required"
    case Forbidden => "Forbidden"
    case NotFound => "Not_Found"
    case MethodNotAllowed => "Method_Not_Allowed"
    case NotAcceptable => "Not_Acceptable"
    case ProxyAuthenticationRequired => "Proxy_Authentication_Required"
    case RequestTimeout => "Request_Timeout"
    case Conflict => "Conflict"
    case Gone => "Gone"
    case LengthRequired => "Length_Required"
    case PreconditionFailed => "Precondition_Failed"
    case PayloadTooLarge => "Payload_Too_Large"
    case URITooLong => "URI_Too_Long"
    case UnsupportedMediaType => "Unsupported_Media_Type"
    case RangeNotSatisfiable => "Range_Not_Satisfiable"
    case ExpectationFailed => "Expectation_Failed"
    case ImATeapot => "Im_A_Teapot"
    case MisdirectedRequest => "Misdirected_Request"
    case UnprocessableEntity => "Unprocessable_Entity"
    case Locked => "Locked"
    case FailedDependency => "Failed_Dependency"
    case TooEarly => "Too_Early"
    case UpgradeRequired => "Upgrade_Required"
    case PreconditionRequired => "Precondition_Required"
    case TooManyRequests => "Too_Many_Requests"
    case RequestHeaderFieldsTooLarge => "Request_Header_Fields_Too_Large"
    case UnavailableForLegalReasons => "Unavailable_For_Legal_Reasons"
    case InternalServerError => "Internal_Server_Error"
    case NotImplemented => "Not_Implemented"
    case BadGateway => "Bad_Gateway"
    case ServiceUnavailable => "Service_Unavailable"
    case GatewayTimeout => "Gateway_Timeout"
    case HTTPVersionNotSupported => "HTTP_Version_Not_Supported"
    case VariantAlsoNegotiates => "Variant_Also_Negotiates"
    case InsufficientStorage => "Insufficient_Storage"
    case LoopDetected => "Loop_Detected"
    case NotExtended => "Not_Extended"
    case NetworkAuthenticationRequired => "Network_Authentication_Required"
  }

  /** The variant, if any, whose discriminant is `n`. */
  function FromCode(n: int): (r: Option<HttpStatus>)
  {
    if n < 100 || 600 <= n then None
    else if n < 200 then FromInformational(n)
    else if n < 300 then FromSuccessful(n)
    else if n < 400 then FromRedirection(n)
    else if n < 500 then FromClientError(n)
    else FromServerError(n)
  }

  /** The variants with a 1xx discriminant. */
  function FromInformational(n: int): (r: Option<HttpStatus>)
  {
    match n
    case 100 => Some(Continue)
    case 101 => Some(SwitchingProtocols)
    case _ => None
  }

  /** The variants with a 2xx discriminant. */
  function FromSuccessful(n: int): (r: Option<HttpStatus>)
  {
    match n
    case 200 => Some(OK)
    case 201 => Some(Created)
    case 202 => Some(Accepted)
    case 203 => Some(NonAuthoritativeInformation)
    case 204 => Some(NoContent)
    case 205 => Some(ResetContent)
    case 206 => Some(PartialContent)
    case _ => None
  }

  /** The variants with a 3xx discriminant. */
  function FromRedirection(n: int): (r: Option<HttpStatus>)
  {
    match n
    case 300 => Some(MultipleChoices)
    case 301 => Some(MovedPermanently)
    case 302 => Some(Found)
    case 303 => Some(SeeOther)
    case 304 => Some(NotModified)
    case 305 => Some(UseProxy)
    case 307 => Some(TemporaryRedirect)
    case 308 => Some(PermanentRedirect)
    case _ => None
  }

  /** The variants with a 4xx discriminant. */
  function FromClientError(n: int): (r: Option<HttpStatus>)
  {
    match n
    case 400 => Some(BadRequest)
    case 401 => Some(Unauthorized)
    case 402 => Some(PaymentRequired)
    case 403 => Some(Forbidden)
    case 404 => Some(NotFound)
    case 405 => Some(MethodNotAllowed)
    case 406 => Some(NotAcceptable)
    case 407 => Some(ProxyAuthenticationRequired)
    case 408 => Some(RequestTimeout)
    case 409 => Some(Conflict)
    case 410 => Some(Gone)
    case 411 => Some(LengthRequired)
    case 412 => Some(PreconditionFailed)
    case 413 => Some(PayloadTooLarge)
    case 414 => Some(URITooLong)
    case 415 => Some(UnsupportedMediaType)
    case 416 => Some(RangeNotSatisfiable)
    case 417 => Some(ExpectationFailed)
    case 418 => Some(ImATeapot)
    case 421 => Some(MisdirectedRequest)
    case 422 => Some(UnprocessableEntity)
    case 423 => Some(Locked)
    case 424 => Some(FailedDependency)
    case 425 => Some(TooEarly)
    case 426 => Some(UpgradeRequired)
    case 428 => Some(PreconditionRequired)
    case 429 => Some(TooManyRequests)
    case 431 => Some(RequestHeaderFieldsTooLarge)
    case 451 => Some(UnavailableForLegalReasons)
    case _ => None
  }

  /** The variants with a 5xx discriminant. */
  function FromServerError(n: int): (r: Option<HttpStatus>)
  {
    match n
    case 500 => Some(InternalServerError)
    case 501 => Some(NotImplemented)
    case 502 => Some(BadGateway)
    case 503 => Some(ServiceUnavailable)
    case 504 => Some(GatewayTimeout)
    case 505 => Some(HTTPVersionNotSupported)
    case 506 => Some(VariantAlsoNegotiates)
    case 507 => Some(InsufficientStorage)
    case 508 => Some(LoopDetected)
    case 510 => Some(NotExtended)
    case 511 => Some(NetworkAuthenticationRequired)
    case _ => None
  }

  /** Every variant is found again from its discriminant. */
  lemma CodeRoundTrip(s: HttpStatus)
    ensures FromCode(Code(s)) == Some(s)
  {
    match s
    case Continue => assert FromCode(100) == Some(Continue);
    case SwitchingProtocols => assert FromCode(101) == Some(SwitchingProtocols);
    case OK => assert FromCode(200) == Some(OK);
    case Created => assert FromCode(201) == Some(Created);
    case Accepted => assert FromCode(202) == Some(Accepted);
    case NonAuthoritativeInformation => assert FromCode(203) == Some(NonAuthoritativeInformation);
    case NoContent => assert FromCode(204) == Some(NoContent);
    case ResetContent => assert FromCode(205) == Some(ResetContent);
    case PartialContent => assert FromCode(206) == Some(PartialContent);
    case MultipleChoices => assert FromCode(300) == Some(MultipleChoices);
    case MovedPermanently => assert FromCode(301) == Some(MovedPermanently);
    case Found => assert FromCode(302) == Some(Found);
    case SeeOther => assert FromCode(303) == Some(SeeOther);
    case NotModified => assert FromCode(304) == Some(NotModified);
    case UseProxy => assert FromCode(305) == Some(UseProxy);
    case TemporaryRedirect => assert FromCode(307) == Some(TemporaryRedirect);
    case PermanentRedirect => assert FromCode(308) == Some(PermanentRedirect);
    case BadRequest => assert FromCode(400) == Some(BadRequest);
    case Unauthorized => assert FromCode(401) == Some(Unauthorized);
    case PaymentRequired => assert FromCode(402) == Some(PaymentRequired);
    case Forbidden => assert FromCode(403) == Some(Forbidden);
    case NotFound => assert FromCode(404) == Some(NotFound);
    case MethodNotAllowed => assert FromCode(405) == Some(MethodNotAllowed);
    case NotAcceptable => assert FromCode(406) == Some(NotAcceptable);
    case ProxyAuthenticationRequired => assert FromCode(407) == Some(ProxyAuthenticationRequired);
    case RequestTimeout => assert FromCode(408) == Some(RequestTimeout);
    case Conflict => assert FromCode(409) == Some(Conflict);
    case Gone => assert FromCode(410) == Some(Gone);
    case LengthRequired => assert FromCode(411) == Some(LengthRequired);
    case PreconditionFailed => assert FromCode(412) == Some(PreconditionFailed);
    case PayloadTooLarge => assert FromCode(413) == Some(PayloadTooLarge);
    case URITooLong => assert FromCode(414) == Some(URITooLong);
    case UnsupportedMediaType => assert FromCode(415) == Some(UnsupportedMediaType);
    case RangeNotSatisfiable => assert FromCode(416) == Some(RangeNotSatisfiable);
    case ExpectationFailed => assert FromCode(417) == Some(ExpectationFailed);
    case ImATeapot => assert FromCode(418) == Some(ImATeapot);
    case MisdirectedRequest => assert FromCode(421) == Some(MisdirectedRequest);
    case UnprocessableEntity => assert FromCode(422) == Some(UnprocessableEntity);
    case Locked => assert FromCode(423) == Some(Locked);
    case FailedDependency => assert FromCode(424) == Some(FailedDependency);
    case TooEarly => assert FromCode(425) == Some(TooEarly);
    case UpgradeRequired => assert FromCode(426) == Some(UpgradeRequired);
    case PreconditionRequired => assert FromCode(428) == Some(PreconditionRequired);
    case TooManyRequests => assert FromCode(429) == Some(TooManyRequests);
    case RequestHeaderFieldsTooLarge => assert FromCode(431) == Some(RequestHeaderFieldsTooLarge);
    case UnavailableForLegalReasons => assert FromCode(451) == Some(UnavailableForLegalReasons);
    case InternalServerError => assert FromCode(500) == Some(InternalServerError);
    case NotImplemented => assert FromCode(501) == Some(NotImplemented);
    case BadGateway => assert FromCode(502) == Some(BadGateway);
    case ServiceUnavailable => assert FromCode(503) == Some(ServiceUnavailable);
    case GatewayTimeout => assert FromCode(504) == Some(GatewayTimeout);
    case HTTPVersionNotSupported => assert FromCode(505) == Some(HTTPVersionNotSupported);
    case VariantAlsoNegotiates => assert FromCode(506) == Some(VariantAlsoNegotiates);
    case InsufficientStorage => assert FromCode(507) == Some(InsufficientStorage);
    case LoopDetected => assert FromCode(508) == Some(LoopDetected);
    case NotExtended => assert FromCode(510) == Some(NotExtended);
    case NetworkAuthenticationRequired => assert FromCode(511) == Some(NetworkAuthenticationRequired);
  }

  /** No two variants share a discriminant. */
  lemma CodeInjective(a: HttpStatus, b: HttpStatus)
    ensures Code(a) == Code(b) ==> a == b
  {
    CodeRoundTrip(a);
    CodeRoundTrip(b);
  }

  /** Codes the table skips, such as 102, 306 and 419, have no variant. */
  lemma UnlistedCodes()
    ensures forall s :: Code(s) != 102 && Code(s) != 306 && Code(s) != 419
  {
    forall s: HttpStatus
      ensures Code(s) != 102 && Code(s) != 306 && Code(s) != 419
    {
      CodeRoundTrip(s);
    }
  }

  /** `impl Display`: the identifier with every `_` replaced by a space. */
  function Display(s: HttpStatus): (name: string)
    ensures '_' !in name
    ensures |name| == |Identifier(s)|
    ensures forall i :: 0 <= i < |name| ==>
              name[i] == (if Identifier(s)[i] == '_' then ' ' else Identifier(s)[i])
  {
    Text.Replace(Identifier(s), '_', ' ')
  }

  /** `get_string`: the decimal code, one space, then the display name. */
  function GetString(s: HttpStatus): string
  {
    Decimal.Format(Code(s)) + " " + Display(s)
  }

  /** Reads "<code> <name>" back into the variant it names. */
  function ParseStatusString(t: string): Option<HttpStatus>
  {
    var i := Text.IndexOf(t, ' ');
    if i == |t| then None
    else
      var code :- Decimal.Parse(t[..i]);
      var s :- FromCode(code);
      if t[i + 1..] == Display(s) then Some(s) else None
  }

  /** In "<digits> <name>" the first space ends the digits. */
  lemma SplitCodeAndName(n: nat, name: string)
    ensures var t := Decimal.Format(n) + " " + name;
            var i := Text.IndexOf(t, ' ');
            i == |Decimal.Format(n)| && t[..i] == Decimal.Format(n) && t[i + 1..] == name
  {
    var digits := Decimal.Format(n);
    var t := digits + " " + name;
    assert t == digits + (" " + name);
    Text.IndexOfAfter(digits, " " + name, ' ');
    assert t[..|digits|] == digits;
    assert t[|digits| + 1..] == name;
  }

  /** `get_string` loses nothing: the variant is recovered from its text. */
  lemma GetStringRoundTrip(s: HttpStatus)
    ensures ParseStatusString(GetString(s)) == Some(s)
  {
    SplitCodeAndName(Code(s), Display(s));
    Decimal.ParseFormat(Code(s));
    CodeRoundTrip(s);
  }

  /** Different variants have different `get_string` texts. */
  lemma GetStringInjective(a: HttpStatus, b: HttpStatus)
    ensures GetString(a) == GetString(b) ==> a == b
  {
    GetStringRoundTrip(a);
    GetStringRoundTrip(b);
  }

  /** Entries of the table as the source declares them. */
  lemma CodeExamples()
    ensures Code(OK) == 200 && Code(NotFound) == 404 && Code(NetworkAuthenticationRequired) == 511
  {
  }

  /** Underscores of a multi-word identifier are shown as spaces. */
  lemma DisplayExample()
    ensures Display(URITooLong) == "URI Too Long"
  {
    var id := Identifier(URITooLong);
    var d := Display(URITooLong);
    assert id == "URI_Too_Long";
    assert |d| == 12;
    forall i | 0 <= i < 12
      ensures d[i] == "URI Too Long"[i]
    {
      assert d[i] == (if id[i] == '_' then ' ' else id[i]);
    }
  }

  /** The text of 404 names its variant. */
  lemma GetStringExample()
    ensures GetString(NotFound) == "404 Not Found"
  {
    assert Decimal.Format(404) == "404";
    var id := Identifier(NotFound);
    var d := Display(NotFound);
    assert id == "Not_Found";
    assert |d| == 9;
    forall i | 0 <= i < 9
      ensures d[i] == "Not Found"[i]
    {
      assert d[i] == (if id[i] == '_' then ' ' else id[i]);
    }
  }
}
