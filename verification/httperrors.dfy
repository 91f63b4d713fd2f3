/**
 * FDSN web-service errors: the error classes, their status codes and short
 * descriptions, the factory that picks a class from a status code, and the
 * fixed error-message template of the FDSN Web Service Specifications 1.1.
 */
module HttpErrors {
  import opened Wrappers
  import Strings

  /** The error classes that render the message template. */
  datatype TemplatedKind =
    | BadRequest
    | RequestTooLarge
    | RequestURITooLarge
    | InternalServerError
    | TemporarilyUnavailable

  /** The class attribute `code` of each templated error class: an HTTP client or server error status. */
  function ClassCode(k: TemplatedKind): (r: int)
    ensures 400 <= r < 600
    ensures r < 500 <==> k in {BadRequest, RequestTooLarge, RequestURITooLarge}
  {
    match k
    case BadRequest => 400
    case RequestTooLarge => 413
    case RequestURITooLarge => 414
    case InternalServerError => 500
    case TemporarilyUnavailable => 503
  }

  /** The class attribute `error_desc_short` of each templated error class: a capitalised phrase. */
  function ShortDescription(k: TemplatedKind): (r: string)
    ensures |r| > 0 && 'A' <= r[0] <= 'Z'
  {
    match k
    case BadRequest => "Bad request"
    case RequestTooLarge => "Request too large"
    case RequestURITooLarge => "Request URI too large"
    case InternalServerError => "Internal server error"
    case TemporarilyUnavailable => "Service temporarily unavailable"
  }

  /** No two classes share a code or a short description. */
  lemma ClassConstantsDistinct(a: TemplatedKind, b: TemplatedKind)
    requires a != b
    ensures ClassCode(a) != ClassCode(b)
    ensures ShortDescription(a) != ShortDescription(b)
  {
  }

  /** The status code a NoDataError carries when none is given. */
  const NoDataDefaultCode := 204

  /** The class default of `service_version`. */
  const DefaultServiceVersion := ""

  /**
   * What an error's constructor reads from outside: the configured
   * documentation URI (the class default), the request URL and the ISO 8601
   * text of the request start time.
   */
  datatype ErrorContext = ErrorContext(defaultDocumentationUri: string, requestUrl: string, requestTime: string)

  /**
   * An error instance. NoDataError never builds the template, so it has no
   * URI, version or message; its description is empty.
   */
  datatype FdsnError =
    | NoDataError(noDataCode: int)
    | TemplatedError(kind: TemplatedKind, documentationUri: string, serviceVersion: string, message: string)
  {
    function Code(): int
    {
      match this
      case NoDataError(c) => c
      case TemplatedError(k, _, _, _) => ClassCode(k)
    }

    function Description(): string
    {
      match this
      case NoDataError(_) => ""
      case TemplatedError(_, _, _, m) => m
    }
  }

  /** The literal text of the template around its seven `%s` slots. */
  const TemplatePieces: seq<string> := [
    "\nError ", ": ", "\n\n", "\n\nUsage details are available from ",
    "\n\nRequest:\n", "\n\nRequest Submitted:\n", "\n\nService version:\n", "\n"
  ]

  /** `%`-substitution: the literal pieces with the arguments between them. */
  function Format(pieces: seq<string>, args: seq<string>): string
    requires |pieces| == |args| + 1
  {
    if |args| == 0 then pieces[0] else pieces[0] + args[0] + Format(pieces[1..], args[1..])
  }

  /** Where the `i`-th argument starts in `Format(pieces, args)`. */
  function FieldOffset(pieces: seq<string>, args: seq<string>, i: nat): nat
    requires |pieces| == |args| + 1 && i < |args|
  {
    if i == 0 then |pieces[0]| else |pieces[0]| + |args[0]| + FieldOffset(pieces[1..], args[1..], i - 1)
  }

  /**
   * Substitution puts each argument, unchanged, at its slot: the first
   * piece opens the text, and reading `|args[i]|` characters at the i-th
   * offset gives back `args[i]`.
   */
  lemma {:induction false} FormatField(pieces: seq<string>, args: seq<string>, i: nat)
    requires |pieces| == |args| + 1 && i < |args|
    ensures pieces[0] <= Format(pieces, args)
    ensures FieldOffset(pieces, args, i) + |args[i]| <= |Format(pieces, args)|
    ensures Format(pieces, args)[FieldOffset(pieces, args, i)..FieldOffset(pieces, args, i) + |args[i]|] == args[i]
  {
    var rest := Format(pieces[1..], args[1..]);
    assert Format(pieces, args) == pieces[0] + (args[0] + rest);
    if i > 0 {
      FormatField(pieces[1..], args[1..], i - 1);
      var k := FieldOffset(pieces[1..], args[1..], i - 1);
      var off := |pieces[0]| + |args[0]|;
      assert Format(pieces, args)[off + k..off + k + |args[i]|] == rest[k..k + |args[i]|];
    }
  }

  /**
   * `get_error_message`: the seven values substituted into the template, in
   * order; the text opens with the template's first line and holds each
   * value, unchanged, at its slot.
   */
  function ErrorMessage(code: int, descriptionShort: string, descriptionLong: string,
                        documentationUri: string, requestUrl: string, requestTime: string,
                        serviceVersion: string): (r: string)
    ensures TemplatePieces[0] <= r
    ensures var args := MessageArgs(code, descriptionShort, descriptionLong, documentationUri,
                                    requestUrl, requestTime, serviceVersion);
            forall i :: 0 <= i < |args| ==>
              && FieldOffset(TemplatePieces, args, i) + |args[i]| <= |r|
              && r[FieldOffset(TemplatePieces, args, i)..FieldOffset(TemplatePieces, args, i) + |args[i]|] == args[i]
  {
    var args := MessageArgs(code, descriptionShort, descriptionLong, documentationUri,
                            requestUrl, requestTime, serviceVersion);
    FormatFields(TemplatePieces, args);
    Format(TemplatePieces, args)
  }

  /** `FormatField` for every slot at once. */
  lemma FormatFields(pieces: seq<string>, args: seq<string>)
    requires |pieces| == |args| + 1
    ensures pieces[0] <= Format(pieces, args)
    ensures forall i :: 0 <= i < |args| ==>
              && FieldOffset(pieces, args, i) + |args[i]| <= |Format(pieces, args)|
              && Format(pieces, args)[FieldOffset(pieces, args, i)..FieldOffset(pieces, args, i) + |args[i]|] == args[i]
  {
    if |args| == 0 {
      assert Format(pieces, args) == pieces[0];
    }
    forall i | 0 <= i < |args|
      ensures FieldOffset(pieces, args, i) + |args[i]| <= |Format(pieces, args)|
      ensures Format(pieces, args)[FieldOffset(pieces, args, i)..FieldOffset(pieces, args, i) + |args[i]|] == args[i]
    {
      FormatField(pieces, args, i);
    }
    if |args| > 0 {
      FormatField(pieces, args, 0);
    }
  }

  function MessageArgs(code: int, descriptionShort: string, descriptionLong: string,
                       documentationUri: string, requestUrl: string, requestTime: string,
                       serviceVersion: string): (r: seq<string>)
    ensures |r| + 1 == |TemplatePieces|
  {
    [Strings.IntToDecimal(code), descriptionShort, descriptionLong, documentationUri,
     requestUrl, requestTime, serviceVersion]
  }

  /** Python truthiness of an optional string argument: None and "" are false. */
  function OrDefault(given: Option<string>, default: string): string
  {
    if given.Some? && given.value != "" then given.value else default
  }

  /**
   * `FDSNHTTPError.__init__` as inherited by the templated classes: a falsy
   * URI or version falls back to the class default, and the short
   * description fills both the short and the long description slots.
   */
  function NewError(kind: TemplatedKind, documentationUri: Option<string>, serviceVersion: Option<string>,
                    ctx: ErrorContext): (r: FdsnError)
    ensures r.TemplatedError? && r.kind == kind && r.Code() == ClassCode(kind)
    ensures documentationUri.None? || documentationUri.value == "" ==>
              r.documentationUri == ctx.defaultDocumentationUri
    ensures documentationUri.Some? && documentationUri.value != "" ==> r.documentationUri == documentationUri.value
    ensures serviceVersion.None? || serviceVersion.value == "" ==> r.serviceVersion == DefaultServiceVersion
    ensures serviceVersion.Some? && serviceVersion.value != "" ==> r.serviceVersion == serviceVersion.value
    ensures r.Description() == ErrorMessage(ClassCode(kind), ShortDescription(kind), ShortDescription(kind),
                                            r.documentationUri, ctx.requestUrl, ctx.requestTime, r.serviceVersion)
  {
    var uri := OrDefault(documentationUri, ctx.defaultDocumentationUri);
    var version := OrDefault(serviceVersion, DefaultServiceVersion);
    TemplatedError(kind, uri, version,
                   ErrorMessage(ClassCode(kind), ShortDescription(kind), ShortDescription(kind),
                                uri, ctx.requestUrl, ctx.requestTime, version))
  }

  /**
   * The message of a templated error holds, at the template's slots in
   * order, the decimal code, the short description twice, the URI, the
   * request URL, the request time and the version.
   */
  lemma MessageFields(kind: TemplatedKind, documentationUri: Option<string>, serviceVersion: Option<string>,
                      ctx: ErrorContext, i: nat)
    requires i < 7
    ensures var e := NewError(kind, documentationUri, serviceVersion, ctx);
            var args := MessageArgs(e.Code(), ShortDescription(kind), ShortDescription(kind),
                                    e.documentationUri, ctx.requestUrl, ctx.requestTime, e.serviceVersion);
            && args[1] == args[2] == ShortDescription(kind)
            && FieldOffset(TemplatePieces, args, i) + |args[i]| <= |e.Description()|
            && e.Description()[FieldOffset(TemplatePieces, args, i)..FieldOffset(TemplatePieces, args, i) + |args[i]|]
               == args[i]
  {
    var e := NewError(kind, documentationUri, serviceVersion, ctx);
    var args := MessageArgs(e.Code(), ShortDescription(kind), ShortDescription(kind),
                            e.documentationUri, ctx.requestUrl, ctx.requestTime, e.serviceVersion);
    FormatField(TemplatePieces, args, i);
  }

  /** The decimal code at the head of a message reads back as the error's code. */
  lemma MessageCodeReadsBack(kind: TemplatedKind, documentationUri: Option<string>, serviceVersion: Option<string>,
                             ctx: ErrorContext)
    ensures var e := NewError(kind, documentationUri, serviceVersion, ctx);
            var digits := Strings.NatToDecimal(ClassCode(kind));
            && |e.Description()| >= 7 + |digits|
            && e.Description()[..7] == "\nError "
            && Strings.AllDigits(e.Description()[7..7 + |digits|])
            && Strings.DecimalValue(e.Description()[7..7 + |digits|]) == e.Code()
  {
    var e := NewError(kind, documentationUri, serviceVersion, ctx);
    var code := ClassCode(kind);
    var digits := Strings.NatToDecimal(code);
    var args := MessageArgs(code, ShortDescription(kind), ShortDescription(kind),
                            e.documentationUri, ctx.requestUrl, ctx.requestTime, e.serviceVersion);
    var desc := e.Description();
    assert desc == ErrorMessage(code, ShortDescription(kind), ShortDescription(kind),
                                e.documentationUri, ctx.requestUrl, ctx.requestTime, e.serviceVersion);
    assert args[0] == digits;
    assert FieldOffset(TemplatePieces, args, 0) == 7;
    assert desc[7..7 + |digits|] == digits;
    assert desc[..7] == "\nError " by { assert TemplatePieces[0] <= desc; }
    Strings.DecimalRoundTrip(code);
  }

  /**
   * `NoDataError(status_code=204)`: the given code, or 204 when none is
   * given; the description stays empty since the template is never built.
   */
  function NewNoDataError(statusCode: Option<int>): (r: FdsnError)
    ensures r.NoDataError? && r.Description() == ""
    ensures r.Code() == if statusCode.Some? then statusCode.value else NoDataDefaultCode
  {
    NoDataError(if statusCode.Some? then statusCode.value else NoDataDefaultCode)
  }

  /**
   * `FDSNHTTPError.create`: a code in the no-content set gives NoDataError
   * with that code, checked before anything else; 400, 413, 414, 500 and 503
   * give their classes; every other code gives InternalServerError.
   */
  function Create(statusCode: int, noContentCodes: set<int>, documentationUri: Option<string>,
                  serviceVersion: Option<string>, ctx: ErrorContext): (r: FdsnError)
    ensures r.NoDataError? <==> statusCode in noContentCodes
    ensures r.Code() == if statusCode in noContentCodes || statusCode in {400, 413, 414, 500, 503}
                        then statusCode else 500
    ensures r.TemplatedError? ==> r == NewError(r.kind, documentationUri, serviceVersion, ctx)
  {
    if statusCode in noContentCodes then NewNoDataError(Some(statusCode))
    else if statusCode == 400 then NewError(BadRequest, documentationUri, serviceVersion, ctx)
    else if statusCode == 413 then NewError(RequestTooLarge, documentationUri, serviceVersion, ctx)
    else if statusCode == 414 then NewError(RequestURITooLarge, documentationUri, serviceVersion, ctx)
    else if statusCode == 500 then NewError(InternalServerError, documentationUri, serviceVersion, ctx)
    else if statusCode == 503 then NewError(TemporarilyUnavailable, documentationUri, serviceVersion, ctx)
    else NewError(InternalServerError, documentationUri, serviceVersion, ctx)
  }

  /**
   * The factory inverts the class codes: asking for a class's own code
   * builds that class, unless the code is configured as no-content.
   */
  lemma CreateClassCode(kind: TemplatedKind, noContentCodes: set<int>, documentationUri: Option<string>,
                        serviceVersion: Option<string>, ctx: ErrorContext)
    requires ClassCode(kind) !in noContentCodes
    ensures Create(ClassCode(kind), noContentCodes, documentationUri, serviceVersion, ctx)
            == NewError(kind, documentationUri, serviceVersion, ctx)
  {
  }
}
