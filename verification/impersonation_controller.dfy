/** App\Controller\ImpersonationController: the POST /api/impersonate endpoint.

    It decodes and sanitises the JSON body into an impersonation request, asks
    the validator for violations, calls CognitoService::impersonateUser, and
    maps the outcome (tokens or an exception) to an HTTP status and JSON body.

    json_decode and the Symfony validator are not modelled: their answers for
    this request are parameters (`decoded`, `violations`). So are the answers of
    the two SDK calls the service makes (`secretName`, `store`, `initiate`).
 */
module ImpersonationController {
  import opened Errors
  import opened CognitoService

  const EmptyRequestBody: string := "Empty request body"
  const InvalidRequestFormat: string := "Invalid request format"
  const InvalidJsonPayload: string := "Invalid JSON payload"
  const InvalidAfterSanitization: string := "Invalid input after sanitization"
  const InvalidRequestData: string := "Invalid request data"
  const ValidationFailedText: string := "Validation failed"
  const UnexpectedError: string := "An unexpected error occurred"
  /** The PHP Error message for a named argument the callee does not declare. */
  const UnknownNamedParameter: string := "Unknown named parameter $secretCode"
  /** Stands for the message of the TypeError PHP raises under strict_types for
      a non-string argument; the exact text never reaches a response body. */
  const StringTypeError: string := "argument must be of type string"

  const HttpOk: int := 200
  const HttpBadRequest: int := 400
  const HttpUnauthorized: int := 401
  const HttpInternalServerError: int := 500

  // ---------------------------------------------------------------------------
  // sanitizeInput
  // ---------------------------------------------------------------------------

  /** The characters the pattern `[^a-zA-Z0-9\-]` does not match. Underscore
      is not among them, although the comment beside the pattern says it is. */
  predicate IsAllowed(c: char)
  {
    ('a' <= c <= 'z') || ('A' <= c <= 'Z') || ('0' <= c <= '9') || c == '-'
  }

  predicate AllAllowed(s: string)
  {
    forall i :: 0 <= i < |s| ==> IsAllowed(s[i])
  }

  /** PHP's empty() on a string: true for "" and for "0". */
  predicate PhpEmpty(s: string)
  {
    s == "" || s == "0"
  }

  /** preg_replace of every disallowed character by the empty string. */
  function Filter(s: string): (r: string)
    ensures |r| <= |s|
    ensures AllAllowed(r)
  {
    if s == [] then []
    else (if IsAllowed(s[0]) then [s[0]] else []) + Filter(s[1..])
  }

  /** Order: filtering distributes over concatenation, so the kept characters
      stay in the order they had in the input. */
  lemma {:induction false} FilterConcat(a: string, b: string)
    ensures Filter(a + b) == Filter(a) + Filter(b)
  {
    if a == [] {
      assert a + b == b;
    } else {
      assert (a + b)[0] == a[0];
      assert (a + b)[1..] == a[1..] + b;
      FilterConcat(a[1..], b);
    }
  }

  /** Content: every allowed character occurs in the output as often as in the
      input, and no disallowed character occurs at all. */
  lemma {:induction false} FilterCounts(s: string, c: char)
    ensures multiset(Filter(s))[c] == if IsAllowed(c) then multiset(s)[c] else 0
  {
    if s != [] {
      FilterCounts(s[1..], c);
      assert s == [s[0]] + s[1..];
      assert multiset(s) == multiset([s[0]]) + multiset(s[1..]);
    }
  }

  /** The filter changes a string exactly when it holds a disallowed character. */
  lemma {:induction false} FilterFixesExactlyAllowed(s: string)
    ensures Filter(s) == s <==> AllAllowed(s)
  {
    if s != [] && AllAllowed(s) {
      assert AllAllowed(s[1..]) by {
        forall i | 0 <= i < |s[1..]| ensures IsAllowed(s[1..][i]) {
          assert s[1..][i] == s[i + 1];
        }
      }
      FilterFixesExactlyAllowed(s[1..]);
      assert s == [s[0]] + s[1..];
    }
  }

  lemma FilterIdempotent(s: string)
    ensures Filter(Filter(s)) == Filter(s)
  {
    FilterFixesExactlyAllowed(Filter(s));
  }

  /** Underscore is removed wherever it occurs. */
  lemma UnderscoreRemoved(s: string)
    ensures '_' !in Filter(s)
  {
    FilterCounts(s, '_');
  }

  /** sanitizeInput: keep the allowed characters; a result PHP treats as empty
      ("" or "0") is an InvalidRequestException. */
  function SanitizeInput(input: string): (r: Result<string>)
    ensures r.Ok? <==> !PhpEmpty(Filter(input))
    ensures r.Ok? ==> r.value == Filter(input) && AllAllowed(r.value)
    ensures r.Err? ==> r.error == InvalidRequestException(InvalidAfterSanitization, [])
  {
    var sanitized := Filter(input);
    if PhpEmpty(sanitized) then Err(InvalidRequestException(InvalidAfterSanitization, []))
    else Ok(sanitized)
  }

  /** Sanitising a sanitised value returns it unchanged. */
  lemma SanitizeIdempotent(input: string)
    requires SanitizeInput(input).Ok?
    ensures SanitizeInput(SanitizeInput(input).value) == SanitizeInput(input)
  {
    FilterIdempotent(input);
  }

  /** Two user ids that differ only by underscores sanitise to the same id. */
  lemma UnderscoreMergesUserIds()
    ensures SanitizeInput("john_doe") == SanitizeInput("johndoe") == Ok("johndoe")
  {
    var john, doe := "john", "doe";
    assert AllAllowed(john) && AllAllowed(doe);
    FilterFixesExactlyAllowed(john);
    FilterFixesExactlyAllowed(doe);
    assert Filter("_") == [] by {
      assert "_"[1..] == [];
    }
    FilterConcat("_", doe);
    FilterConcat(john, "_" + doe);
    FilterConcat(john, doe);
    assert john + ("_" + doe) == "john_doe";
    assert john + doe == "johndoe";
    assert Filter("john_doe") == "johndoe" == Filter("johndoe");
    assert !PhpEmpty("johndoe");
  }

  /** For all inputs: an underscore anywhere makes no difference to the result. */
  lemma UnderscoreIgnored(a: string, b: string)
    ensures SanitizeInput(a + "_" + b) == SanitizeInput(a + b)
  {
    assert Filter("_") == [] by {
      assert "_"[1..] == [];
    }
    FilterConcat(a, "_");
    FilterConcat(a + "_", b);
    FilterConcat(a, b);
    assert Filter(a + "_" + b) == Filter(a + b);
  }

  // ---------------------------------------------------------------------------
  // decodeRequestContent and the request record
  // ---------------------------------------------------------------------------

  /** One value of the decoded JSON object: a string, null, or anything else
      (number, boolean, nested array). */
  datatype Field = FString(s: string) | FNull | FOther

  /** What json_decode(..., true) returns: a PHP array (a JSON object's string
      keys; a JSON list has no string key) or a scalar. */
  datatype JsonValue = JsonArray(entries: map<string, Field>) | JsonScalar

  /** json_decode with JSON_THROW_ON_ERROR: a value, or a \JsonException. */
  datatype JsonDecode = Decoded(value: JsonValue) | Malformed

  /** The request the controller builds and reads. The DTO class declares only
      targetUserId; this record has the two fields the controller uses. */
  datatype ImpersonationRequest = ImpersonationRequest(targetUserId: string, secretCode: string)

  /** One validator violation. */
  datatype Violation = Violation(propertyPath: string, message: string)

  /** decodeRequestContent: reject an empty body, decode it, require an array. */
  function DecodeRequestContent(body: string, decoded: JsonDecode): (r: Result<map<string, Field>>)
    ensures r.Ok? <==> !PhpEmpty(body) && decoded.Decoded? && decoded.value.JsonArray?
    ensures r.Ok? ==> r.value == decoded.value.entries
    ensures PhpEmpty(body) ==> r == Err(InvalidRequestException(EmptyRequestBody, []))
    ensures !PhpEmpty(body) && decoded.Malformed? ==> r == Err(JsonException)
    ensures !PhpEmpty(body) && decoded == Decoded(JsonScalar) ==>
              r == Err(InvalidRequestException(InvalidRequestFormat, []))
  {
    if PhpEmpty(body) then Err(InvalidRequestException(EmptyRequestBody, []))
    else match decoded
      case Malformed => Err(JsonException)
      case Decoded(JsonScalar) => Err(InvalidRequestException(InvalidRequestFormat, []))
      case Decoded(JsonArray(entries)) => Ok(entries)
  }

  /** `$content[key] ?? ''` passed where a string is declared (strict_types):
      missing and null become "", a non-string is a TypeError. */
  function StringArgument(content: map<string, Field>, key: string): (r: Result<string>)
    ensures r.Ok? <==> key !in content || !content[key].FOther?
    ensures r.Ok? ==> r.value == if key in content && content[key].FString? then content[key].s else ""
    ensures r.Err? ==> r.error == OtherThrowable(StringTypeError)
  {
    if key !in content then Ok("")
    else match content[key]
      case FString(s) => Ok(s)
      case FNull => Ok("")
      case FOther => Err(OtherThrowable(StringTypeError))
  }

  /** The first constructor argument: sanitizeInput($content['targetUserId'] ?? ''). */
  function SanitizedTarget(content: map<string, Field>): (r: Result<string>)
    ensures r.Ok? ==> !PhpEmpty(r.value) && AllAllowed(r.value)
    // a missing or null targetUserId sanitises "" and is rejected
    ensures "targetUserId" !in content || content["targetUserId"] == FNull ==>
              r == Err(InvalidRequestException(InvalidAfterSanitization, []))
    // a string target is sanitised; any other value fails the string parameter
    ensures "targetUserId" in content && content["targetUserId"].FString? ==>
              r == SanitizeInput(content["targetUserId"].s)
    ensures "targetUserId" in content && content["targetUserId"].FOther? ==>
              r == Err(OtherThrowable(StringTypeError))
  {
    match StringArgument(content, "targetUserId")
    case Err(e) => Err(e)
    case Ok(target) => SanitizeInput(target)
  }

  /** The request construction with both fields, as the controller uses it. */
  function CreateRequest(content: map<string, Field>): (r: Result<ImpersonationRequest>)
    ensures r.Ok? <==> SanitizedTarget(content).Ok? && StringArgument(content, "secretCode").Ok?
    ensures r.Ok? ==> r.value.targetUserId == SanitizedTarget(content).value
    ensures r.Ok? ==> r.value.secretCode == StringArgument(content, "secretCode").value
    ensures SanitizedTarget(content).Err? ==> r == Err(SanitizedTarget(content).error)
    // a non-string secretCode is a TypeError once the target has been sanitised
    ensures SanitizedTarget(content).Ok? && "secretCode" in content && content["secretCode"].FOther? ==>
              r == Err(OtherThrowable(StringTypeError))
  {
    match SanitizedTarget(content)
    case Err(e) => Err(e)
    case Ok(target) =>
      match StringArgument(content, "secretCode")
      case Err(e) => Err(e)
      case Ok(secret) => Ok(ImpersonationRequest(target, secret))
  }

  /** The request construction as written: the DTO has no secretCode parameter,
      so once the first argument is evaluated the named argument `secretCode`
      raises a PHP Error. No request is ever built. */
  function CreateRequestAsWritten(content: map<string, Field>): (r: Result<ImpersonationRequest>)
    ensures r.Err?
    ensures SanitizedTarget(content).Ok? ==> r.error == OtherThrowable(UnknownNamedParameter)
    ensures SanitizedTarget(content).Err? ==> r.error == SanitizedTarget(content).error
  {
    match SanitizedTarget(content)
    case Err(e) => Err(e)
    case Ok(_) => Err(OtherThrowable(UnknownNamedParameter))
  }

  /** The body carries a JSON object whose targetUserId is a string with at
      least one allowed character besides a lone "0", and whose secretCode, if
      present, is a string or null. */
  predicate WellFormed(body: string, decoded: JsonDecode)
  {
    && !PhpEmpty(body)
    && decoded.Decoded? && decoded.value.JsonArray?
    && var e := decoded.value.entries;
    && "targetUserId" in e && e["targetUserId"].FString? && !PhpEmpty(Filter(e["targetUserId"].s))
    && ("secretCode" in e ==> !e["secretCode"].FOther?)
  }

  /** The body decodes to an array with a field that reaches a string parameter
      as a non-string: targetUserId itself, or secretCode once targetUserId has
      sanitised successfully. */
  predicate NonStringField(body: string, decoded: JsonDecode)
  {
    && !PhpEmpty(body)
    && decoded.Decoded? && decoded.value.JsonArray?
    && var e := decoded.value.entries;
    && "targetUserId" in e
    && (|| e["targetUserId"].FOther?
        || (&& e["targetUserId"].FString? && !PhpEmpty(Filter(e["targetUserId"].s))
            && "secretCode" in e && e["secretCode"].FOther?))
  }

  /** The secretCode the body carries ("" when missing or null). */
  function BodySecret(decoded: JsonDecode): string
  {
    if decoded.Decoded? && decoded.value.JsonArray? && "secretCode" in decoded.value.entries
       && decoded.value.entries["secretCode"].FString?
    then decoded.value.entries["secretCode"].s
    else ""
  }

  /** The body's targetUserId string ("" when missing or not a string). */
  function BodyTarget(decoded: JsonDecode): string
  {
    if decoded.Decoded? && decoded.value.JsonArray? && "targetUserId" in decoded.value.entries
       && decoded.value.entries["targetUserId"].FString?
    then decoded.value.entries["targetUserId"].s
    else ""
  }

  /** The part of validateAndCreateRequest before the validator runs: decode,
      build the request, and turn a \JsonException into an InvalidRequestException. */
  function BuildRequest(body: string, decoded: JsonDecode): (r: Result<ImpersonationRequest>)
    ensures r.Ok? <==> WellFormed(body, decoded)
    ensures r.Ok? ==> r.value == ImpersonationRequest(Filter(BodyTarget(decoded)), BodySecret(decoded))
    ensures !PhpEmpty(body) && decoded.Malformed? ==> r == Err(InvalidRequestException(InvalidJsonPayload, []))
    // failures are invalid requests, except a non-string field, which is a TypeError
    ensures r.Err? ==> r.error.InvalidRequestException? || r.error == OtherThrowable(StringTypeError)
    // which of the two: a TypeError exactly for a non-string field
    ensures r.Err? ==> (r.error.OtherThrowable? <==> NonStringField(body, decoded))
    ensures r.Err? && r.error.InvalidRequestException? ==> r.error.violations == []
  {
    match DecodeRequestContent(body, decoded)
    case Err(JsonException) => Err(InvalidRequestException(InvalidJsonPayload, []))
    case Err(e) => Err(e)
    case Ok(content) => CreateRequest(content)
  }

  /** BuildRequest with the request constructed as written. */
  function BuildRequestAsWritten(body: string, decoded: JsonDecode): (r: Result<ImpersonationRequest>)
    ensures r.Err?
    ensures WellFormed(body, decoded) ==> r.error == OtherThrowable(UnknownNamedParameter)
  {
    match DecodeRequestContent(body, decoded)
    case Err(JsonException) => Err(InvalidRequestException(InvalidJsonPayload, []))
    case Err(e) => Err(e)
    case Ok(content) => CreateRequestAsWritten(content)
  }

  // ---------------------------------------------------------------------------
  // validateAndCreateRequest
  // ---------------------------------------------------------------------------

  function ViolationText(v: Violation): string
  {
    v.propertyPath + ": " + v.message
  }

  /** The foreach loop that turns each violation into "path: message". */
  method ViolationMessages(violations: seq<Violation>) returns (errors: seq<string>)
    ensures |errors| == |violations|
    ensures forall i :: 0 <= i < |violations| ==> errors[i] == ViolationText(violations[i])
  {
    errors := [];
    for i := 0 to |violations|
      invariant |errors| == i
      invariant forall k :: 0 <= k < i ==> errors[k] == ViolationText(violations[k])
    {
      errors := errors + [ViolationText(violations[i])];
    }
  }

  /** validateAndCreateRequest; `violations` is what the validator reports for
      the request built from this body. */
  method ValidateAndCreateRequest(body: string, decoded: JsonDecode, violations: seq<Violation>)
    returns (r: Result<ImpersonationRequest>)
    ensures r.Ok? <==> WellFormed(body, decoded) && violations == []
    ensures r.Ok? ==> r == BuildRequest(body, decoded)
    ensures !WellFormed(body, decoded) ==> r == BuildRequest(body, decoded)
    // one "path: message" entry per violation, in order
    ensures WellFormed(body, decoded) && violations != [] ==>
              && r.Err? && r.error.InvalidRequestException?
              && r.error.message == InvalidRequestData
              && |r.error.violations| == |violations|
              && forall i :: 0 <= i < |violations| ==> r.error.violations[i] == ViolationText(violations[i])
  {
    r := BuildRequest(body, decoded);
    if r.Ok? && |violations| > 0 {
      var errors := ViolationMessages(violations);
      r := Err(InvalidRequestException(InvalidRequestData, errors));
    }
  }

  // ---------------------------------------------------------------------------
  // impersonate
  // ---------------------------------------------------------------------------

  datatype Body =
    | Tokens(tokens: TokenBundle)
    | ValidationFailed(error: string, details: seq<string>)
    | ErrorBody(error: string)

  datatype Response = Response(status: int, body: Body)

  /** The catch clauses of impersonate: each outcome to its status and body. */
  function ToResponse(outcome: Result<TokenBundle>): (r: Response)
    ensures r.status in {HttpOk, HttpBadRequest, HttpUnauthorized, HttpInternalServerError}
    ensures r.status == HttpOk <==> outcome.Ok?
    ensures r.status == HttpOk ==> r.body == Tokens(outcome.value)
    ensures r.status == HttpBadRequest <==> outcome.Err? && outcome.error.InvalidRequestException?
    ensures r.status == HttpBadRequest ==> r.body == ValidationFailed(ValidationFailedText, outcome.error.violations)
    ensures r.status == HttpUnauthorized <==>
              outcome.Err? && (outcome.error.ImpersonationException? || outcome.error.SecretNotFoundException?)
    ensures r.status == HttpUnauthorized ==> r.body == ErrorBody(outcome.error.message)
    // every other throwable: a fixed text, nothing of the exception leaks
    ensures r.status == HttpInternalServerError ==> r.body == ErrorBody(UnexpectedError)
  {
    match outcome
    case Ok(tokens) => Response(HttpOk, Tokens(tokens))
    case Err(InvalidRequestException(_, violations)) =>
      Response(HttpBadRequest, ValidationFailed(ValidationFailedText, violations))
    case Err(ImpersonationException(message)) => Response(HttpUnauthorized, ErrorBody(message))
    case Err(SecretNotFoundException(message)) => Response(HttpUnauthorized, ErrorBody(message))
    case Err(_) => Response(HttpInternalServerError, ErrorBody(UnexpectedError))
  }

  /** impersonate: the whole request, with the SDK calls the service made. */
  method Impersonate(config: Config, body: string, decoded: JsonDecode, violations: seq<Violation>,
                     secretName: Option<string>, store: SecretValueOutcome, initiate: InitiateOutcome)
    returns (response: Response, calls: seq<Call>)
    // the service is reached only by a well-formed request the validator accepts
    ensures !WellFormed(body, decoded) || violations != [] ==>
              calls == [] && response.status in {HttpBadRequest, HttpInternalServerError}
    ensures !WellFormed(body, decoded) ==> response == ToResponse(Err(BuildRequest(body, decoded).error))
    // a rejected body is answered 500 exactly when a field is not a string, else 400 with no details
    ensures !WellFormed(body, decoded) ==> (response.status == HttpInternalServerError <==> NonStringField(body, decoded))
    ensures !WellFormed(body, decoded) && !NonStringField(body, decoded) ==>
              response == Response(HttpBadRequest, ValidationFailed(ValidationFailedText, []))
    ensures WellFormed(body, decoded) && violations != [] ==>
              && response.status == HttpBadRequest
              && response.body.ValidationFailed?
              && response.body.error == ValidationFailedText
              && |response.body.details| == |violations|
              && forall i :: 0 <= i < |violations| ==> response.body.details[i] == ViolationText(violations[i])
    // otherwise the service runs on the sanitised target and the body's secret
    ensures WellFormed(body, decoded) && violations == [] ==>
              var t := ImpersonateUser(config, secretName, store, initiate, Filter(BodyTarget(decoded)), BodySecret(decoded));
              response == ToResponse(t.result) && calls == t.calls
    // Cognito is asked for tokens only when the body's secret is the stored one
    ensures CognitoCalled(calls) ==> SecretAccepted(secretName, store, BodySecret(decoded))
  {
    var request := ValidateAndCreateRequest(body, decoded, violations);
    match request
    case Err(e) =>
      response := ToResponse(Err(e));
      calls := [];
    case Ok(req) =>
      var t := ImpersonateUser(config, secretName, store, initiate, req.targetUserId, req.secretCode);
      response := ToResponse(t.result);
      calls := t.calls;
  }

  // ---------------------------------------------------------------------------
  // Properties of the whole flow
  // ---------------------------------------------------------------------------

  /** As written, no request reaches the service: every body ends in 400 or 500,
      and every well-formed one in 500. */
  lemma AsWrittenNeverReachesService(body: string, decoded: JsonDecode)
    ensures BuildRequestAsWritten(body, decoded).Err?
    ensures ToResponse(Err(BuildRequestAsWritten(body, decoded).error)).status in {HttpBadRequest, HttpInternalServerError}
    ensures WellFormed(body, decoded) ==>
              ToResponse(Err(BuildRequestAsWritten(body, decoded).error)) == Response(HttpInternalServerError, ErrorBody(UnexpectedError))
  {
  }

  /** A request body, and what json_decode makes of it. */
  const AliceBody: string := "{\"targetUserId\":\"alice\",\"secretCode\":\"s3cret\"}"

  /** With the two-field request, the same well-formed body does build a request. */
  lemma CorrectedBuildsRequest()
    ensures var decoded := Decoded(JsonArray(map["targetUserId" := FString("alice"), "secretCode" := FString("s3cret")]));
            && BuildRequestAsWritten(AliceBody, decoded) == Err(OtherThrowable(UnknownNamedParameter))
            && BuildRequest(AliceBody, decoded) == Ok(ImpersonationRequest("alice", "s3cret"))
  {
    var decoded := Decoded(JsonArray(map["targetUserId" := FString("alice"), "secretCode" := FString("s3cret")]));
    FilterFixesExactlyAllowed("alice");
    assert WellFormed(AliceBody, decoded);
  }

  /** A field that is not a string, such as {"targetUserId":42}, is not a
      validation failure: the TypeError is answered 500 with the fixed text. */
  lemma NonStringFieldIsServerError(body: string, decoded: JsonDecode)
    requires NonStringField(body, decoded)
    ensures BuildRequest(body, decoded) == Err(OtherThrowable(StringTypeError))
    ensures ToResponse(Err(BuildRequest(body, decoded).error)) == Response(HttpInternalServerError, ErrorBody(UnexpectedError))
  {
  }

  /** A Cognito error message reaches the caller verbatim in a 401. */
  lemma CognitoMessageReachesCaller(config: Config, secretName: Option<string>, store: SecretValueOutcome,
                                    message: string, targetUserId: string, providedSecret: string)
    requires SecretAccepted(secretName, store, providedSecret)
    ensures ToResponse(ImpersonateUser(config, secretName, store, CognitoError(message), targetUserId, providedSecret).result)
         == Response(HttpUnauthorized, ErrorBody(AuthFailedPrefix + message))
  {
  }

  /** A throwable from getSecretValue outside the SecretsManager family is not
      turned into SecretNotFoundException: it reaches the controller's last
      clause and is answered 500 with the fixed text. */
  lemma UncaughtSecretFailureIsServerError(config: Config, name: string, message: string,
                                           initiate: InitiateOutcome, targetUserId: string, providedSecret: string)
    ensures var t := ImpersonateUser(config, Some(name), SecretsCallFailed(message), initiate, targetUserId, providedSecret);
            && t.result == Err(OtherThrowable(message))
            && t.calls == [GetSecretValue(name)]
            && ToResponse(t.result) == Response(HttpInternalServerError, ErrorBody(UnexpectedError))
  {
  }

  /** A missing AWS_SECRET_NAME is answered 401, with no SDK call. */
  lemma MisconfigurationIsUnauthorized(config: Config, store: SecretValueOutcome, initiate: InitiateOutcome,
                                       targetUserId: string, providedSecret: string)
    ensures var t := ImpersonateUser(config, None, store, initiate, targetUserId, providedSecret);
            t.calls == [] && ToResponse(t.result) == Response(HttpUnauthorized, ErrorBody(NotConfigured))
  {
  }
}
