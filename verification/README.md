# Cognito impersonation endpoint — verified model

The endpoint `POST /api/impersonate` issues Cognito session tokens for a
target user to a caller who knows a shared impersonation secret held in AWS
Secrets Manager. This project models its decision logic in Dafny:

- **ImpersonationController** (`impersonation_controller.dfy`): the request gate.
  `sanitizeInput` keeps ASCII letters, digits and `-` and rejects a result PHP's
  `empty()` treats as empty (`""` and `"0"`). `decodeRequestContent` rejects an
  empty body, a JSON syntax error and a non-array value. `validateAndCreateRequest`
  builds the request and turns each validator violation into a `path: message`
  string; it is a method with a `for` loop. `impersonate` dispatches the outcome:
  tokens give 200, `InvalidRequestException` gives 400, `ImpersonationException`
  and `SecretNotFoundException` give 401, and anything else gives 500 with a fixed text.
- **CognitoService** (`cognito_service.dfy`): `getImpersonationSecret` has three
  failure causes. `impersonateUser` fetches the secret, compares it with `!==`,
  makes one `CUSTOM_AUTH` `adminInitiateAuth` call and copies four fields out of
  its `AuthenticationResult`. Cognito errors become `Authentication failed: <message>`.
- **Errors** (`errors.dfy`): the exception kinds as a datatype, and `Result`.

External answers are parameters. These are the JSON decode result, the
validator's violations, the `AWS_SECRET_NAME` environment entry, the Secrets
Manager answer and the Cognito answer. Each service function returns its
result together with the trace of SDK calls it made. This makes "no Cognito
call on a bad secret" and "no call at all on a rejected request" statable.

Where the code and the project's documentation disagree, the model follows the code:

- The code has no user-existence lookup and no respond-to-challenge step.
  Tokens come straight from `adminInitiateAuth`.
- Three secret-store failures become `SecretNotFoundException`: an unset
  `AWS_SECRET_NAME`, a response without `SecretString`, and a
  `SecretsManagerException`. The controller answers them with 401 and the
  exception's message, for example `AWS_SECRET_NAME not configured`. See
  `MisconfigurationIsUnauthorized`.
- Any other throwable from the `getSecretValue` call, such as a credentials
  failure, is not caught by the service. It passes through and is answered
  with 500 and the fixed text. See `UncaughtSecretFailureIsServerError`.
- A body field that is not a string, as in `{"targetUserId":42}`, is not
  reported as invalid. The file declares `strict_types`, so passing it to a
  `string` parameter raises a TypeError. This is not the
  `InvalidRequestException` the `@throws` note at
  `src/Controller/ImpersonationController.php:73` announces, and the
  `\Throwable` clause answers it with 500. See `NonStringFieldIsServerError`.
- A Cognito error message reaches the caller verbatim in the 401 body. It is not
  a generic text. See `CognitoMessageReachesCaller`.
- The pattern at `src/Controller/ImpersonationController.php:126` removes `_`,
  although the comment above it says underscores are kept. So `john_doe` and
  `johndoe` name the same user after sanitising. See `UnderscoreIgnored`
  and `UnderscoreMergesUserIds`.
- The DTO `src/DTO/ImpersonationRequest.php` declares only `targetUserId`, but
  the controller passes and reads `secretCode`. The model's request record has
  both fields; the as-written behaviour is kept as a finding below.

## Model

| member | source | states |
|---|---|---|
| `ImpersonationController.Filter` | src/Controller/ImpersonationController.php:126 | the filtered string is no longer than the input and holds only ASCII letters, digits and `-` |
| `ImpersonationController.FilterConcat` | src/Controller/ImpersonationController.php:126 | filtering distributes over concatenation, so kept characters stay in their original order |
| `ImpersonationController.FilterCounts` | src/Controller/ImpersonationController.php:126 | each allowed character occurs in the output exactly as often as in the input; disallowed characters do not occur |
| `ImpersonationController.FilterFixesExactlyAllowed` | src/Controller/ImpersonationController.php:126 | the filter leaves a string unchanged if and only if every character of it is allowed |
| `ImpersonationController.FilterIdempotent` | src/Controller/ImpersonationController.php:126 | filtering twice equals filtering once |
| `ImpersonationController.UnderscoreRemoved` | src/Controller/ImpersonationController.php:125-126 | `_` never survives the filter, contrary to the comment |
| `ImpersonationController.SanitizeInput` | src/Controller/ImpersonationController.php:123-135 | succeeds if and only if the filtered input is neither `""` nor `"0"`; it then returns the filtered input, otherwise InvalidRequestException('Invalid input after sanitization') |
| `ImpersonationController.SanitizeIdempotent` | src/Controller/ImpersonationController.php:126-134 | re-sanitising a successful result returns it unchanged |
| `ImpersonationController.UnderscoreMergesUserIds` | src/Controller/ImpersonationController.php:125-126 | `john_doe` and `johndoe` both sanitise to `johndoe` |
| `ImpersonationController.UnderscoreIgnored` | src/Controller/ImpersonationController.php:125-126 | for all strings a and b, sanitising a + "_" + b gives the same result as sanitising a + b |
| `ImpersonationController.DecodeRequestContent` | src/Controller/ImpersonationController.php:106-121 | an empty or `"0"` body gives 'Empty request body'; a parse error gives JsonException; a non-array gives 'Invalid request format'; otherwise the decoded entries are returned |
| `ImpersonationController.StringArgument` | src/Controller/ImpersonationController.php:81-82 | a missing or null entry becomes `""`, a string is kept, any other value is a TypeError |
| `ImpersonationController.SanitizedTarget` | src/Controller/ImpersonationController.php:81 | a successful target id is allowed characters only and not PHP-empty; a string target gives exactly sanitizeInput of it; a missing or null `targetUserId` is rejected as invalid after sanitisation; any other value is a TypeError |
| `ImpersonationController.CreateRequest` | src/Controller/ImpersonationController.php:80-83 | the two-field request is built if and only if the sanitised target and the secret argument both succeed, and it carries exactly those two values; a target failure is passed on unchanged; a non-string `secretCode` after a good target is a TypeError |
| `ImpersonationController.CreateRequestAsWritten` | src/Controller/ImpersonationController.php:80-83 | as written, construction always fails; after a successful sanitisation it fails with the unknown-named-parameter Error |
| `ImpersonationController.BuildRequest` | src/Controller/ImpersonationController.php:77-98 | a request is built if and only if the body is well formed, with the filtered target and the body's secret; a JSON parse error becomes 'Invalid JSON payload'; a failure is a TypeError if and only if a field reaching a string parameter is not a string, and otherwise an InvalidRequestException with no details |
| `ImpersonationController.BuildRequestAsWritten` | src/Controller/ImpersonationController.php:77-98 | as written, no body builds a request; every well-formed body ends in the unknown-named-parameter Error |
| `ImpersonationController.ViolationMessages` | src/Controller/ImpersonationController.php:88-91 | exactly one `path: message` string per violation, in the violations' order |
| `ImpersonationController.ValidateAndCreateRequest` | src/Controller/ImpersonationController.php:75-99 | succeeds if and only if the body is well formed and there are no violations; with violations, InvalidRequestException('Invalid request data') carries one formatted string per violation |
| `ImpersonationController.ToResponse` | src/Controller/ImpersonationController.php:40-69 | 200 with the tokens if and only if success; 400 'Validation failed' with the violations if and only if InvalidRequestException; 401 with the message if and only if ImpersonationException or SecretNotFoundException; otherwise 500 with the fixed text |
| `ImpersonationController.Impersonate` | src/Controller/ImpersonationController.php:30-70 | a rejected request or a non-empty violation list makes no SDK call; a rejected body is answered 500 if and only if a field is not a string, and otherwise 400 'Validation failed' with no details; violations give 400 'Validation failed' with one detail per violation; otherwise the response is the mapped service outcome for the sanitised target and the body's secret; Cognito is called only when the body's secret equals the stored one |
| `ImpersonationController.AsWrittenNeverReachesService` | src/DTO/ImpersonationRequest.php:9-11 | with the one-field DTO every body ends in 400 or 500, and every well-formed body in 500 |
| `ImpersonationController.CorrectedBuildsRequest` | src/Controller/ImpersonationController.php:80-83 | the body `{"targetUserId":"alice","secretCode":"s3cret"}` fails as written but builds the request ("alice", "s3cret") with both fields |
| `ImpersonationController.NonStringFieldIsServerError` | src/Controller/ImpersonationController.php:81-82 | a non-string `targetUserId`, or a non-string `secretCode` after a good target, is a TypeError and is answered 500 with the fixed text |
| `ImpersonationController.CognitoMessageReachesCaller` | src/Service/CognitoService.php:87-92 | on an accepted secret, a Cognito error with message m is answered 401 with 'Authentication failed: ' + m |
| `ImpersonationController.UncaughtSecretFailureIsServerError` | src/Service/CognitoService.php:114-116 | a throwable from getSecretValue outside the SecretsManager family passes through unchanged after one SDK call, and is answered 500 with the fixed text |
| `ImpersonationController.MisconfigurationIsUnauthorized` | src/Service/CognitoService.php:103 | an unset AWS_SECRET_NAME makes no SDK call and is answered 401 'AWS_SECRET_NAME not configured' |
| `CognitoService.GetImpersonationSecret` | src/Service/CognitoService.php:99-118 | no call without a secret name, otherwise one call for that name; returns the SecretString unchanged exactly when present; the three failures map to their three messages; other throwables pass through |
| `CognitoService.InitiateCustomAuth` | src/Service/CognitoService.php:61-93 | exactly one CUSTOM_AUTH call with USERNAME = target; success exactly when an AuthenticationResult is present, its four fields copied verbatim; a missing one gives 'Authentication failed: No authentication result returned' unwrapped; a Cognito error gives 'Authentication failed: ' + message |
| `CognitoService.ImpersonateUser` | src/Service/CognitoService.php:53-94 | Cognito is called if and only if the fetched secret equals the provided one, after the secret fetch; secret-fetch failures propagate unchanged; a mismatch gives 'Invalid impersonation secret'; tokens are returned if and only if the secret is accepted and Cognito returns an AuthenticationResult |
| `CognitoService.RejectedSecretIgnoresCognito` | src/Service/CognitoService.php:55-59 | on a rejected secret the outcome and trace do not depend on Cognito's answer, and no Cognito call is made |
| `CognitoService.ImpersonateUserFailures` | src/Service/CognitoService.php:50-51 | unless an SDK call throws outside the caught families, every failure is ImpersonationException or SecretNotFoundException |

## Findings

| source | as written | input that shows it | evidently intended | confidence | as-written member | corrected member |
|---|---|---|---|---|---|---|
| src/Controller/ImpersonationController.php:80-83 | the named argument `secretCode` is passed to a constructor that declares only `targetUserId` (src/DTO/ImpersonationRequest.php:9-11). PHP raises an Error, which the `\Throwable` branch answers with 500 | body `{"targetUserId":"alice","secretCode":"s3cret"}` | a request record with both fields, handed to the service | high; not executed | `ImpersonationController.CreateRequestAsWritten` (with `AsWrittenNeverReachesService`, `CorrectedBuildsRequest`) | `ImpersonationController.CreateRequest` (used by `BuildRequest` and `Impersonate`) |

## Left out

- AWS SDK clients, SSO credential providers and the constructor's configuration (src/Service/CognitoService.php:21-45). These are network I/O and foreign library calls. Each SDK call is an abstract outcome parameter; pool and client ids are a `Config` value.
- src/Service/SecretsManagerService.php is not part of this model. Nothing in the modelled flow calls it, and its error mappings repeat those of `getImpersonationSecret`.
- All logging. It is observational only, including the debug line at src/Service/CognitoService.php:109 that writes the whole SDK result into the log.
- json_decode internals (depth limit, number handling) and the Symfony validator's rules. Their answers are the `decoded` and `violations` parameters. JsonResponse serialisation and the route attribute are also left out.
- Timing of the secret comparison. The code uses plain `!==`, and constant-time behaviour cannot be expressed here.
- Byte-level strings. PHP strings are bytes and the pattern has no `u` flag; the model filters `char`s. This gives the same result because every allowed character is ASCII and every byte of a multi-byte character is removed.
- `CognitoService.InitiateCustomAuth`: an AuthenticationResult lacking one of its four keys (PHP would copy `null`) is not modelled; the record always carries the four fields.
- A user-existence lookup and a respond-to-challenge step. Neither exists in the code.
