/** App\Service\CognitoService: the secret check and the single CUSTOM_AUTH
    initiate call that issue tokens for a target user.

    The two AWS SDK calls are not modelled; each becomes an abstract outcome
    supplied by the caller (what the SDK would answer), and every function
    returns, beside its result, the trace of SDK calls it made, in order.
 */
module CognitoService {
  import opened Errors

  /** Connection parameters set once in the constructor. */
  datatype Config = Config(userPoolId: string, clientId: string)

  /** The authentication flow the service asks Cognito for. */
  const CustomAuth: string := "CUSTOM_AUTH"

  const NotConfigured: string := "AWS_SECRET_NAME not configured"
  const SecretValueNotFound: string := "Secret value not found"
  const SecretRetrievalFailed: string := "Failed to retrieve impersonation secret"
  const InvalidSecret: string := "Invalid impersonation secret"
  const AuthFailedPrefix: string := "Authentication failed: "
  const NoAuthResult: string := "Authentication failed: No authentication result returned"

  /** One outbound SDK call, with the request fields the service sets. */
  datatype Call =
    | GetSecretValue(secretId: string)
    | AdminInitiateAuth(userPoolId: string, clientId: string, authFlow: string, username: string)

  datatype Option<+T> = None | Some(value: T)

  /** What SecretsManager's getSecretValue answers. */
  datatype SecretValueOutcome =
      /** A response; `secretString` is None when the SecretString key is absent or null. */
    | SecretReturned(secretString: Option<string>)
      /** A SecretsManagerException with its message. */
    | SecretsManagerError(message: string)
      /** Any other throwable escaping the SDK call (credentials, for one). */
    | SecretsCallFailed(message: string)

  /** The AuthenticationResult of an adminInitiateAuth response. */
  datatype AuthenticationResult =
    AuthenticationResult(accessToken: string, refreshToken: string, idToken: string, expiresIn: int)

  /** What Cognito's adminInitiateAuth answers. */
  datatype InitiateOutcome =
      /** A response; `authenticationResult` is None when that key is absent. */
    | InitiateReturned(authenticationResult: Option<AuthenticationResult>)
      /** A CognitoIdentityProviderException with its message. */
    | CognitoError(message: string)
      /** Any other throwable escaping the SDK call. */
    | InitiateCallFailed(message: string)

  /** The array impersonateUser returns. */
  datatype TokenBundle = TokenBundle(accessToken: string, refreshToken: string, idToken: string, expiresIn: int)

  /** A result together with the SDK calls made to produce it. */
  datatype Traced<+T> = Traced(result: Result<T>, calls: seq<Call>)

  predicate CognitoCalled(calls: seq<Call>)
  {
    exists c :: c in calls && c.AdminInitiateAuth?
  }

  /** getImpersonationSecret: read AWS_SECRET_NAME from the environment
      (`secretName`), fetch that secret, and return its SecretString. */
  function GetImpersonationSecret(secretName: Option<string>, store: SecretValueOutcome): (t: Traced<string>)
    // no SDK call without a configured name; otherwise exactly one, for that name
    ensures t.calls == if secretName.None? then [] else [GetSecretValue(secretName.value)]
    // success exactly when the name is set and the store returned a SecretString, which is returned unchanged
    ensures t.result.Ok? <==> secretName.Some? && store.SecretReturned? && store.secretString.Some?
    ensures t.result.Ok? ==> t.result.value == store.secretString.value
    // the three failure causes and their messages
    ensures secretName.None? ==> t.result == Err(SecretNotFoundException(NotConfigured))
    ensures secretName.Some? && store == SecretReturned(None) ==>
              t.result == Err(SecretNotFoundException(SecretValueNotFound))
    ensures secretName.Some? && store.SecretsManagerError? ==>
              t.result == Err(SecretNotFoundException(SecretRetrievalFailed))
    // a throwable outside the SecretsManager family is not caught
    ensures secretName.Some? && store.SecretsCallFailed? ==> t.result == Err(OtherThrowable(store.message))
  {
    match secretName
    case None => Traced(Err(SecretNotFoundException(NotConfigured)), [])
    case Some(name) =>
      var calls := [GetSecretValue(name)];
      match store
      case SecretReturned(None) => Traced(Err(SecretNotFoundException(SecretValueNotFound)), calls)
      case SecretReturned(Some(s)) => Traced(Ok(s), calls)
      case SecretsManagerError(_) => Traced(Err(SecretNotFoundException(SecretRetrievalFailed)), calls)
      case SecretsCallFailed(m) => Traced(Err(OtherThrowable(m)), calls)
  }

  /** The try block of impersonateUser after the secret check: one CUSTOM_AUTH
      initiate call and the extraction of its AuthenticationResult. */
  function InitiateCustomAuth(config: Config, targetUserId: string, initiate: InitiateOutcome): (t: Traced<TokenBundle>)
    ensures t.calls == [AdminInitiateAuth(config.userPoolId, config.clientId, CustomAuth, targetUserId)]
    ensures t.result.Ok? <==> initiate.InitiateReturned? && initiate.authenticationResult.Some?
    // the four fields are copied verbatim
    ensures t.result.Ok? ==>
              var a := initiate.authenticationResult.value;
              t.result.value == TokenBundle(a.accessToken, a.refreshToken, a.idToken, a.expiresIn)
    // a missing AuthenticationResult is reported as such and not wrapped a second time
    ensures initiate == InitiateReturned(None) ==> t.result == Err(ImpersonationException(NoAuthResult))
    ensures initiate.CognitoError? ==> t.result == Err(ImpersonationException(AuthFailedPrefix + initiate.message))
    ensures initiate.InitiateCallFailed? ==> t.result == Err(OtherThrowable(initiate.message))
  {
    var calls := [AdminInitiateAuth(config.userPoolId, config.clientId, CustomAuth, targetUserId)];
    match initiate
    case InitiateReturned(None) => Traced(Err(ImpersonationException(NoAuthResult)), calls)
    case InitiateReturned(Some(a)) =>
      Traced(Ok(TokenBundle(a.accessToken, a.refreshToken, a.idToken, a.expiresIn)), calls)
    case CognitoError(m) => Traced(Err(ImpersonationException(AuthFailedPrefix + m)), calls)
    case InitiateCallFailed(m) => Traced(Err(OtherThrowable(m)), calls)
  }

  /** True when the secret fetch succeeds and returns exactly `providedSecret`. */
  predicate SecretAccepted(secretName: Option<string>, store: SecretValueOutcome, providedSecret: string)
  {
    secretName.Some? && store == SecretReturned(Some(providedSecret))
  }

  /** impersonateUser: fail-fast secret check, then the initiate call. */
  function ImpersonateUser(config: Config, secretName: Option<string>, store: SecretValueOutcome,
                           initiate: InitiateOutcome, targetUserId: string, providedSecret: string): (t: Traced<TokenBundle>)
    // Cognito is reached exactly when the stored secret equals the provided one
    ensures CognitoCalled(t.calls) <==> SecretAccepted(secretName, store, providedSecret)
    // the secret is always fetched first, and at most one initiate call follows it
    ensures SecretAccepted(secretName, store, providedSecret) ==>
              t.calls == [GetSecretValue(secretName.value),
                          AdminInitiateAuth(config.userPoolId, config.clientId, CustomAuth, targetUserId)]
    ensures !SecretAccepted(secretName, store, providedSecret) ==>
              t.calls == GetImpersonationSecret(secretName, store).calls
    // a failed secret fetch propagates unchanged
    ensures GetImpersonationSecret(secretName, store).result.Err? ==>
              t.result == Err(GetImpersonationSecret(secretName, store).result.error)
    // a fetched secret that differs from the provided one
    ensures GetImpersonationSecret(secretName, store).result.Ok? && !SecretAccepted(secretName, store, providedSecret) ==>
              t.result == Err(ImpersonationException(InvalidSecret))
    // tokens are issued only on an accepted secret and an AuthenticationResult
    ensures t.result.Ok? <==>
              SecretAccepted(secretName, store, providedSecret) &&
              initiate.InitiateReturned? && initiate.authenticationResult.Some?
    ensures SecretAccepted(secretName, store, providedSecret) ==>
              t.result == InitiateCustomAuth(config, targetUserId, initiate).result
  {
    var fetched := GetImpersonationSecret(secretName, store);
    match fetched.result
    case Err(e) => Traced(Err(e), fetched.calls)
    case Ok(storedSecret) =>
      if providedSecret != storedSecret then
        Traced(Err(ImpersonationException(InvalidSecret)), fetched.calls)
      else
        var auth := InitiateCustomAuth(config, targetUserId, initiate);
        var calls := fetched.calls + auth.calls;
        assert calls[1] in calls && calls[1].AdminInitiateAuth?;
        Traced(auth.result, calls)
  }

  /** On a rejected secret, Cognito's answer plays no part: the outcome is the
      same whatever adminInitiateAuth would have returned. */
  lemma RejectedSecretIgnoresCognito(config: Config, secretName: Option<string>, store: SecretValueOutcome,
                                     i1: InitiateOutcome, i2: InitiateOutcome, targetUserId: string, providedSecret: string)
    requires !SecretAccepted(secretName, store, providedSecret)
    ensures ImpersonateUser(config, secretName, store, i1, targetUserId, providedSecret)
         == ImpersonateUser(config, secretName, store, i2, targetUserId, providedSecret)
    ensures !CognitoCalled(ImpersonateUser(config, secretName, store, i1, targetUserId, providedSecret).calls)
  {
  }

  /** Every failure of impersonateUser is one of the two exception kinds it
      declares, unless an SDK call threw something outside the families it catches. */
  lemma ImpersonateUserFailures(config: Config, secretName: Option<string>, store: SecretValueOutcome,
                                initiate: InitiateOutcome, targetUserId: string, providedSecret: string)
    requires !store.SecretsCallFailed? && !initiate.InitiateCallFailed?
    ensures var t := ImpersonateUser(config, secretName, store, initiate, targetUserId, providedSecret);
            t.result.Err? ==> t.result.error.ImpersonationException? || t.result.error.SecretNotFoundException?
  {
  }
}
