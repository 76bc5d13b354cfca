/**
 * Where a ciphertext is stored, and the text that binds it there.
 *
 * The cipher itself is a parameter: `Ideal` says what an authenticated cipher is assumed to do.
 */
module EncryptionContexts {
  import opened Support
  import opened CanonicalText

  const BOUND_CIPHERTEXT_PREFIX := "v1."
  const AAD_DOMAIN := "openoutposts.enc.v1"

  // ---- contexts ----

  datatype Context = Context(table: string, scopeKind: string, scopeId: string, keyName: string) {
    function Fields(): seq<string> {
      [table, scopeKind, scopeId, keyName]
    }
  }

  datatype ContextField = TableField | ScopeKindField | ScopeIdField | KeyNameField

  const CONTEXT_FIELDS := [TableField, ScopeKindField, ScopeIdField, KeyNameField]

  datatype CryptoError = EmptyField(field: ContextField) | NewlineInField(field: ContextField) | NotAuthentic

  /** The first field a context is refused for. */
  function FirstBadField(context: Context, from: nat): Option<CryptoError>
    requires from <= 4
    decreases 4 - from
  {
    if from == 4 then None
    else
      var value := context.Fields()[from];
      if value == "" then Some(EmptyField(CONTEXT_FIELDS[from]))
      else if '\n' in value then Some(NewlineInField(CONTEXT_FIELDS[from]))
      else FirstBadField(context, from + 1)
  }

  function EncodeContext(context: Context): Result<string, CryptoError> {
    match FirstBadField(context, 0)
    case Some(error) => Failure(error)
    case None => Success(JoinWith('\n', [AAD_DOMAIN] + context.Fields()))
  }

  predicate Encodable(context: Context) {
    forall field | field in context.Fields() :: field != "" && '\n' !in field
  }

  lemma {:induction false} BadFieldIff(context: Context, from: nat)
    requires from <= 4
    ensures FirstBadField(context, from).None? <==>
            forall k :: from <= k < 4 ==> context.Fields()[k] != "" && '\n' !in context.Fields()[k]
    decreases 4 - from
  {
    if from < 4 {
      BadFieldIff(context, from + 1);
    }
  }

  /** Accepted contexts, all of which encode under the scheme's own first line. */
  lemma EncodesIff(context: Context)
    ensures EncodeContext(context).Success? <==> Encodable(context)
    ensures EncodeContext(context).Success? ==> "openoutposts.enc.v1\n" <= EncodeContext(context).value
  {
    BadFieldIff(context, 0);
    if FirstBadField(context, 0).Some? {
      var k :| 0 <= k < 4 && !(context.Fields()[k] != "" && '\n' !in context.Fields()[k]);
      assert context.Fields()[k] in context.Fields();
    }
  }

  /** The encoding, line by line. */
  lemma EncodedText(context: Context)
    ensures EncodeContext(context).Success? ==>
              EncodeContext(context).value
              == "openoutposts.enc.v1\n" + (context.table + "\n" + (context.scopeKind + "\n" + (context.scopeId + "\n" + context.keyName)))
  {
    JoinsNext('\n', context.scopeId, [context.keyName]);
    JoinsNext('\n', context.scopeKind, [context.scopeId, context.keyName]);
    JoinsNext('\n', context.table, [context.scopeKind, context.scopeId, context.keyName]);
    JoinsNext('\n', AAD_DOMAIN, [context.table, context.scopeKind, context.scopeId, context.keyName]);
    assert AAD_DOMAIN + "\n" == "openoutposts.enc.v1\n";
  }

  lemma EncodingIsInjective(a: Context, b: Context)
    requires EncodeContext(a).Success? && EncodeContext(a) == EncodeContext(b)
    ensures a == b
  {
    EncodesIff(a);
    EncodesIff(b);
    var s, t := [AAD_DOMAIN] + a.Fields(), [AAD_DOMAIN] + b.Fields();
    forall k | 0 <= k < 5 ensures '\n' !in s[k] && '\n' !in t[k] {
      if k > 0 {
        assert s[k] in a.Fields() && t[k] in b.Fields();
      }
    }
    JoinsApart('\n', s, t);
    assert s[1..] == a.Fields() && t[1..] == b.Fields();
    assert a.Fields()[0] == b.Fields()[0] && a.Fields()[1] == b.Fields()[1]
        && a.Fields()[2] == b.Fields()[2] && a.Fields()[3] == b.Fields()[3];
  }

  // ---- the storage locations ----

  datatype OAuthPart = AccessToken | RefreshToken {
    function Name(): string { if AccessToken? then "access_token" else "refresh_token" }
  }

  datatype CredentialPart = Secret | RefreshSecret {
    function Name(): string { if Secret? then "secret" else "refresh_secret" }
  }

  datatype SandboxKey = CodeServerPassword | TtydToken {
    function Name(): string { if CodeServerPassword? then "code_server_password" else "ttyd_token" }
  }

  /** One of the three scoped secret stores, and the scope within it. */
  datatype SecretScope = GlobalScope | RepoScope(repoId: nat) | EnvironmentScope(environmentId: string)

  datatype Location =
    | ScmOAuth(providerUserId: string, oauthPart: OAuthPart)
    | ProviderCredential(userId: string, provider: string, credentialPart: CredentialPart)
    | ProviderOAuthFlow(flowUserId: string, flowId: string)
    | ScopedSecret(scope: SecretScope, key: string)
    | CommitSigning
    | McpServerEnv(serverId: string)
    | AutomationSentrySecret(automationId: string)
    | SandboxSecret(sessionId: string, sandboxKey: SandboxKey)

  function ScopedSecretContext(scope: SecretScope, key: string): Context {
    match scope
    case GlobalScope => Context("global_secrets", "global", "deployment", key)
    case RepoScope(repoId) => Context("repo_secrets", "repo", Decimal(repoId), key)
    case EnvironmentScope(environmentId) => Context("environment_secrets", "environment", environmentId, key)
  }

  function ContextOf(location: Location): Context {
    match location
    case ScmOAuth(providerUserId, part) => Context("scm_oauth", "scm_user", providerUserId, part.Name())
    case ProviderCredential(userId, provider, part) =>
      Context("user_provider_credentials", "user", userId, provider + ":" + part.Name())
    case ProviderOAuthFlow(userId, flowId) => Context("provider_oauth_flows", "user", userId, flowId)
    case ScopedSecret(scope, key) => ScopedSecretContext(scope, key)
    case CommitSigning => Context("commit_signing_configuration", "deployment", "singleton", "private_key")
    case McpServerEnv(serverId) => Context("mcp_servers", "mcp_server", serverId, "env")
    case AutomationSentrySecret(automationId) =>
      Context("automations", "automation", automationId, "sentry_client_secret")
    case SandboxSecret(sessionId, key) => Context("sandbox", "session", sessionId, key.Name())
  }

  /** The provider is recoverable from its key name, even when it holds colons itself. */
  lemma ProviderIsRecoverable(a: string, p: CredentialPart, b: string, q: CredentialPart)
    requires a + ":" + p.Name() == b + ":" + q.Name()
    ensures a == b && p == q
  {
    LastSplit(':', a, p.Name(), b, q.Name());
    assert |p.Name()| == |q.Name()|;
  }

  /** Tables name their kind of location: their lengths, or one letter, tell them apart. */
  predicate SameKind(a: Location, b: Location) {
    match a
    case ScmOAuth(_, _) => b.ScmOAuth?
    case ProviderCredential(_, _, _) => b.ProviderCredential?
    case ProviderOAuthFlow(_, _) => b.ProviderOAuthFlow?
    case ScopedSecret(_, _) => b.ScopedSecret?
    case CommitSigning => b.CommitSigning?
    case McpServerEnv(_) => b.McpServerEnv?
    case AutomationSentrySecret(_) => b.AutomationSentrySecret?
    case SandboxSecret(_, _) => b.SandboxSecret?
  }

  /** A number per store, read off the table's first letter and length. */
  function StoreNumber(table: string): (int, int) {
    if table == "" then (0, 0) else (table[0] as int, |table|)
  }

  lemma TablesNameTheirKind(a: Location, b: Location)
    requires ContextOf(a).table == ContextOf(b).table
    ensures SameKind(a, b)
    ensures a.ScopedSecret? ==> b.ScopedSecret? && a.scope.GlobalScope? == b.scope.GlobalScope? && a.scope.RepoScope? == b.scope.RepoScope?
  {
    assert StoreNumber(ContextOf(a).table) == StoreNumber(ContextOf(b).table);
  }

  /** No two storage locations share a context. */
  lemma LocationsHaveTheirOwnContext(a: Location, b: Location)
    requires ContextOf(a) == ContextOf(b)
    ensures a == b
  {
    TablesNameTheirKind(a, b);
    match a
    case ScmOAuth(_, p) =>
      assert p.Name()[0] == b.oauthPart.Name()[0];
    case ProviderCredential(_, provider, part) =>
      ProviderIsRecoverable(provider, part, b.provider, b.credentialPart);
    case ScopedSecret(scope, _) =>
      if scope.RepoScope? {
        DecimalIsInjective(scope.repoId, b.scope.repoId);
      }
    case SandboxSecret(_, key) =>
      assert key.Name()[0] == b.sandboxKey.Name()[0];
    case _ =>
  }

  lemma LocationsEncodeApart(a: Location, b: Location)
    requires EncodeContext(ContextOf(a)).Success?
    ensures EncodeContext(ContextOf(a)) == EncodeContext(ContextOf(b)) <==> a == b
  {
    if EncodeContext(ContextOf(a)) == EncodeContext(ContextOf(b)) {
      EncodingIsInjective(ContextOf(a), ContextOf(b));
      LocationsHaveTheirOwnContext(a, b);
    }
  }

  // ---- sealed values ----

  type Key = string

  /** `seal` and `open` with optional associated data; a sealed value is base64 text holding its own IV. */
  datatype Cipher = Cipher(
    seal: (Key, string, Option<string>, string) -> string,
    open: (Key, Option<string>, string) -> Option<string>)

  /** Opening inverts sealing under the same key and associated data and refuses any other; base64 has no dot. */
  ghost predicate Ideal(cipher: Cipher) {
    (forall key, iv, aad, token, key', aad' ::
       cipher.open(key', aad', cipher.seal(key, iv, aad, token))
       == if key' == key && aad' == aad then Some(token) else None)
    && forall key, iv, aad, token :: '.' !in cipher.seal(key, iv, aad, token)
  }

  predicate IsBoundCiphertext(encrypted: string) {
    BOUND_CIPHERTEXT_PREFIX <= encrypted
  }

  function EncryptToken(cipher: Cipher, token: string, key: Key, iv: string, context: Context): Result<string, CryptoError> {
    match EncodeContext(context)
    case Failure(error) => Failure(error)
    case Success(aad) => Success(BOUND_CIPHERTEXT_PREFIX + cipher.seal(key, iv, Some(aad), token))
  }

  function DecryptToken(cipher: Cipher, encrypted: string, key: Key, context: Context): Result<string, CryptoError> {
    match EncodeContext(context)
    case Failure(error) => Failure(error)
    case Success(aad) =>
      var answer :=
        if IsBoundCiphertext(encrypted) then cipher.open(key, Some(aad), encrypted[|BOUND_CIPHERTEXT_PREFIX|..])
        else cipher.open(key, None, encrypted);
      if answer.Some? then Success(answer.value) else Failure(NotAuthentic)
  }

  lemma OpensUnderItsEncoding(cipher: Cipher, token: string, key: Key, iv: string, sealedFor: Context, readFor: Context)
    requires Ideal(cipher) && EncodeContext(sealedFor).Success?
    ensures var answer := DecryptToken(cipher, "v1." + cipher.seal(key, iv, Some(EncodeContext(sealedFor).value), token), key, readFor);
            && (EncodeContext(readFor) == EncodeContext(sealedFor) ==> answer == Success(token))
            && (EncodeContext(readFor) != EncodeContext(sealedFor) ==> answer.Failure?)
  {
    var payload := cipher.seal(key, iv, Some(EncodeContext(sealedFor).value), token);
    assert ("v1." + payload)[|BOUND_CIPHERTEXT_PREFIX|..] == payload;
  }

  /** A value sealed for one location opens there and nowhere else. */
  lemma OpensOnlyWhereItWasSealed(cipher: Cipher, token: string, key: Key, iv: string, sealedAt: Location, readAt: Location)
    requires Ideal(cipher)
    ensures EncryptToken(cipher, token, key, iv, ContextOf(sealedAt)).Success? <==> Encodable(ContextOf(sealedAt))
    ensures var sealed := EncryptToken(cipher, token, key, iv, ContextOf(sealedAt));
            sealed.Success? ==>
              var answer := DecryptToken(cipher, sealed.value, key, ContextOf(readAt));
              (answer == Success(token) <==> readAt == sealedAt) && (answer.Success? <==> readAt == sealedAt)
  {
    EncodesIff(ContextOf(sealedAt));
    if Encodable(ContextOf(sealedAt)) {
      LocationsEncodeApart(sealedAt, readAt);
      OpensUnderItsEncoding(cipher, token, key, iv, ContextOf(sealedAt), ContextOf(readAt));
    }
  }

  lemma BoundHasADot(encrypted: string)
    ensures IsBoundCiphertext(encrypted) ==> '.' in encrypted
  {
    if IsBoundCiphertext(encrypted) {
      assert encrypted[2] == BOUND_CIPHERTEXT_PREFIX[2];
    }
  }

  /** A value from before the scheme is told apart by its prefix and opens at every well-formed location. */
  lemma LegacyOpensAnywhere(cipher: Cipher, token: string, key: Key, iv: string, readAt: Context)
    requires Ideal(cipher)
    ensures var legacy := cipher.seal(key, iv, None, token);
            !IsBoundCiphertext(legacy)
            && (DecryptToken(cipher, legacy, key, readAt) == Success(token) <==> Encodable(readAt))
  {
    EncodesIff(readAt);
    var legacy := cipher.seal(key, iv, None, token);
    BoundHasADot(legacy);
  }
}
