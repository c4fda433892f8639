/** What both versions of the backend share around the provider adapters: the
    credentials, the provider selector, the shape of an outbound call, the two
    LLM helpers and the oracle that stands for the providers themselves. */
module Adapters {
  import opened Base
  import opened Strings
  import opened Zhipu

  /** Credentials read from the environment once, at start-up. */
  datatype Env = Env(
    deeplApiKey: Option<string>,
    deepseekApiKey: Option<string>,
    zhipuApiKey: Option<string>,
    googleCredentials: Option<string>)

  /** The branch of the provider switch a request takes. */
  datatype Provider = ZhipuApi | DeepSeekApi | GoogleApi | DeepLApi

  /** The `switch (api)`: 'DeepL', 'Microsoft' and every unrecognised selector
      fall to the DeepL branch. */
  function Branch(api: string): Provider
  {
    if api == "Zhipu" then ZhipuApi
    else if api == "DeepSeek" then DeepSeekApi
    else if api == "Google" then GoogleApi
    else DeepLApi
  }

  /** Each selector names its branch, and only that one. */
  lemma BranchCases(api: string)
    ensures Branch(api) == ZhipuApi <==> api == "Zhipu"
    ensures Branch(api) == DeepSeekApi <==> api == "DeepSeek"
    ensures Branch(api) == GoogleApi <==> api == "Google"
    ensures Branch(api) == DeepLApi <==> api != "Zhipu" && api != "DeepSeek" && api != "Google"
  {
  }

  /** One outbound request, with the arguments the adapter hands to the provider. */
  datatype Call =
    | ZhipuChat(token: UnsignedToken, text: string, language: string)
    | DeepSeekChat(apiKey: string, text: string, language: string)
    | GoogleTranslate(text: string, target: string)
    | DeepLTranslate(authKey: string, text: string, source: string, target: string)
  {
    function Provider(): Provider
    {
      match this
      case ZhipuChat(_, _, _) => ZhipuApi
      case DeepSeekChat(_, _, _) => DeepSeekApi
      case GoogleTranslate(_, _) => GoogleApi
      case DeepLTranslate(_, _, _, _) => DeepLApi
    }

    /** The target language as the provider receives it (a name or a code). */
    function Target(): string
    {
      match this
      case ZhipuChat(_, _, language) => language
      case DeepSeekChat(_, _, language) => language
      case GoogleTranslate(_, target) => target
      case DeepLTranslate(_, _, _, target) => target
    }
  }

  const DeepSeekKeyMissing := "DEEPSEEK_API_KEY is not configured."
  const ZhipuKeyMissing := "ZHIPU_API_KEY is not configured."
  const GoogleCredentialsMissing := "Google Cloud credentials are not configured."
  const DeepLKeyMissing := "DEEPL_API_KEY is not configured."

  /** The error the JWT signer raises for an `undefined` or empty secret. */
  const SigningKeyMissing := "secretOrPrivateKey must have a value"

  /** Lifetime of a Zhipu token, in seconds. */
  const ZhipuExpSeconds := 3600

  /** The source language DeepL is always told. */
  const DeepLSource := "en"

  /** The error a provider raises when its credential is missing. */
  function MissingMessage(p: Provider): string
  {
    match p
    case ZhipuApi => ZhipuKeyMissing
    case DeepSeekApi => DeepSeekKeyMissing
    case GoogleApi => GoogleCredentialsMissing
    case DeepLApi => DeepLKeyMissing
  }

  /** `callDeepSeek(text, language)` up to the outbound request: the key is
      checked before anything is sent. */
  function CallDeepSeek(env: Env, text: string, language: string): Result<Call>
  {
    if !Truthy(env.deepseekApiKey) then Err(DeepSeekKeyMissing)
    else Ok(DeepSeekChat(env.deepseekApiKey.value, text, language))
  }

  /** `callZhipu(text, language)` up to the outbound request: the key is checked,
      then a fresh one-hour token is derived from it. Signing refuses a secret
      that is `undefined` or empty, so such a key fails before anything is sent. */
  function CallZhipu(env: Env, text: string, language: string, nowMs: int): Result<Call>
  {
    if !Truthy(env.zhipuApiKey) then Err(ZhipuKeyMissing)
    else
      var token := GenerateZhipuToken(env.zhipuApiKey.value, ZhipuExpSeconds, nowMs);
      if token.secret.None? || token.secret.value == "" then Err(SigningKeyMissing)
      else Ok(ZhipuChat(token, text, language))
  }

  /** A Zhipu key yields a secret to sign with: it holds a '.' and the segment
      after the first '.' is not empty. */
  predicate SignableZhipuKey(key: string)
  {
    var parts := Split(key, '.');
    |parts| > 1 && parts[1] != ""
  }

  /** The Zhipu helper can build a request: the key is present, non-empty and
      signable. */
  predicate ZhipuReady(key: Option<string>)
  {
    Truthy(key) && SignableZhipuKey(key.value)
  }

  /** The error a provider's credential check raises: the signing error for a
      Zhipu key that is present but unsignable, the missing-key error otherwise. */
  function CredentialError(env: Env, p: Provider): string
  {
    if p == ZhipuApi && Truthy(env.zhipuApiKey) then SigningKeyMissing else MissingMessage(p)
  }

  /** DeepSeek fails with its own error exactly when its key is missing or empty;
      Zhipu fails with its own error when its key is missing or empty, and with
      the signing error when the key has no non-empty secret. Nothing is built in
      either failure. Otherwise the request carries the key (DeepSeek) or a
      token signed with a non-empty secret, derived from the key at `nowMs` with
      a one-hour lifetime (Zhipu), and the text and the language unchanged. */
  lemma LlmHelpersSpec(env: Env, text: string, language: string, nowMs: int)
    ensures var r := CallDeepSeek(env, text, language);
      && (r.Err? <==> !Truthy(env.deepseekApiKey))
      && (r.Err? ==> r.msg == DeepSeekKeyMissing)
      && (r.Ok? ==> r.value == DeepSeekChat(env.deepseekApiKey.value, text, language))
    ensures var r := CallZhipu(env, text, language, nowMs);
      && (r.Err? <==> !ZhipuReady(env.zhipuApiKey))
      && (!Truthy(env.zhipuApiKey) ==> r == Err(ZhipuKeyMissing))
      && (Truthy(env.zhipuApiKey) && !SignableZhipuKey(env.zhipuApiKey.value) ==> r == Err(SigningKeyMissing))
      && (r.Ok? ==> r.value.ZhipuChat? && r.value.text == text && r.value.language == language)
      && (r.Ok? ==> r.value.token == GenerateZhipuToken(env.zhipuApiKey.value, ZhipuExpSeconds, nowMs))
      && (r.Ok? ==> r.value.token.secret.Some? && r.value.token.secret.value != "")
  {
  }

  /** A key without a '.', or with nothing after the first '.', is rejected by
      the signer; a key of the form `id.secret` is not. */
  lemma UnsignableZhipuKeys(text: string, language: string, nowMs: int)
    ensures CallZhipu(Env(None, None, Some("plainkey"), None), text, language, nowMs) == Err(SigningKeyMissing)
    ensures CallZhipu(Env(None, None, Some("id."), None), text, language, nowMs) == Err(SigningKeyMissing)
    ensures CallZhipu(Env(None, None, Some("id.s"), None), text, language, nowMs).Ok?
  {
    assert Split("plainkey", '.') == ["plainkey"];
    SplitAtThird("id.");
    SplitAtThird("id.s");
    assert "id."[3..] == "" && "id.s"[3..] == "s";
    assert Split("", '.') == [""] && Split("s", '.') == ["s"];
  }

  /** Splitting a key whose first '.' is its third character. */
  lemma SplitAtThird(key: string)
    requires |key| >= 3 && key[0] != '.' && key[1] != '.' && key[2] == '.'
    ensures Split(key, '.') == [key[..2]] + Split(key[3..], '.')
  {
    assert IndexOf(key, '.') == 2;
  }

  /** One request's view of the outside world: the credentials, the selector,
      the clock, and the providers as an oracle that answers work item
      (row i, language position j) given the call it made, and may fail. */
  datatype Backend = Backend(env: Env, api: string, nowMs: int, send: (nat, nat, Call) -> Result<string>)
}
