/** The adapter of the current backend (`translateText` inside
    `performTranslation`): target-code normalisation per provider and the
    credential check that precedes every outbound call. */
module Providers {
  import opened Base
  import opened Strings
  import opened Adapters

  /** Human-readable names for the codes the LLM providers are given. */
  const LanguageNames: map<string, string> := map[
    "EN" := "English", "FR" := "French", "DE" := "German", "JA" := "Japanese",
    "zh-TW" := "Traditional Chinese", "AR" := "Arabic", "IT" := "Italian", "TH" := "Thai",
    "ES" := "Spanish", "PT" := "Portuguese", "KO" := "Korean", "NL" := "Dutch",
    "SV" := "Swedish", "RU" := "Russian", "ID" := "Indonesian", "MS" := "Malay",
    "PL" := "Polish", "NO" := "Norwegian", "DA" := "Danish", "GA" := "Irish",
    "FI" := "Finnish", "CS" := "Czech", "VI" := "Vietnamese", "EL" := "Greek",
    "SK" := "Slovak", "HE" := "Hebrew", "TR" := "Turkish", "RO" := "Romanian",
    "HU" := "Hungarian", "BG" := "Bulgarian", "KK" := "Kazakh", "SR" := "Serbian",
    "SL" := "Slovenian", "LT" := "Lithuanian", "AZ" := "Azerbaijani", "KA" := "Georgian",
    "LV" := "Latvian", "ET" := "Estonian", "IS" := "Icelandic", "HR" := "Croatian"]

  /** `languageNameMapping[code] || code`: the table's name, falling back to the
      raw code when the code is not in the table. */
  function FullLanguageName(code: string): (name: string)
    ensures code in LanguageNames ==> name == LanguageNames[code]
    ensures code !in LanguageNames ==> name == code
  {
    if code in LanguageNames then LanguageNames[code] else code
  }

  /** Every code of the table is two upper-case letters, except zh-TW. */
  lemma TableCodes()
    ensures forall c :: c in LanguageNames ==> c == "zh-TW" || (|c| == 2 && 'A' <= c[0] <= 'Z')
  {
  }

  /** Codes are case-sensitive and regional Chinese other than zh-TW is not in
      the table, so these reach the LLM as raw codes. */
  lemma UnmappedCodesFallBack()
    ensures FullLanguageName("fr") == "fr"
    ensures FullLanguageName("zh") == "zh"
    ensures FullLanguageName("zh-CN") == "zh-CN"
  {
    NotInTable("fr");
    NotInTable("zh");
    NotInTable("zh-CN");
  }

  lemma NotInTable(code: string)
    requires code != "zh-TW" && |code| > 0 && !('A' <= code[0] <= 'Z')
    ensures code !in LanguageNames
  {
    TableCodes();
  }

  lemma MappedCodes()
    ensures FullLanguageName("FR") == "French"
    ensures FullLanguageName("zh-TW") == "Traditional Chinese"
  {
  }

  /** DeepL has one Chinese code: every code starting with "zh" becomes "zh",
      every other code is passed through. */
  function DeepLTarget(code: string): (target: string)
    ensures StartsWith(code, "zh") ==> target == "zh"
    ensures !StartsWith(code, "zh") ==> target == code
    ensures StartsWith(target, "zh") <==> StartsWith(code, "zh")
  {
    if StartsWith(code, "zh") then "zh" else code
  }

  /** Remapping twice changes nothing more; the test is case-sensitive. */
  lemma DeepLTargetIdempotent(code: string)
    ensures DeepLTarget(DeepLTarget(code)) == DeepLTarget(code)
    ensures DeepLTarget("zh-TW") == "zh" && DeepLTarget("zh-CN") == "zh"
    ensures DeepLTarget("ZH") == "ZH" && DeepLTarget("FR") == "FR"
  {
    assert StartsWith("zh-TW", "zh") && StartsWith("zh-CN", "zh");
    assert "ZH"[..2] != "zh" by { assert "ZH"[0] != "zh"[0]; }
    assert "FR"[..2] != "zh" by { assert "FR"[0] != "zh"[0]; }
  }

  /** Whether the selected branch finds its credential, for Zhipu a key the
      signer accepts. */
  predicate Configured(env: Env, p: Provider)
  {
    match p
    case ZhipuApi => ZhipuReady(env.zhipuApiKey)
    case DeepSeekApi => Truthy(env.deepseekApiKey)
    case GoogleApi => Truthy(env.googleCredentials)
    case DeepLApi => Truthy(env.deeplApiKey)
  }

  /** The target each branch hands its provider: the LLMs get the language name,
      Google the raw code, DeepL the remapped code. */
  function TargetFor(p: Provider, code: string): string
  {
    match p
    case ZhipuApi => FullLanguageName(code)
    case DeepSeekApi => FullLanguageName(code)
    case GoogleApi => code
    case DeepLApi => DeepLTarget(code)
  }

  /** `translateText(text, lang)` up to its outbound request: the failure of a
      missing credential, or the request the selected branch sends. */
  function TranslateRequest(env: Env, api: string, text: string, lang: string, nowMs: int): Result<Call>
  {
    var name := FullLanguageName(lang);
    match Branch(api)
    case ZhipuApi => CallZhipu(env, text, name, nowMs)
    case DeepSeekApi => CallDeepSeek(env, text, name)
    case GoogleApi =>
      if !Truthy(env.googleCredentials) then Err(GoogleCredentialsMissing)
      else Ok(GoogleTranslate(text, lang))
    case DeepLApi =>
      if !Truthy(env.deeplApiKey) then Err(DeepLKeyMissing)
      else Ok(DeepLTranslate(env.deeplApiKey.value, text, DeepLSource, DeepLTarget(lang)))
  }

  /** A missing credential of the selected branch (for Zhipu, also a key without
      a non-empty secret) fails with that provider's error and produces no
      request; otherwise the request goes to the selected provider, carries the text and the branch's form of the target, and DeepL
      is told the source is English. */
  lemma TranslateRequestSpec(env: Env, api: string, text: string, lang: string, nowMs: int)
    ensures var r := TranslateRequest(env, api, text, lang, nowMs);
      && (r.Err? <==> !Configured(env, Branch(api)))
      && (r.Err? ==> r.msg == CredentialError(env, Branch(api)))
      && (r.Ok? ==> r.value.Provider() == Branch(api) && r.value.text == text)
      && (r.Ok? ==> r.value.Target() == TargetFor(Branch(api), lang))
      && (r.Ok? && r.value.DeepLTranslate? ==> r.value.source == DeepLSource && r.value.authKey == env.deeplApiKey.value)
  {
  }

  /** `translateText(text, lang)` as work item (i, j): the credential failure,
      or the provider's answer to the request. */
  function TranslateText(b: Backend, i: nat, j: nat, text: string, lang: string): Result<string>
  {
    match TranslateRequest(b.env, b.api, text, lang, b.nowMs)
    case Err(e) => Err(e)
    case Ok(call) => b.send(i, j, call)
  }
}
