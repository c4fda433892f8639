/** The older backend (`backend/src.ts`): no language-name table, a Chinese
    remap for Google instead of DeepL, no credential check for Google or DeepL,
    and rows assembled by a per-row task that fills a fresh copy. */
module Legacy {
  import opened Base
  import opened Strings
  import opened Assembly
  import opened Adapters

  /** "zh" in any letter case: "zh", "zH", "Zh" or "ZH". */
  predicate ZhIgnoringCase(code: string)
  {
    |code| == 2 && (code[0] == 'z' || code[0] == 'Z') && (code[1] == 'h' || code[1] == 'H')
  }

  lemma LowerIsZh(code: string)
    ensures Lower(code) == "zh" <==> ZhIgnoringCase(code)
  {
    if ZhIgnoringCase(code) {
      assert Lower(code) == [LowerChar(code[0]), LowerChar(code[1])];
    }
  }

  /** `targetLang.toLowerCase() === 'zh' ? 'zh-CN' : targetLang`: only a bare
      "zh", in any case, is remapped; regional codes such as zh-TW are not. */
  function GoogleTarget(code: string): (target: string)
    ensures ZhIgnoringCase(code) ==> target == "zh-CN"
    ensures !ZhIgnoringCase(code) ==> target == code
  {
    LowerIsZh(code);
    if Lower(code) == "zh" then "zh-CN" else code
  }

  lemma GoogleTargetExamples()
    ensures GoogleTarget("ZH") == "zh-CN" && GoogleTarget("zh") == "zh-CN"
    ensures GoogleTarget("zh-TW") == "zh-TW" && GoogleTarget("zh-CN") == "zh-CN"
    ensures GoogleTarget("FR") == "FR"
  {
    assert ZhIgnoringCase("ZH") && ZhIgnoringCase("zh");
  }

  /** The target each branch hands its provider: Google the remapped code,
      every other branch the raw code. */
  function LegacyTargetFor(p: Provider, code: string): string
  {
    if p == GoogleApi then GoogleTarget(code) else code
  }

  /** Only the two LLM helpers check their key; Zhipu's must also be signable. */
  predicate LegacyConfigured(env: Env, p: Provider)
  {
    match p
    case ZhipuApi => ZhipuReady(env.zhipuApiKey)
    case DeepSeekApi => Truthy(env.deepseekApiKey)
    case GoogleApi => true
    case DeepLApi => true
  }

  /** `translateText(text, lang)` of the older backend up to its outbound
      request: the failure of a missing LLM key, or the request sent. */
  function LegacyRequest(env: Env, api: string, text: string, lang: string, nowMs: int): Result<Call>
  {
    match Branch(api)
    case ZhipuApi => CallZhipu(env, text, lang, nowMs)
    case DeepSeekApi => CallDeepSeek(env, text, lang)
    case GoogleApi => Ok(GoogleTranslate(text, GoogleTarget(lang)))
    case DeepLApi => Ok(DeepLTranslate(OrEmpty(env.deeplApiKey), text, DeepLSource, lang))
  }

  /** Only a missing Zhipu or DeepSeek key, or an unsignable Zhipu key, fails
      before sending, with that helper's error; the LLMs get the raw code,
      Google the remapped one, DeepL the raw code with source English and the
      key, or "" when unset. */
  lemma LegacyRequestSpec(env: Env, api: string, text: string, lang: string, nowMs: int)
    ensures var r := LegacyRequest(env, api, text, lang, nowMs);
      && (r.Err? <==> !LegacyConfigured(env, Branch(api)))
      && (r.Err? ==> r.msg == CredentialError(env, Branch(api)))
      && (r.Ok? ==> r.value.Provider() == Branch(api) && r.value.text == text)
      && (r.Ok? ==> r.value.Target() == LegacyTargetFor(Branch(api), lang))
      && (r.Ok? && r.value.DeepLTranslate? ==> r.value.source == DeepLSource && r.value.authKey == OrEmpty(env.deeplApiKey))
  {
  }

  /** Work item (i, j) of the older backend: the credential failure, or the
      provider's answer to the request. */
  function LegacyTranslateText(b: Backend, i: nat, j: nat, text: string, lang: string): Result<string>
  {
    match LegacyRequest(b.env, b.api, text, lang, b.nowMs)
    case Err(e) => Err(e)
    case Ok(call) => b.send(i, j, call)
  }

  function LegacyRowPlans(b: Backend, text: string, langs: seq<string>): (plans: seq<Result<Call>>)
    ensures |plans| == |langs|
  {
    seq(|langs|, j requires 0 <= j < |langs| => LegacyRequest(b.env, b.api, text, langs[j], b.nowMs))
  }

  function LegacyRowAnswers(b: Backend, i: nat, text: string, langs: seq<string>): (answers: seq<Result<string>>)
    ensures |answers| == |langs|
  {
    seq(|langs|, j requires 0 <= j < |langs| => LegacyTranslateText(b, i, j, text, langs[j]))
  }

  function LegacyPlans(b: Backend, rows: seq<Row>, langs: seq<string>): (g: seq<seq<Result<Call>>>)
    requires HasSource(rows)
    ensures Shaped(g, |rows|, |langs|)
  {
    seq(|rows|, i requires 0 <= i < |rows| => LegacyRowPlans(b, rows[i]["en"], langs))
  }

  function LegacyAnswers(b: Backend, rows: seq<Row>, langs: seq<string>): (g: seq<seq<Result<string>>>)
    requires HasSource(rows)
    ensures Shaped(g, |rows|, |langs|)
  {
    seq(|rows|, i requires 0 <= i < |rows| => LegacyRowAnswers(b, i, rows[i]["en"], langs))
  }

  /** `performTranslation` of the older backend: `Promise.all` over one task per
      row, each filling its own copy of the row; resolves to the rows in input
      order, or rejects with the first failure. */
  method LegacyPerformTranslation(b: Backend, sourceData: seq<Row>, targetLangs: seq<string>)
    returns (out: Result<seq<Row>>, calls: seq<Call>)
    requires HasSource(sourceData)
    ensures out == Outcome(sourceData, targetLangs, LegacyAnswers(b, sourceData, targetLangs))
    ensures calls == Sent(Flatten(LegacyPlans(b, sourceData, targetLangs)))
  {
    ghost var plans := LegacyPlans(b, sourceData, targetLangs);
    ghost var answers := LegacyAnswers(b, sourceData, targetLangs);
    var rows: seq<Row> := [];
    var firstError: Option<string> := None;
    calls := [];
    for i := 0 to |sourceData|
      invariant |rows| == i
      invariant forall r :: 0 <= r < i ==> rows[r] == Applied(sourceData[r], targetLangs, answers[r])
      invariant firstError == FirstError(Flatten(answers[..i]))
      invariant calls == Sent(Flatten(plans[..i]))
    {
      var newRow, rowError, sent := TranslateRow(b, i, sourceData[i], targetLangs);
      LegacyGridStep(b, sourceData, targetLangs, i);
      rows := rows + [newRow];
      if firstError.None? {
        firstError := rowError;
      }
      calls := calls + sent;
    }
    OutcomeOf(sourceData, targetLangs, answers, plans, firstError, rows, calls);
    if firstError.Some? {
      out := Err(firstError.value);
    } else {
      out := Ok(rows);
    }
  }

  /** Completing row i of the older backend's grid, in dispatch order. */
  lemma LegacyGridStep(b: Backend, rows: seq<Row>, langs: seq<string>, i: nat)
    requires HasSource(rows) && i < |rows|
    ensures var answers := LegacyAnswers(b, rows, langs);
      var before := FirstError(Flatten(answers[..i]));
      FirstError(Flatten(answers[..i + 1]))
        == if before.Some? then before else FirstError(LegacyRowAnswers(b, i, rows[i]["en"], langs))
    ensures var plans := LegacyPlans(b, rows, langs);
      Sent(Flatten(plans[..i + 1])) == Sent(Flatten(plans[..i])) + Sent(LegacyRowPlans(b, rows[i]["en"], langs))
  {
    GridStep(LegacyAnswers(b, rows, langs), i);
    GridStep(LegacyPlans(b, rows, langs), i);
  }

  /** The per-row task: `newRow = { ...row }`, then `newRow[lang] = ...` for each
      target language in order. Returns the row's first failure and the requests
      it sent. */
  method TranslateRow(b: Backend, i: nat, row: Row, langs: seq<string>)
    returns (newRow: Row, rowError: Option<string>, sent: seq<Call>)
    requires "en" in row
    ensures newRow == Applied(row, langs, LegacyRowAnswers(b, i, row["en"], langs))
    ensures rowError == FirstError(LegacyRowAnswers(b, i, row["en"], langs))
    ensures sent == Sent(LegacyRowPlans(b, row["en"], langs))
  {
    ghost var answers := LegacyRowAnswers(b, i, row["en"], langs);
    ghost var plans := LegacyRowPlans(b, row["en"], langs);
    newRow, rowError, sent := row, None, [];
    for j := 0 to |langs|
      invariant newRow == Applied(row, langs[..j], answers[..j])
      invariant rowError == FirstError(answers[..j])
      invariant sent == Sent(plans[..j])
    {
      var lang := langs[j];
      var plan := LegacyRequest(b.env, b.api, row["en"], lang, b.nowMs);
      var answer := LegacyTranslateText(b, i, j, row["en"], lang);
      RowStep(row, langs, answers, plans, j);
      if answer.Ok? {
        newRow := newRow[lang := answer.value];
      } else if rowError.None? {
        rowError := Some(answer.msg);
      }
      if plan.Ok? {
        sent := sent + [plan.value];
      }
    }
    assert langs[..|langs|] == langs;
    assert answers[..|langs|] == answers;
    assert plans[..|langs|] == plans;
  }

  /** Google and DeepL check no credential here: whatever the environment, the
      older backend sends all |rows| × |langs| requests for them. */
  lemma UncheckedProvidersAlwaysSend(b: Backend, rows: seq<Row>, langs: seq<string>)
    requires HasSource(rows)
    requires Branch(b.api) == GoogleApi || Branch(b.api) == DeepLApi
    ensures |Sent(Flatten(LegacyPlans(b, rows, langs)))| == |rows| * |langs|
  {
    var plans := LegacyPlans(b, rows, langs);
    var flat := Flatten(plans);
    forall k | 0 <= k < |flat| ensures flat[k].Ok? {
      FlattenCell(plans, k);
    }
    SentAll(flat);
    FlattenLength(plans, |langs|);
  }

  /** A missing Zhipu or DeepSeek key: nothing is sent, and a non-empty grid
      rejects with that provider's error. */
  lemma LegacyMissingKeySendsNothing(b: Backend, rows: seq<Row>, langs: seq<string>)
    requires HasSource(rows) && !LegacyConfigured(b.env, Branch(b.api))
    ensures Sent(Flatten(LegacyPlans(b, rows, langs))) == []
    ensures |rows| > 0 && |langs| > 0 ==>
      Outcome(rows, langs, LegacyAnswers(b, rows, langs)) == Err(CredentialError(b.env, Branch(b.api)))
  {
    var plans := LegacyPlans(b, rows, langs);
    var flat := Flatten(plans);
    forall k | 0 <= k < |flat| ensures flat[k].Err? {
      FlattenCell(plans, k);
    }
    SentNone(flat);
    if |rows| > 0 && |langs| > 0 {
      var answers := LegacyAnswers(b, rows, langs);
      forall i, j | 0 <= i < |rows| && 0 <= j < |langs|
        ensures answers[i][j] == Err(CredentialError(b.env, Branch(b.api)))
      {
        LegacyRequestSpec(b.env, b.api, rows[i]["en"], langs[j], b.nowMs);
      }
      OutcomeUniformFailure(rows, langs, answers, CredentialError(b.env, Branch(b.api)));
    }
  }

  /** Any single failed translation rejects the whole result. */
  lemma LegacyAllOrNothing(b: Backend, rows: seq<Row>, langs: seq<string>)
    requires HasSource(rows)
    ensures Outcome(rows, langs, LegacyAnswers(b, rows, langs)).Ok? <==>
      forall i, j :: 0 <= i < |rows| && 0 <= j < |langs| ==> LegacyTranslateText(b, i, j, rows[i]["en"], langs[j]).Ok?
  {
    var answers := LegacyAnswers(b, rows, langs);
    OutcomeAllOrNothing(rows, langs, answers);
    assert forall i, j :: 0 <= i < |rows| && 0 <= j < |langs| ==>
      answers[i][j] == LegacyTranslateText(b, i, j, rows[i]["en"], langs[j]);
  }

  /** On success, one row per input row in input order: a copy of the row plus,
      for each code, the translation of the row's `en` text made by the code's
      last occurrence; other fields keep their values. */
  lemma LegacyTranslatedRow(b: Backend, rows: seq<Row>, langs: seq<string>, i: nat, f: string)
    requires HasSource(rows) && i < |rows|
    requires Outcome(rows, langs, LegacyAnswers(b, rows, langs)).Ok?
    ensures |Outcome(rows, langs, LegacyAnswers(b, rows, langs)).value| == |rows|
    ensures var out := Outcome(rows, langs, LegacyAnswers(b, rows, langs)).value[i];
      && (f in langs ==> f in out && LegacyTranslateText(b, i, LastIndexOf(langs, f), rows[i]["en"], f) == Ok(out[f]))
      && (f !in langs ==> (f in out <==> f in rows[i]) && (f in rows[i] ==> out[f] == rows[i][f]))
  {
    OutcomeRow(rows, langs, LegacyAnswers(b, rows, langs), i, f);
  }
}
