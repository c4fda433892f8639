/** The dispatcher of the current backend, `performTranslation`: one work item
    per (row, target language), run in row-major order against the provider
    oracle, with the answers written into copies of the rows. */
module Dispatch {
  import opened Base
  import opened Assembly
  import opened Adapters
  import opened Providers

  /** The requests the work items of one row prepare, in language order. */
  function RowPlans(b: Backend, text: string, langs: seq<string>): (plans: seq<Result<Call>>)
    ensures |plans| == |langs|
  {
    seq(|langs|, j requires 0 <= j < |langs| => TranslateRequest(b.env, b.api, text, langs[j], b.nowMs))
  }

  /** What the work items of row i resolve to, in language order. */
  function RowAnswers(b: Backend, i: nat, text: string, langs: seq<string>): (answers: seq<Result<string>>)
    ensures |answers| == |langs|
  {
    seq(|langs|, j requires 0 <= j < |langs| => TranslateText(b, i, j, text, langs[j]))
  }

  /** The request each work item (i, j) prepares, or its credential failure. */
  function Plans(b: Backend, rows: seq<Row>, langs: seq<string>): (g: seq<seq<Result<Call>>>)
    requires HasSource(rows)
    ensures Shaped(g, |rows|, |langs|)
  {
    seq(|rows|, i requires 0 <= i < |rows| => RowPlans(b, rows[i]["en"], langs))
  }

  /** What each work item (i, j) resolves to. */
  function Answers(b: Backend, rows: seq<Row>, langs: seq<string>): (g: seq<seq<Result<string>>>)
    requires HasSource(rows)
    ensures Shaped(g, |rows|, |langs|)
  {
    seq(|rows|, i requires 0 <= i < |rows| => RowAnswers(b, i, rows[i]["en"], langs))
  }

  /** `performTranslation(sourceData, targetLangs, api)`. The rows are copied into
      `results`; every work item is dispatched, row by row and, within a row, in
      the caller's language order; each answer is written to its row's field for
      the language; the call resolves to the rows, or rejects with the first
      failure. `calls` is the sequence of outbound requests made. */
  method PerformTranslation(b: Backend, sourceData: seq<Row>, targetLangs: seq<string>)
    returns (out: Result<seq<Row>>, calls: seq<Call>)
    requires HasSource(sourceData)
    ensures out == Outcome(sourceData, targetLangs, Answers(b, sourceData, targetLangs))
    ensures calls == Sent(Flatten(Plans(b, sourceData, targetLangs)))
  {
    ghost var plans := Plans(b, sourceData, targetLangs);
    ghost var answers := Answers(b, sourceData, targetLangs);
    var results := new Row[|sourceData|](i requires 0 <= i < |sourceData| => sourceData[i]);
    var firstError: Option<string> := None;
    calls := [];
    for i := 0 to |sourceData|
      invariant forall r :: 0 <= r < i ==> results[r] == Applied(sourceData[r], targetLangs, answers[r])
      invariant forall r :: i <= r < |sourceData| ==> results[r] == sourceData[r]
      invariant firstError == FirstError(Flatten(answers[..i]))
      invariant calls == Sent(Flatten(plans[..i]))
    {
      var rowError, sent := DispatchRow(b, results, i, sourceData[i]["en"], targetLangs);
      DispatchGridStep(b, sourceData, targetLangs, i);
      if firstError.None? {
        firstError := rowError;
      }
      calls := calls + sent;
    }
    OutcomeOf(sourceData, targetLangs, answers, plans, firstError, results[..], calls);
    if firstError.Some? {
      out := Err(firstError.value);
    } else {
      out := Ok(results[..]);
    }
  }

  /** Completing row i of the grid, in dispatch order. */
  lemma DispatchGridStep(b: Backend, rows: seq<Row>, langs: seq<string>, i: nat)
    requires HasSource(rows) && i < |rows|
    ensures var answers := Answers(b, rows, langs);
      var before := FirstError(Flatten(answers[..i]));
      FirstError(Flatten(answers[..i + 1]))
        == if before.Some? then before else FirstError(RowAnswers(b, i, rows[i]["en"], langs))
    ensures var plans := Plans(b, rows, langs);
      Sent(Flatten(plans[..i + 1])) == Sent(Flatten(plans[..i])) + Sent(RowPlans(b, rows[i]["en"], langs))
  {
    GridStep(Answers(b, rows, langs), i);
    GridStep(Plans(b, rows, langs), i);
  }

  /** The inner loop of `performTranslation` for row i: one work item per target
      language, in order, each writing its answer to `results[i][lang]`. Returns
      the row's first failure and the requests it sent. */
  method DispatchRow(b: Backend, results: array<Row>, i: nat, text: string, langs: seq<string>)
    returns (rowError: Option<string>, sent: seq<Call>)
    requires i < results.Length
    modifies results
    ensures results[i] == Applied(old(results[i]), langs, RowAnswers(b, i, text, langs))
    ensures forall r :: 0 <= r < results.Length && r != i ==> results[r] == old(results[r])
    ensures rowError == FirstError(RowAnswers(b, i, text, langs))
    ensures sent == Sent(RowPlans(b, text, langs))
  {
    ghost var answers := RowAnswers(b, i, text, langs);
    ghost var plans := RowPlans(b, text, langs);
    ghost var copy := results[i];
    rowError, sent := None, [];
    for j := 0 to |langs|
      invariant results[i] == Applied(copy, langs[..j], answers[..j])
      invariant forall r :: 0 <= r < results.Length && r != i ==> results[r] == old(results[r])
      invariant rowError == FirstError(answers[..j])
      invariant sent == Sent(plans[..j])
    {
      var lang := langs[j];
      var plan := TranslateRequest(b.env, b.api, text, lang, b.nowMs);
      var answer := TranslateText(b, i, j, text, lang);
      RowStep(copy, langs, answers, plans, j);
      if answer.Ok? {
        results[i] := results[i][lang := answer.value];
      } else if rowError.None? {
        rowError := Some(answer.msg);
      }
      if plan.Ok? {
        sent := sent + [plan.value];
      }
    }
    assert langs[..|langs|] == langs;
    assert answers[..|langs|] == answers;
    assert plans[..|langs|] == plans;
  }

  /** Every work item prepares a request exactly when the selected provider's
      credential is present. */
  lemma EveryPlan(b: Backend, rows: seq<Row>, langs: seq<string>)
    requires HasSource(rows)
    ensures forall k :: 0 <= k < |Flatten(Plans(b, rows, langs))| ==>
      (Flatten(Plans(b, rows, langs))[k].Ok? <==> Configured(b.env, Branch(b.api)))
  {
    var plans := Plans(b, rows, langs);
    var flat := Flatten(plans);
    forall k | 0 <= k < |flat| ensures flat[k].Ok? <==> Configured(b.env, Branch(b.api)) {
      FlattenCell(plans, k);
      var i, j :| 0 <= i < |plans| && 0 <= j < |plans[i]| && flat[k] == plans[i][j];
      TranslateRequestSpec(b.env, b.api, rows[i]["en"], langs[j], b.nowMs);
    }
  }

  /** With its credential present, the selected provider receives exactly
      |rows| × |langs| requests. */
  lemma WorkSetSize(b: Backend, rows: seq<Row>, langs: seq<string>)
    requires HasSource(rows) && Configured(b.env, Branch(b.api))
    ensures |Sent(Flatten(Plans(b, rows, langs)))| == |rows| * |langs|
  {
    var plans := Plans(b, rows, langs);
    var flat := Flatten(plans);
    EveryPlan(b, rows, langs);
    SentAll(flat);
    FlattenLength(plans, |langs|);
  }

  /** The requests go out in row-major order: request i * |langs| + j is work
      item (i, j), row i's source text into the j-th language of the caller's
      list, duplicates included. */
  lemma WorkSetOrder(b: Backend, rows: seq<Row>, langs: seq<string>, i: nat, j: nat)
    requires HasSource(rows) && Configured(b.env, Branch(b.api))
    requires i < |rows| && j < |langs|
    ensures i * |langs| + j < |Sent(Flatten(Plans(b, rows, langs)))|
    ensures TranslateRequest(b.env, b.api, rows[i]["en"], langs[j], b.nowMs)
      == Ok(Sent(Flatten(Plans(b, rows, langs)))[i * |langs| + j])
  {
    var plans := Plans(b, rows, langs);
    var flat := Flatten(plans);
    var k := i * |langs| + j;
    FlattenAt(plans, |langs|, i, j);
    assert flat[k] == plans[i][j] == TranslateRequest(b.env, b.api, rows[i]["en"], langs[j], b.nowMs);
    EveryPlan(b, rows, langs);
    SentAll(flat);
    assert Sent(flat)[k] == flat[k].value;
  }

  /** A missing credential of the selected provider: no request is sent at all,
      and a non-empty grid rejects with that provider's error. */
  lemma MissingCredentialSendsNothing(b: Backend, rows: seq<Row>, langs: seq<string>)
    requires HasSource(rows) && !Configured(b.env, Branch(b.api))
    ensures Sent(Flatten(Plans(b, rows, langs))) == []
    ensures |rows| > 0 && |langs| > 0 ==>
      Outcome(rows, langs, Answers(b, rows, langs)) == Err(CredentialError(b.env, Branch(b.api)))
  {
    var flat := Flatten(Plans(b, rows, langs));
    EveryPlan(b, rows, langs);
    SentNone(flat);
    if |rows| > 0 && |langs| > 0 {
      var answers := Answers(b, rows, langs);
      forall i, j | 0 <= i < |rows| && 0 <= j < |langs|
        ensures answers[i][j] == Err(CredentialError(b.env, Branch(b.api)))
      {
        TranslateRequestSpec(b.env, b.api, rows[i]["en"], langs[j], b.nowMs);
      }
      OutcomeUniformFailure(rows, langs, answers, CredentialError(b.env, Branch(b.api)));
    }
  }

  /** A JSON "[]" language list: every row comes back as an unchanged copy and
      no request is sent. */
  lemma NoLanguagesNoCalls(b: Backend, rows: seq<Row>)
    requires HasSource(rows)
    ensures Outcome(rows, [], Answers(b, rows, [])) == Ok(rows)
    ensures Sent(Flatten(Plans(b, rows, []))) == []
  {
    var answers := Answers(b, rows, []);
    var plans := Plans(b, rows, []);
    FlattenLength(answers, 0);
    FlattenLength(plans, 0);
    assert Outcome(rows, [], answers).value == rows;
  }

  /** All or nothing: `performTranslation` resolves exactly when every work
      item's translation succeeded. */
  lemma AllOrNothing(b: Backend, rows: seq<Row>, langs: seq<string>)
    requires HasSource(rows)
    ensures Outcome(rows, langs, Answers(b, rows, langs)).Ok? <==>
      forall i, j :: 0 <= i < |rows| && 0 <= j < |langs| ==> TranslateText(b, i, j, rows[i]["en"], langs[j]).Ok?
  {
    var answers := Answers(b, rows, langs);
    OutcomeAllOrNothing(rows, langs, answers);
    assert forall i, j :: 0 <= i < |rows| && 0 <= j < |langs| ==>
      answers[i][j] == TranslateText(b, i, j, rows[i]["en"], langs[j]);
  }

  /** On rejection the error is that of a failed work item whose row-major
      predecessors all succeeded. */
  lemma RejectsWithFirstFailure(b: Backend, rows: seq<Row>, langs: seq<string>)
    requires HasSource(rows)
    requires Outcome(rows, langs, Answers(b, rows, langs)).Err?
    ensures exists i, j ::
      && 0 <= i < |rows| && 0 <= j < |langs|
      && TranslateText(b, i, j, rows[i]["en"], langs[j]) == Err(Outcome(rows, langs, Answers(b, rows, langs)).msg)
      && forall i', j' :: 0 <= i' < |rows| && 0 <= j' < |langs| && Before(i', j', i, j) ==>
           TranslateText(b, i', j', rows[i']["en"], langs[j']).Ok?
  {
    var answers := Answers(b, rows, langs);
    OutcomeFirstFailure(rows, langs, answers);
    assert forall i, j :: 0 <= i < |rows| && 0 <= j < |langs| ==>
      answers[i][j] == TranslateText(b, i, j, rows[i]["en"], langs[j]);
  }

  /** On success, result row i is row i with `results[i][lang]` holding the
      translation of row i's `en` text into `lang` made by lang's last
      occurrence in the list; every field no code names keeps its value. */
  lemma TranslatedRow(b: Backend, rows: seq<Row>, langs: seq<string>, i: nat, f: string)
    requires HasSource(rows) && i < |rows|
    requires Outcome(rows, langs, Answers(b, rows, langs)).Ok?
    ensures |Outcome(rows, langs, Answers(b, rows, langs)).value| == |rows|
    ensures var out := Outcome(rows, langs, Answers(b, rows, langs)).value[i];
      && (f in langs ==> f in out && TranslateText(b, i, LastIndexOf(langs, f), rows[i]["en"], f) == Ok(out[f]))
      && (f !in langs ==> (f in out <==> f in rows[i]) && (f in rows[i] ==> out[f] == rows[i][f]))
  {
    OutcomeRow(rows, langs, Answers(b, rows, langs), i, f);
  }
}
