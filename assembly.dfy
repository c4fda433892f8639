/** The result assembly shared by both dispatchers: the (row, language) grid of
    work items, the per-row field writes, the all-or-nothing outcome, and the
    trace of outbound calls. */
module Assembly {
  import opened Base

  /** A translation item: the row's fields (`key`, `en`, …) by name. */
  type Row = map<string, string>

  /** Every row carries its English source text in field `en`. */
  ghost predicate HasSource(rows: seq<Row>)
  {
    forall i :: 0 <= i < |rows| ==> "en" in rows[i]
  }

  /** Position of the last occurrence of `f` in `langs`. */
  function LastIndexOf(langs: seq<string>, f: string): (k: nat)
    requires f in langs
    ensures k < |langs| && langs[k] == f
    ensures forall k' :: k < k' < |langs| ==> langs[k'] != f
  {
    if langs[|langs| - 1] == f then |langs| - 1 else LastIndexOf(langs[..|langs| - 1], f)
  }

  /** The row after the work items of one row complete in order: every answer
      that succeeded is written to the field named by its language code,
      `row[lang] = answer`, a later write replacing an earlier one. */
  function Applied(row: Row, langs: seq<string>, answers: seq<Result<string>>): (r: Row)
    requires |answers| == |langs|
    ensures forall f :: f in r ==> f in row || f in langs
    decreases |langs|
  {
    if |langs| == 0 then row
    else
      var n := |langs| - 1;
      var before := Applied(row, langs[..n], answers[..n]);
      if answers[n].Ok? then before[langs[n] := answers[n].value] else before
  }

  /** One more completed work item of the row. */
  lemma AppliedStep(row: Row, langs: seq<string>, answers: seq<Result<string>>, j: nat)
    requires |answers| == |langs| && j < |langs|
    ensures var before := Applied(row, langs[..j], answers[..j]);
      Applied(row, langs[..j + 1], answers[..j + 1])
        == if answers[j].Ok? then before[langs[j] := answers[j].value] else before
  {
    assert langs[..j + 1][..j] == langs[..j];
    assert answers[..j + 1][..j] == answers[..j];
  }

  /** A field that no target code names is left as it was. */
  lemma {:induction false} AppliedKeepsOtherFields(row: Row, langs: seq<string>, answers: seq<Result<string>>, f: string)
    requires |answers| == |langs|
    requires f !in langs
    ensures (f in Applied(row, langs, answers) <==> f in row)
    ensures f in row ==> Applied(row, langs, answers)[f] == row[f]
    decreases |langs|
  {
    if |langs| > 0 {
      var n := |langs| - 1;
      assert f !in langs[..n];
      AppliedKeepsOtherFields(row, langs[..n], answers[..n], f);
    }
  }

  /** When every item of the row succeeded, the field of a target code holds the
      answer of that code's last occurrence in the language list. */
  lemma {:induction false} AppliedLastWriteWins(row: Row, langs: seq<string>, answers: seq<Result<string>>, f: string)
    requires |answers| == |langs|
    requires forall j :: 0 <= j < |answers| ==> answers[j].Ok?
    requires f in langs
    ensures f in Applied(row, langs, answers)
    ensures Applied(row, langs, answers)[f] == answers[LastIndexOf(langs, f)].value
    decreases |langs|
  {
    var n := |langs| - 1;
    if langs[n] != f {
      assert f in langs[..n];
      AppliedLastWriteWins(row, langs[..n], answers[..n], f);
    }
  }

  /** Row-major concatenation of a grid. */
  function Flatten<T>(grid: seq<seq<T>>): seq<T>
  {
    if |grid| == 0 then [] else Flatten(grid[..|grid| - 1]) + grid[|grid| - 1]
  }

  /** A grid with `m` columns flattens to `|grid| * m` cells, cell (i, j) at i * m + j. */
  lemma {:induction false} FlattenAt<T>(grid: seq<seq<T>>, m: nat, i: nat, j: nat)
    requires forall r :: 0 <= r < |grid| ==> |grid[r]| == m
    requires i < |grid| && j < m
    ensures |Flatten(grid)| == |grid| * m
    ensures i * m + j < |Flatten(grid)| && Flatten(grid)[i * m + j] == grid[i][j]
    decreases |grid|
  {
    FlattenLength(grid, m);
    var n := |grid| - 1;
    FlattenLength(grid[..n], m);
    if i < n {
      FlattenAt(grid[..n], m, i, j);
      MulLeq(i + 1, n, m);
      assert i * m + j < n * m;
    } else {
      assert i * m + j == |Flatten(grid[..n])| + j;
    }
  }

  lemma {:induction false} MulLeq(a: nat, b: nat, m: nat)
    requires a <= b
    ensures a * m <= b * m
    decreases b - a
  {
    if a < b {
      MulLeq(a, b - 1, m);
      assert b * m == (b - 1) * m + m;
    }
  }

  lemma {:induction false} FlattenLength<T>(grid: seq<seq<T>>, m: nat)
    requires forall r :: 0 <= r < |grid| ==> |grid[r]| == m
    ensures |Flatten(grid)| == |grid| * m
    decreases |grid|
  {
    if |grid| > 0 {
      FlattenLength(grid[..|grid| - 1], m);
      assert |grid| * m == (|grid| - 1) * m + m;
    }
  }

  /** Every element of a flattened grid is one of its cells. */
  lemma {:induction false} FlattenCell<T>(grid: seq<seq<T>>, k: nat)
    requires k < |Flatten(grid)|
    ensures exists i, j :: 0 <= i < |grid| && 0 <= j < |grid[i]| && Flatten(grid)[k] == grid[i][j]
    decreases |grid|
  {
    var n := |grid| - 1;
    if k < |Flatten(grid[..n])| {
      FlattenCell(grid[..n], k);
      var i, j :| 0 <= i < n && 0 <= j < |grid[..n][i]| && Flatten(grid[..n])[k] == grid[..n][i][j];
      assert Flatten(grid)[k] == grid[i][j];
    } else {
      assert Flatten(grid)[k] == grid[n][k - |Flatten(grid[..n])|];
    }
  }

  /** The error of the first failing item, in order. */
  function FirstError<T>(s: seq<Result<T>>): Option<string>
  {
    if |s| == 0 then None
    else
      var earlier := FirstError(s[..|s| - 1]);
      if earlier.Some? then earlier
      else if s[|s| - 1].Err? then Some(s[|s| - 1].msg)
      else None
  }

  /** No error exactly when every item succeeded; otherwise the error is that of
      an item all of whose predecessors succeeded. */
  lemma {:induction false} FirstErrorIsFirst<T>(s: seq<Result<T>>)
    ensures FirstError(s).None? <==> forall k :: 0 <= k < |s| ==> s[k].Ok?
    ensures FirstError(s).Some? ==>
      exists k :: 0 <= k < |s| && s[k] == Err(FirstError(s).value) && forall k' :: 0 <= k' < k ==> s[k'].Ok?
    decreases |s|
  {
    if |s| > 0 {
      var n := |s| - 1;
      FirstErrorIsFirst(s[..n]);
      if FirstError(s[..n]).Some? {
        var k :| 0 <= k < n && s[..n][k] == Err(FirstError(s[..n]).value) && forall k' :: 0 <= k' < k ==> s[..n][k'].Ok?;
        assert s[k] == Err(FirstError(s).value);
      } else if s[n].Err? {
        assert forall k' :: 0 <= k' < n ==> s[..n][k'].Ok?;
      }
    }
  }

  /** The values of the items that succeeded, in order: for a grid of planned
      requests, the outbound calls actually made. */
  function Sent<T>(s: seq<Result<T>>): (r: seq<T>)
    ensures |r| <= |s|
  {
    if |s| == 0 then []
    else
      var n := |s| - 1;
      Sent(s[..n]) + (if s[n].Ok? then [s[n].value] else [])
  }

  lemma {:induction false} SentAppend<T>(a: seq<Result<T>>, b: seq<Result<T>>)
    ensures Sent(a + b) == Sent(a) + Sent(b)
    decreases |b|
  {
    if |b| > 0 {
      var n := |b| - 1;
      assert (a + b)[..|a + b| - 1] == a + b[..n];
      SentAppend(a, b[..n]);
    } else {
      assert a + b == a;
    }
  }

  lemma {:induction false} SentNone<T>(s: seq<Result<T>>)
    requires forall k :: 0 <= k < |s| ==> s[k].Err?
    ensures Sent(s) == []
    decreases |s|
  {
    if |s| > 0 {
      SentNone(s[..|s| - 1]);
    }
  }

  lemma {:induction false} SentAll<T>(s: seq<Result<T>>)
    requires forall k :: 0 <= k < |s| ==> s[k].Ok?
    ensures |Sent(s)| == |s|
    ensures forall k :: 0 <= k < |s| ==> Sent(s)[k] == s[k].value
    decreases |s|
  {
    if |s| > 0 {
      SentAll(s[..|s| - 1]);
    }
  }

  /** A grid with one row of `m` answers per input row. */
  ghost predicate Shaped<T>(grid: seq<seq<T>>, n: nat, m: nat)
  {
    |grid| == n && forall i :: 0 <= i < n ==> |grid[i]| == m
  }

  /** What the dispatcher resolves to: the first failure of the whole grid, in
      row-major order, or one assembled row per input row. */
  function Outcome(rows: seq<Row>, langs: seq<string>, answers: seq<seq<Result<string>>>): Result<seq<Row>>
    requires Shaped(answers, |rows|, |langs|)
  {
    match FirstError(Flatten(answers))
    case Some(e) => Err(e)
    case None => Ok(seq(|rows|, i requires 0 <= i < |rows| => Applied(rows[i], langs, answers[i])))
  }

  lemma {:induction false} FirstErrorAppend<T>(a: seq<Result<T>>, b: seq<Result<T>>)
    ensures FirstError(a + b) == if FirstError(a).Some? then FirstError(a) else FirstError(b)
    decreases |b|
  {
    if |b| > 0 {
      var n := |b| - 1;
      assert (a + b)[..|a + b| - 1] == a + b[..n];
      FirstErrorAppend(a, b[..n]);
    } else {
      assert a + b == a;
    }
  }

  /** One more work item, in dispatch order. */
  lemma FirstErrorStep<T>(s: seq<Result<T>>, x: Result<T>)
    ensures FirstError(s + [x]) == if FirstError(s).Some? then FirstError(s) else if x.Err? then Some(x.msg) else None
  {
    assert (s + [x])[..|s|] == s;
  }

  lemma SentStep<T>(s: seq<Result<T>>, x: Result<T>)
    ensures Sent(s + [x]) == Sent(s) + if x.Ok? then [x.value] else []
  {
    assert (s + [x])[..|s|] == s;
  }

  /** One more work item of a row, in dispatch order: its answer is written if
      it succeeded, it is the row's first failure if none came before, and its
      request, if it made one, is sent after the earlier ones. */
  lemma RowStep<C>(row: Row, langs: seq<string>, answers: seq<Result<string>>, plans: seq<Result<C>>, j: nat)
    requires |answers| == |langs| == |plans| && j < |langs|
    ensures var before := Applied(row, langs[..j], answers[..j]);
      Applied(row, langs[..j + 1], answers[..j + 1])
        == if answers[j].Ok? then before[langs[j] := answers[j].value] else before
    ensures var before := FirstError(answers[..j]);
      FirstError(answers[..j + 1]) == if before.Some? then before else if answers[j].Err? then Some(answers[j].msg) else None
    ensures Sent(plans[..j + 1]) == Sent(plans[..j]) + if plans[j].Ok? then [plans[j].value] else []
  {
    AppliedStep(row, langs, answers, j);
    TakeOneMore(answers, j);
    TakeOneMore(plans, j);
    FirstErrorStep(answers[..j], answers[j]);
    SentStep(plans[..j], plans[j]);
  }

  lemma TakeOneMore<T>(s: seq<T>, j: nat)
    requires j < |s|
    ensures s[..j + 1] == s[..j] + [s[j]]
  {
  }

  /** Flattening the first i + 1 rows of a grid. */
  lemma FlattenStep<T>(grid: seq<seq<T>>, i: nat)
    requires i < |grid|
    ensures Flatten(grid[..i + 1]) == Flatten(grid[..i]) + grid[i]
  {
    assert grid[..i + 1][..i] == grid[..i];
  }

  /** What a dispatcher that tracked the first error, built the rows one by one
      and recorded its requests resolves to once every row is done. */
  lemma OutcomeOf<C>(rows: seq<Row>, langs: seq<string>, answers: seq<seq<Result<string>>>,
                     plans: seq<seq<Result<C>>>, firstError: Option<string>, built: seq<Row>, calls: seq<C>)
    requires Shaped(answers, |rows|, |langs|) && |plans| == |rows|
    requires firstError == FirstError(Flatten(answers[..|rows|]))
    requires calls == Sent(Flatten(plans[..|rows|]))
    requires |built| == |rows| && forall r :: 0 <= r < |rows| ==> built[r] == Applied(rows[r], langs, answers[r])
    ensures Outcome(rows, langs, answers) == if firstError.Some? then Err(firstError.value) else Ok(built)
    ensures calls == Sent(Flatten(plans))
  {
    assert answers[..|rows|] == answers;
    assert plans[..|rows|] == plans;
    if firstError.None? {
      assert built == Outcome(rows, langs, answers).value;
    }
  }

  /** Completing row i of the grid, in dispatch order. */
  lemma GridStep<T>(grid: seq<seq<Result<T>>>, i: nat)
    requires i < |grid|
    ensures var before := FirstError(Flatten(grid[..i]));
      FirstError(Flatten(grid[..i + 1])) == if before.Some? then before else FirstError(grid[i])
    ensures Sent(Flatten(grid[..i + 1])) == Sent(Flatten(grid[..i])) + Sent(grid[i])
  {
    FlattenStep(grid, i);
    FirstErrorAppend(Flatten(grid[..i]), grid[i]);
    SentAppend(Flatten(grid[..i]), grid[i]);
  }

  /** Work item (i', j') is dispatched before (i, j) in row-major order. */
  predicate Before(i': nat, j': nat, i: nat, j: nat)
  {
    i' < i || (i' == i && j' < j)
  }

  /** Every cell of the grid succeeded. */
  ghost predicate AllOk<T>(grid: seq<seq<Result<T>>>)
  {
    forall i, j :: 0 <= i < |grid| && 0 <= j < |grid[i]| ==> grid[i][j].Ok?
  }

  /** Every cell dispatched before (i, j) succeeded. */
  ghost predicate OkBefore<T>(grid: seq<seq<Result<T>>>, i: nat, j: nat)
  {
    forall i', j' :: 0 <= i' < |grid| && 0 <= j' < |grid[i']| && Before(i', j', i, j) ==> grid[i'][j'].Ok?
  }

  /** Over a whole grid, in row-major order: no error exactly when every cell succeeded. */
  lemma {:induction false} GridNoError<T>(grid: seq<seq<Result<T>>>)
    ensures FirstError(Flatten(grid)).None? <==> AllOk(grid)
    decreases |grid|
  {
    if |grid| > 0 {
      var n := |grid| - 1;
      var prefix := grid[..n];
      GridNoError(prefix);
      FirstErrorAppend(Flatten(prefix), grid[n]);
      FirstErrorIsFirst(grid[n]);
      assert AllOk(grid) <==> AllOk(prefix) && forall j :: 0 <= j < |grid[n]| ==> grid[n][j].Ok?;
    }
  }

  /** Over a whole grid, in row-major order: the error is that of a failed cell
      all of whose predecessors succeeded. */
  lemma {:induction false} GridFirstFailure<T>(grid: seq<seq<Result<T>>>)
    requires FirstError(Flatten(grid)).Some?
    ensures exists i, j ::
      && 0 <= i < |grid| && 0 <= j < |grid[i]|
      && grid[i][j] == Err(FirstError(Flatten(grid)).value)
      && OkBefore(grid, i, j)
    decreases |grid|
  {
    var n := |grid| - 1;
    var prefix := grid[..n];
    FirstErrorAppend(Flatten(prefix), grid[n]);
    if FirstError(Flatten(prefix)).Some? {
      GridFirstFailure(prefix);
      var i, j :| 0 <= i < |prefix| && 0 <= j < |prefix[i]| &&
        prefix[i][j] == Err(FirstError(Flatten(prefix)).value) && OkBefore(prefix, i, j);
      assert grid[i][j] == prefix[i][j];
      assert OkBefore(grid, i, j);
    } else {
      GridNoError(prefix);
      FirstErrorIsFirst(grid[n]);
      var j :| 0 <= j < |grid[n]| && grid[n][j] == Err(FirstError(grid[n]).value) &&
        forall k' :: 0 <= k' < j ==> grid[n][k'].Ok?;
      assert OkBefore(grid, n, j);
    }
  }

  /** All or nothing: rows come back exactly when every work item succeeded. */
  lemma OutcomeAllOrNothing(rows: seq<Row>, langs: seq<string>, answers: seq<seq<Result<string>>>)
    requires Shaped(answers, |rows|, |langs|)
    ensures Outcome(rows, langs, answers).Ok? <==>
      forall i, j :: 0 <= i < |rows| && 0 <= j < |langs| ==> answers[i][j].Ok?
  {
    GridNoError(answers);
  }

  /** When every work item of a non-empty grid fails with the same error, the
      outcome is that error. */
  lemma OutcomeUniformFailure(rows: seq<Row>, langs: seq<string>, answers: seq<seq<Result<string>>>, e: string)
    requires Shaped(answers, |rows|, |langs|) && |rows| > 0 && |langs| > 0
    requires forall i, j :: 0 <= i < |rows| && 0 <= j < |langs| ==> answers[i][j] == Err(e)
    ensures Outcome(rows, langs, answers) == Err(e)
  {
    GridNoError(answers);
    assert !AllOk(answers) by {
      assert !answers[0][0].Ok?;
    }
    GridFirstFailure(answers);
  }

  /** The reported failure is the error of a failed work item (i, j) all of whose
      row-major predecessors succeeded. */
  lemma OutcomeFirstFailure(rows: seq<Row>, langs: seq<string>, answers: seq<seq<Result<string>>>)
    requires Shaped(answers, |rows|, |langs|)
    requires Outcome(rows, langs, answers).Err?
    ensures exists i, j ::
      && 0 <= i < |rows| && 0 <= j < |langs|
      && answers[i][j] == Err(Outcome(rows, langs, answers).msg)
      && forall i', j' :: 0 <= i' < |rows| && 0 <= j' < |langs| && Before(i', j', i, j) ==> answers[i'][j'].Ok?
  {
    GridFirstFailure(answers);
  }

  /** On success: one row per input row, in input order; each target field holds
      the answer of its last occurrence, every other field keeps its value. */
  lemma OutcomeRow(rows: seq<Row>, langs: seq<string>, answers: seq<seq<Result<string>>>, i: nat, f: string)
    requires Shaped(answers, |rows|, |langs|)
    requires Outcome(rows, langs, answers).Ok?
    requires i < |rows|
    ensures |Outcome(rows, langs, answers).value| == |rows|
    ensures var out := Outcome(rows, langs, answers).value[i];
      && (f in langs ==> f in out && answers[i][LastIndexOf(langs, f)] == Ok(out[f]))
      && (f !in langs ==> (f in out <==> f in rows[i]) && (f in rows[i] ==> out[f] == rows[i][f]))
  {
    OutcomeAllOrNothing(rows, langs, answers);
    if f in langs {
      AppliedLastWriteWins(rows[i], langs, answers[i], f);
    } else {
      AppliedKeepsOtherFields(rows[i], langs, answers[i], f);
    }
  }
}
