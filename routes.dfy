/** The HTTP handlers of the current backend in front of `performTranslation`:
    the request guards and the mapping of the outcome to a response. */
module Routes {
  import opened Base
  import opened Assembly
  import opened Adapters
  import opened Dispatch

  /** The `sourceData` field of a JSON body: absent or another falsy value, a
      truthy value that is not an array, or an array of rows. */
  datatype SourceField = Missing | NotAnArray | Items(rows: seq<Row>)

  datatype Body = Failure(error: string) | Translated(message: string, data: seq<Row>)

  datatype Response = Response(status: int, body: Body)

  const NoLanguagesMessage := "没有提供目标语言"
  const NoSourceDataMessage := "没有提供需要翻译的文本数据"
  const SuccessMessage := "翻译成功！"

  /** The 500 message: `使用 ${api} 翻译时出错: ${error.message}`. */
  function ServerErrorMessage(api: string, msg: string): string
  {
    "使用 " + api + " 翻译时出错: " + msg
  }

  /** `handleTranslationRequest`: a falsy `languages` field is a 400 before any
      dispatch; a field that does not parse, or a rejected dispatch, is a 500
      naming the selector; otherwise a 200 with the translated rows. `parse`
      stands for `JSON.parse` of the field. */
  method HandleTranslationRequest(b: Backend, sourceData: seq<Row>, languages: Option<string>,
                                  parse: string -> Result<seq<string>>)
    returns (resp: Response, calls: seq<Call>)
    requires HasSource(sourceData)
    ensures !Truthy(languages) ==> resp == Response(400, Failure(NoLanguagesMessage)) && calls == []
    ensures Truthy(languages) && parse(languages.value).Err? ==>
      resp == Response(500, Failure(ServerErrorMessage(b.api, parse(languages.value).msg))) && calls == []
    ensures Truthy(languages) && parse(languages.value).Ok? ==>
      var langs := parse(languages.value).value;
      && calls == Sent(Flatten(Plans(b, sourceData, langs)))
      && resp == match Outcome(sourceData, langs, Answers(b, sourceData, langs))
         case Ok(data) => Response(200, Translated(SuccessMessage, data))
         case Err(e) => Response(500, Failure(ServerErrorMessage(b.api, e)))
  {
    calls := [];
    if !Truthy(languages) {
      resp := Response(400, Failure(NoLanguagesMessage));
      return;
    }
    var parsed := parse(languages.value);
    if parsed.Err? {
      resp := Response(500, Failure(ServerErrorMessage(b.api, parsed.msg)));
      return;
    }
    var out;
    out, calls := PerformTranslation(b, sourceData, parsed.value);
    if out.Ok? {
      resp := Response(200, Translated(SuccessMessage, out.value));
    } else {
      resp := Response(500, Failure(ServerErrorMessage(b.api, out.msg)));
    }
  }

  /** `POST /api/translate-text`: a missing, non-array or empty `sourceData` is a
      400 before the languages are looked at and before any dispatch. */
  method TranslateTextRoute(b: Backend, sourceData: SourceField, languages: Option<string>,
                            parse: string -> Result<seq<string>>)
    returns (resp: Response, calls: seq<Call>)
    requires sourceData.Items? ==> HasSource(sourceData.rows)
    ensures !(sourceData.Items? && |sourceData.rows| > 0) ==>
      resp == Response(400, Failure(NoSourceDataMessage)) && calls == []
    ensures sourceData.Items? && |sourceData.rows| > 0 && !Truthy(languages) ==>
      resp == Response(400, Failure(NoLanguagesMessage)) && calls == []
    ensures sourceData.Items? && |sourceData.rows| > 0 && Truthy(languages) && parse(languages.value).Err? ==>
      resp == Response(500, Failure(ServerErrorMessage(b.api, parse(languages.value).msg))) && calls == []
    ensures sourceData.Items? && |sourceData.rows| > 0 && Truthy(languages) && parse(languages.value).Ok? ==>
      var langs := parse(languages.value).value;
      && calls == Sent(Flatten(Plans(b, sourceData.rows, langs)))
      && resp == match Outcome(sourceData.rows, langs, Answers(b, sourceData.rows, langs))
         case Ok(data) => Response(200, Translated(SuccessMessage, data))
         case Err(e) => Response(500, Failure(ServerErrorMessage(b.api, e)))
  {
    if !sourceData.Items? || |sourceData.rows| == 0 {
      resp, calls := Response(400, Failure(NoSourceDataMessage)), [];
      return;
    }
    resp, calls := HandleTranslationRequest(b, sourceData.rows, languages, parse);
  }
}
