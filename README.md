# translation-app backend: a Dafny model of the translation core

The backend of translation-app takes a table of rows — each row a map of
string fields holding at least `key` and the English source text `en` — and a
list of target-language codes, and asks one of four providers (DeepL, Google
Cloud Translation, DeepSeek, Zhipu GLM) to translate every row's `en` text into
every code. The answer for code `lang` is written into the row under the field
`lang`. The whole request resolves to the filled-in rows, or fails with one
error.

This project models two versions of that core:

- the current backend, `backend/src/index.ts`:
  - the language-name table;
  - `translateText`, which normalises the target per provider, checks the
    provider's credential and builds the outbound request;
  - `performTranslation`, which enqueues one work item per (row, language),
    writes each answer into a copy of its row and joins the items with
    `Promise.all`;
  - the Zhipu key split and token claims;
  - the two LLM helpers' key checks, and the signer's refusal of a Zhipu
    key without a secret;
  - the request guards of `handleTranslationRequest` and
    `POST /api/translate-text`.
- the older backend, `backend/src.ts`:
  - Google instead of DeepL gets the Chinese remap;
  - only the two LLM helpers check their key, and the DeepL client is built
    with `''` when the key is unset;
  - the LLMs get raw codes, not language names;
  - rows are assembled by one task per row, each filling its own copy.

The providers are an oracle, `Backend.send(i, j, call)`. It answers work item
(row `i`, language position `j`) given the request the adapter built, and it
may fail. Keying the oracle by work item lets the model show that a
duplicated code is translated twice and that the later write wins.

The credentials are an `Env` read once, the provider selector is the `api`
string, and the clock is one instant `nowMs`. Dispatch is modelled in row-major
order, one item after another. `calls` records every outbound request in that
order. A failed item does not stop the others, because the source does not
cancel them. The outcome is the first failure in row-major order, or the
completed rows.

Modules: `Base` (Option, Result, JavaScript truthiness), `Strings` (prefix test,
ASCII lower-casing, `split`), `Assembly` (row assembly, work-set flattening,
first failure, requests sent, the outcome), `Zhipu`, `Adapters` (credentials,
provider branches, requests, LLM helpers, oracle), `Providers` (current
`translateText`), `Dispatch` (current `performTranslation`), `Routes` (HTTP
guards), `Legacy` (the older backend).

## Model

| member | source | states |
|---|---|---|
| Base.OrEmpty | backend/src.ts:23 | `deeplApiKey or ''`: the key when it is set and non-empty, otherwise the empty string |
| Strings.Lower | backend/src.ts:93 | lower-casing keeps the length and maps every position through the letter fold |
| Strings.IndexOf | backend/src/index.ts:57 | the position of the first separator: it holds the separator and no earlier position does |
| Strings.Split | backend/src/index.ts:57 | `split('.')` yields at least one segment and no segment contains the separator |
| Strings.JoinSplit | backend/src/index.ts:57 | splitting loses nothing: joining the segments with the separator gives the key back |
| Strings.FirstTwoSegments | backend/src/index.ts:57 | there is exactly one segment iff the key has no separator (then it is the whole key); otherwise the key starts with `first.second`, followed by its end or another separator |
| Zhipu.ZhipuTokenSpec | backend/src/index.ts:56-62 | the claims' `api_key` is the part before the first '.', the signing secret the part after it (absent iff there is no '.'); `exp` is `expSeconds` after the whole second of the current instant; `timestamp` is that instant in milliseconds |
| Adapters.BranchCases | backend/src/index.ts:135-146 | "Zhipu", "DeepSeek" and "Google" select their own branch; every other selector, "DeepL" and "Microsoft" included, falls to the DeepL branch |
| Adapters.LlmHelpersSpec | backend/src/index.ts:44-69 | DeepSeek fails with its own message iff its key is missing or empty. Zhipu fails iff its key is missing or empty (its own message) or has nothing after a first '.' (the signer's error). Nothing is built on failure. Otherwise DeepSeek gets the key and Zhipu a one-hour token signed with a non-empty secret, both with the text and language unchanged |
| Adapters.UnsignableZhipuKeys | backend/src/index.ts:56-69 | the keys "plainkey" and "id." make `callZhipu` fail with the signer's error, while "id.s" yields a request |
| Providers.FullLanguageName | backend/src/index.ts:133 | the table lookup with the code as fallback: the table's name for a code in the table, the code itself otherwise |
| Providers.TableCodes | backend/src/index.ts:81-122 | every code of the table is `zh-TW` or two characters starting with an upper-case letter |
| Providers.UnmappedCodesFallBack | backend/src/index.ts:133 | lookups are case-sensitive and only `zh-TW` of the Chinese codes is listed: "fr", "zh" and "zh-CN" reach the LLM as raw codes |
| Providers.MappedCodes | backend/src/index.ts:81-122 | "FR" is named "French" and "zh-TW" "Traditional Chinese" |
| Providers.DeepLTarget | backend/src/index.ts:148 | every code starting with "zh" becomes "zh", any other code is passed through, and the result starts with "zh" iff the code did |
| Providers.DeepLTargetIdempotent | backend/src/index.ts:148 | remapping twice equals remapping once; zh-TW and zh-CN both become zh, while "ZH" and "FR" are untouched (the test is case-sensitive) |
| Providers.TranslateRequestSpec | backend/src/index.ts:132-151 | the request fails iff the selected branch's credential is missing (for Zhipu, also when the key has no non-empty secret), with that branch's credential error; otherwise it goes to the selected provider with the text, the LLMs get the language name, Google the raw code, DeepL the remapped code with source `en` and the configured key |
| Dispatch.DispatchRow | backend/src/index.ts:158-165 | the inner loop writes every successful answer of row i into `results[i]` in language order, changes no other row, and returns the row's first failure and its requests in order |
| Dispatch.PerformTranslation | backend/src/index.ts:155-169 | the rows are copied, every work item is dispatched row by row; the call resolves to the rows with their answers written, or rejects with the first failure; the requests sent are exactly the successful plans in row-major order |
| Dispatch.EveryPlan | backend/src/index.ts:135-151 | every work item builds a request iff the selected provider's credential is present (for Zhipu, a key with a non-empty secret) |
| Dispatch.WorkSetSize | backend/src/index.ts:157-166 | with the credential present, exactly rows × languages requests are sent, duplicates included |
| Dispatch.WorkSetOrder | backend/src/index.ts:157-166 | with the credential present, work item (i, j) builds a request, and that request is the one sent at position i·m+j (m target codes): row i's `en` text into the j-th code of the caller's list |
| Dispatch.MissingCredentialSendsNothing | backend/src/index.ts:135-151 | with the selected provider's credential missing (or a Zhipu key without a secret), no request is sent and a non-empty grid rejects with that provider's credential error |
| Dispatch.NoLanguagesNoCalls | backend/src/index.ts:155-169 | an empty language list sends nothing and resolves to unchanged copies of the rows |
| Dispatch.AllOrNothing | backend/src/index.ts:168 | `Promise.all`: the call resolves iff every work item's translation succeeded |
| Dispatch.RejectsWithFirstFailure | backend/src/index.ts:168 | on rejection the error is that of a failed work item all of whose row-major predecessors succeeded |
| Dispatch.TranslatedRow | backend/src/index.ts:155-162 | on success, row i keeps its input position; each code's field holds the translation made by the code's last occurrence; every other field keeps its value |
| Assembly.Applied | backend/src/index.ts:162 | writing the answers of one row adds only fields named by the target codes |
| Assembly.AppliedKeepsOtherFields | backend/src/index.ts:155-162 | a field named by no target code is present and equal after the writes exactly when it was before |
| Assembly.AppliedLastWriteWins | backend/src/index.ts:162 | when every answer succeeded, each code's field holds the answer of the code's last occurrence |
| Assembly.FlattenAt | backend/src/index.ts:157-166 | in the row-major work set of a rectangular grid, cell (i, j) sits at position i·m+j |
| Assembly.FlattenCell | backend/src/index.ts:157-166 | every position of the work set is some cell of the grid |
| Assembly.FirstErrorIsFirst | backend/src/index.ts:168 | there is no failure iff every item succeeded; a reported failure is an item's own error and every earlier item succeeded |
| Assembly.SentAll | backend/src/index.ts:160-161 | when every plan builds a request, one request per plan is sent, in order |
| Assembly.SentNone | backend/src/index.ts:160-161 | when every plan fails its credential check, nothing is sent |
| Assembly.GridNoError | backend/src/index.ts:168 | the row-major work set has no failure iff every cell succeeded |
| Assembly.GridFirstFailure | backend/src/index.ts:168 | a reported failure is that of a cell whose row-major predecessors all succeeded |
| Assembly.OutcomeUniformFailure | backend/src/index.ts:168 | when every work item of a non-empty grid fails with the same error, the outcome is that error |
| Assembly.OutcomeAllOrNothing | backend/src/index.ts:168-169 | the outcome is a success iff every cell succeeded |
| Assembly.OutcomeRow | backend/src/index.ts:155-169 | a successful outcome has one row per input row, with written codes holding their last answers and other fields unchanged |
| Routes.HandleTranslationRequest | backend/src/index.ts:184-196 | a falsy `languages` field answers 400 with nothing sent; a field that does not parse answers 500 naming the selector, nothing sent; otherwise the dispatch's outcome becomes 200 with the rows or 500 with `使用 api 翻译时出错: message` |
| Routes.TranslateTextRoute | backend/src/index.ts:198-204 | a missing, non-array or empty `sourceData` answers 400 before the languages are looked at and before anything is sent; any other body is handled as above |
| Legacy.LowerIsZh | backend/src.ts:93 | the lower-cased code is "zh" iff the code is "zh" in any letter case |
| Legacy.GoogleTarget | backend/src.ts:93 | "zh" in any case becomes "zh-CN"; every other code, zh-TW included, is passed through |
| Legacy.GoogleTargetExamples | backend/src.ts:93 | "ZH" and "zh" become "zh-CN"; "zh-TW", "zh-CN" and "FR" are unchanged |
| Legacy.LegacyRequestSpec | backend/src.ts:86-101 | only a missing Zhipu or DeepSeek key, or a Zhipu key without a non-empty secret, fails, with that helper's error; the LLMs get the raw code, Google the remapped code, DeepL the raw code with source `en` and the key or "" when unset |
| Legacy.TranslateRow | backend/src.ts:104-111 | the per-row task returns a copy of the row with every successful answer written in language order, the row's first failure and its requests in order |
| Legacy.LegacyPerformTranslation | backend/src.ts:103-113 | resolves to the filled-in rows in input order or rejects with the first failure; the requests sent are the successful plans in row-major order |
| Legacy.UncheckedProvidersAlwaysSend | backend/src.ts:92-99 | Google and DeepL check no credential before a request: whatever the credentials, once the process is running, rows × languages requests are sent |
| Legacy.LegacyMissingKeySendsNothing | backend/src.ts:86-91 | a missing Zhipu or DeepSeek key, or a Zhipu key without a secret, sends nothing and a non-empty grid rejects with that helper's error |
| Legacy.LegacyAllOrNothing | backend/src.ts:103-113 | the older backend resolves iff every work item succeeded |
| Legacy.LegacyTranslatedRow | backend/src.ts:105-111 | on success, row i is a copy of input row i whose code fields hold the last occurrence's translation, other fields unchanged |

## Left out

- Concurrency: the current backend runs the work items on a queue of
  concurrency 2, and the older one starts them all at once. The model runs them
  one after another in row-major order. With overlapping items, the value kept
  for a duplicated code is the last one to complete, and the reported error is
  the first rejection in time. In the model these are the last item and the
  first failure in row-major order.
- Cancellation: none in the source, and none in the model. Every item is
  dispatched even after a failure.
- Provider behaviour is the oracle. Not modelled: HTTP, prompts, model names,
  response parsing, `trim()`, provider errors beyond their message, and what
  `deepl-node` does with an empty key.
- Legacy.UncheckedProvidersAlwaysSend: the older backend builds its DeepL client
  at start-up with `deeplApiKey || ''`, and the client library may refuse an
  empty key there, in which case the process does not start. The DeepL half
  of the lemma is about a running process; start-up is not modelled.
- Zhipu.ZhipuTokenSpec: does not model the HS256 signature or the JWT header.
  The token is the claims plus the secret handed to the signer. The signer's
  refusal of an `undefined` or empty secret is modelled in `CallZhipu`, as the
  error `secretOrPrivateKey must have a value` raised before any request.
- Clock: the source reads `Date.now()` twice per token and again for every
  call. The model uses one instant per request.
- `JSON.parse` of the `languages` field is a parameter, `parse`, and its result
  is taken to be a list of strings. A parsed value that is not an array is not
  modelled.
- The request guards of `backend/src.ts:119-139` are the same as those of the
  current backend, so they are modelled once, in `Routes`.
- `GET /api/template`, the file-upload route `POST /api/translate` (xlsx
  parsing), CORS, body parsing, `dotenv`, logging and server start-up: I/O
  outside the translation core.
- Rows without an `en` field: the declared row type requires one, and every
  model member requires it.
- Providers.FullLanguageName: does not model keys inherited from
  `Object.prototype` (a code such as "constructor" would find a function in the
  source).
- Assembly.Applied: a target code `__proto__` is written as an ordinary field.
  In the source, `results[i][lang] = …` and `newRow[lang] = …` with that code
  call the inherited setter, which ignores a string, so no field is created.
- Field order of a response row: JSON lists a row's fields in insertion order
  (`key`, `en`, then the codes in first-write order). A `map` has no order, so
  the model states which fields a row holds and their values, not their order.
- Strings.Lower: folds only ASCII letters. No other character lower-cases to
  'z' or 'h', so the test for "zh" is exact.
- An `api` field that is absent reaches the DeepL branch like any other
  unrecognised selector, and the 500 message then names it "undefined". The
  model takes `api` to be a string.
- An empty language list: the code lets the JSON text "[]" through (it is a
  truthy string), so the dispatch resolves to unchanged rows and sends nothing.
  This is what the code does, and the model follows it rather than a stricter
  reading that would reject an empty list.
