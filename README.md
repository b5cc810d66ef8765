# LLM product recommendations: a Dafny model of the recommendation pipeline

The system recommends catalog products to a shopper. Its `LLMService` class does the work in three steps:

1. It looks up the products in the shopper's browsing history.
2. It builds a prompt from the preferences, the browsed products and (in the current revision) the first 20 catalog products.
3. It sends the prompt to a hosted language model, then interprets the reply. The interpreter finds the JSON array between the first `[` and the last `]`, joins each element's `product_id` against the catalog, and fails soft to an empty list with an error string.

The repository has two revisions of the service:
- `services/llm_service.py`, the current revision, is modelled by module `LlmService`.
- `backend/services/llm_service.py`, the earlier revision, is modelled by module `BackendLlmService`.

Some parts are common to both revisions. They live in these modules:
- `Records` holds the decoded JSON values, the products, the recommendation items and the result dictionary. It also holds the first-match catalog lookup, the browsing-history lookup (identical code in both revisions) and the enrichment join.
- `Text` holds `str.find`, `str.rfind`, slicing, the bracket scan, and blocks of lines built by `+=`.
- `Wrappers` holds `Option` and `Result`.

The positional prompt lemmas (`PromptFrame` and the `...LineInPrompt` lemmas) are stated for the prompt between any opening and closing text. `Prompt` is that prompt with the source's own framing text as the opening and its closing instructions as the closing.

Loops in the source are `method`s with loop invariants. Each method is proved equal to a specification function, and the promised properties are lemmas about those functions. The current revision calls `next(...)` on a generator. That call and the `find`/`rfind`/slice scan are functions.

Outside code is passed in as function parameters:
- The JSON decoder: `parse: string -> Result<seq<Json>, string>`. A `Failure` carries `str(e)` of the exception `json.loads` raised.
- The JSON encoder: `dumps: Prefs -> string`.
- Python's formatting of a preference value: `show: Json -> string`.
- The model call: `llm: string -> Result<string, string>`.

How Python values are represented:
- Python's `None` is `JNull`. `rec.get('product_id')` on a dict without that key is therefore `JNull`, and `JNull` equals no catalog id.
- An element that is not a dict makes `.get` raise `AttributeError`. The model carries its exact message, `'<type>' object has no attribute 'get'`.

Two behaviours of the code worth stating plainly:
- The code has no price-range filter. The candidates are the first 20 products of the whole catalog, and `priceRange` reaches the prompt only inside the serialised preferences.
- A `]` before the first `[` is not treated as a missing array. The slice is empty, `json.loads('')` fails, and the error carries the decoder's message (prefixed in the earlier revision).

## Model

| member | source | states |
|---|---|---|
| `Records.FirstIndex` | services/llm_service.py:123 | The position of the first catalog product whose id equals the key. None exactly when no product has that id. |
| `Records.FirstMatch` | services/llm_service.py:123 | `next((p for p in all_products if p['id'] == product_id), None)` (also `product_details` after backend/services/llm_service.py:149-155): Some exactly when a catalog product carries the key, and then it is a catalog product with that id with none before it. |
| `Records.Get` | services/llm_service.py:122-129 | `rec.get(k, d)`: the entry when the key is present, the default (None, `''` or `5`) otherwise. |
| `Records.AttributeMessage` | services/llm_service.py:122 | `str(e)` of the AttributeError that `.get` raises on a non-dict: the quoted type name followed by ` object has no attribute 'get'`. |
| `Records.FirstMatchExists` | services/llm_service.py:123 | A first match exists exactly when some catalog product carries the id. |
| `Records.FindProduct` | backend/services/llm_service.py:149-155 | The scan that stops at the first equal id (`for ... if ... break`) returns that first catalog product, or None. |
| `Records.Browsed` | services/llm_service.py:35-40 | The browsed products' ids are the history ids that the catalog knows, in history order, repeats kept. Each browsed product is the first catalog product with its id. |
| `Records.BrowsedProducts` | backend/services/llm_service.py:34-39 | The nested lookup loop (the same code in both revisions) builds exactly `Browsed(history, catalog)`. |
| `Records.KnownIdsMembers` | services/llm_service.py:35-40 | An id is among the browsed ids if and only if it is in the history and some catalog product carries it. |
| `Records.KnownIdsBound` | services/llm_service.py:35-40 | At most one browsed product per history id, so the list is no longer than the history. |
| `Records.KnownIdsAllKnown` | backend/services/llm_service.py:34-39 | When every history id is in the catalog, nothing is skipped: the browsed ids are the history. |
| `Records.BrowsedAllKnown` | services/llm_service.py:35-40 | When every history id is in the catalog, there is one browsed product per history entry. The k-th is the first catalog product carrying the k-th id. |
| `Records.JoinOne` | services/llm_service.py:123-130 | A recommendation's product is the first catalog record with the element's `product_id`. `explanation` is passed through, or `''` when the key is absent. `confidence_score` is `score` passed through, or `5` when absent. |
| `Records.Enrich` | services/llm_service.py:120-131 | The join succeeds exactly when every decoded element is a dict. It then yields at most one recommendation per element. |
| `Records.EnrichIsFilterJoin` | services/llm_service.py:121-130 | The join loop equals an order-preserving filter (elements whose `product_id` is a catalog id) followed by joining each with its first catalog match. Unmatched elements are dropped. |
| `Records.EnrichAllKnown` | backend/services/llm_service.py:146-162 | When every element names a catalog id, nothing is dropped, and the k-th recommendation comes from the k-th element. |
| `Records.EnrichFirstNonObject` | services/llm_service.py:121-122 | The first element that is not a dict aborts the join with that element's AttributeError message. |
| `Text.Find` | services/llm_service.py:107 | `find('[')` is -1 exactly when there is no `[`. Otherwise it is the index of a `[` with none before it. |
| `Text.RFind` | services/llm_service.py:108 | `rfind(']')` is -1 exactly when there is no `]`. Otherwise it is the index of a `]` with none after it. |
| `Text.Slice` | services/llm_service.py:116 | `llm_response[start_idx:end_idx]` (also backend/services/llm_service.py:142): the characters from the start index up to but not including the end, none when the end is not after the start. |
| `Text.BracketSlice` | services/llm_service.py:107-116 | There is no payload exactly when the reply lacks a `[` or a `]`. |
| `Text.BracketSliceShape` | services/llm_service.py:107-117 | A payload either runs from the first `[` to the last `]`, both included, or is empty. It is empty exactly when every `]` precedes every `[`. |
| `Text.AppendLines` | services/llm_service.py:87-88 | A `for` loop of `text += render(x)` yields the text followed by each element's line, in order. |
| `LlmService.Candidates` | services/llm_service.py:69 | `all_products[:20]` is a catalog prefix of at most 20 products. It is the whole catalog when that has fewer. |
| `LlmService.PromptIgnoresLaterProducts` | services/llm_service.py:69 | For given browsed products, catalog entries after the twentieth never change the prompt. They are never candidates, and they can appear only through the browsing history. |
| `LlmService.HistoryLine` | services/llm_service.py:88 | The history f-string: the line opens with `- ` and the name followed by ` (`, and closes with `)` and a newline. |
| `LlmService.CandidateLine` | services/llm_service.py:92 | The candidate f-string: the line opens with `- ID: `, the id and `, Name: `, and ends with the brand and a newline. |
| `LlmService.BuildPrompt` | services/llm_service.py:68-96 | The prompt is built in this order: the framing text and serialised preferences, `"\n\nBrowsing History:\n"` and one line per browsed product, `"\nCandidate Products:\n"` and one `- ID: ...` line per candidate, then the `REMEMBER` line. |
| `LlmService.PromptFrame` | services/llm_service.py:71-94 | The prompt begins with its opening (the framing text and the serialised preferences) and ends with its closing (the reminder). |
| `LlmService.HistoryLineInPrompt` | services/llm_service.py:86-88 | The k-th browsed product's line stands right after the history heading and the earlier history lines. |
| `LlmService.CandidateLineInPrompt` | services/llm_service.py:90-92 | For each of the first 20 catalog products, its line stands right after the candidate heading and the earlier candidate lines. |
| `LlmService.Interpret` | services/llm_service.py:100-142 | A listed result's count equals its length. Every error result has an empty list. |
| `LlmService.ParseResponse` | services/llm_service.py:107-142 | The whole interpreter method: the bracket scan, the decode, the append loop and the fail-soft returns yield exactly `Interpret(reply, catalog, parse)`, with `count == len(recommendations)` when listed. |
| `LlmService.NoArrayIsSoftFailure` | services/llm_service.py:107-114 | A reply without `[` or without `]` gives an empty list with error "Could not find JSON array in LLM response" and no count. |
| `LlmService.ReversedBracketsFail` | services/llm_service.py:107-117 | When the last `]` precedes the first `[`, the empty payload is decoded. Since `json.loads('')` fails, its error is returned with an empty list. |
| `LlmService.DecodeFailureIsSoft` | services/llm_service.py:137-142 | A decoder failure gives an empty list and the bare `str(e)`. |
| `LlmService.NonObjectIsSoftFailure` | services/llm_service.py:121-142 | A non-dict element gives an empty list and the first such element's AttributeError message. |
| `Records.ListedPath` | services/llm_service.py:116-135 | The listed path both interpreters share (also backend/services/llm_service.py:142-167): a payload that decodes and joins runs from the first `[` to the last `]`, holds dicts only, and joins to the matched elements in order, at most one per element. |
| `LlmService.ListedResult` | services/llm_service.py:116-135 | Derived from `Records.ListedPath`: a listed result comes from the payload running from the first `[` to the last `]`, decoded into dicts only. It lists the matched elements in order, joined, and `count == len(recommendations) <= len(parsed)`. |
| `LlmService.GenerateRecommendations` | services/llm_service.py:63-66 | A failed model call with message m becomes `Failure("Failed to generate recommendations: " + m)`. A reply becomes `Success(Interpret(...))` for the prompt built from the browsed products. |
| `BackendLlmService.PrefLine` | backend/services/llm_service.py:91 | The f-string `- {key}: {value}` (rendered through `PrefRenderer`): `- `, the key, `: `, the value's text, a newline, and nothing else. |
| `BackendLlmService.HistoryLine` | backend/services/llm_service.py:96 | The history f-string: the line opens with `- ` and the name followed by ` (Category: `, and closes with `)` and a newline. |
| `BackendLlmService.BuildPrompt` | backend/services/llm_service.py:86-102 | The prompt is the introduction, `"User Preferences:\n"` with one `- key: value` line per entry in dict order, `"\nBrowsing History:\n"` with one line per browsed product, then the two instruction texts. It equals a function without the catalog, so `all_products` is never listed. |
| `BackendLlmService.PrefLineInPrompt` | backend/services/llm_service.py:89-91 | The k-th preference entry's `- key: value` line stands right after the preferences heading and the earlier entries' lines. |
| `BackendLlmService.HistoryLineInPrompt` | backend/services/llm_service.py:94-96 | The k-th browsed product's line stands right after the history heading and the earlier history lines. |
| `BackendLlmService.Interpret` | backend/services/llm_service.py:110-174 | A listed result's count equals its length. Every error result has an empty list. |
| `BackendLlmService.ParseResponse` | backend/services/llm_service.py:132-174 | The whole interpreter method: the bracket scan, the decode, the nested-loop join and the prefixed fail-soft returns yield exactly `Interpret(reply, catalog, parse)`, with `count == len(recommendations)` when listed. |
| `BackendLlmService.NoArrayIsSoftFailure` | backend/services/llm_service.py:132-140 | A reply without `[` or without `]` gives an empty list with error "Could not parse recommendations from LLM response". |
| `BackendLlmService.DecodeFailureIsSoft` | backend/services/llm_service.py:169-174 | A decoder failure gives an empty list and `"Failed to parse recommendations: " + str(e)`. |
| `BackendLlmService.ReversedBracketsFail` | backend/services/llm_service.py:132-143 | When the last `]` precedes the first `[`, the empty payload fails to decode, and the error gets the prefix. |
| `BackendLlmService.NonObjectIsSoftFailure` | backend/services/llm_service.py:147-174 | A non-dict element gives an empty list and the prefixed AttributeError message of the first such element. |
| `BackendLlmService.ListedResult` | backend/services/llm_service.py:142-167 | Derived from `Records.ListedPath`: a listed result comes from the first-`[`-to-last-`]` payload, decoded into dicts only. It lists the matched elements in order, each with its first catalog record and the `''`/`5` defaults, and count equals the length. |
| `BackendLlmService.GenerateRecommendations` | backend/services/llm_service.py:63-66 | A failed model call with message m becomes `Failure("Failed to generate recommendations: " + m)`. A reply is interpreted by this revision's interpreter. |

## Left out

- The OpenAI `ChatCompletion.create` call, the API key and the model settings (`__init__`, the call's arguments) are left out. They are network and configuration. The call is the `llm` parameter, and extracting `response.choices[0].message.content` is part of it.
- `json.loads`, `json.dumps(..., indent=2)` and Python's `str()` of a preference value are not re-implemented. They are the `parse`, `dumps` and `show` parameters.
- `ListedResult`, `ReversedBracketsFail` (both modules) and `Records.ListedPath` assume that the decoder rejects the empty string, as `json.loads('')` does. They do not derive this.
- The `print` debugging output is I/O and is left out.
- Numbers are integers: a float `score` or `explanation` value is not represented. Product prices are kept as the text Python prints for them, their only use.
- Product fields the service never reads (subcategory, description, features, rating, inventory, tags) are not represented. The source carries them along untouched inside the product record.
- Exceptions the code never meets with well-formed inputs are not modelled, such as a `KeyError` from a catalog record without `name`. So is a reply that is `None`.
- `Product` (catalog record) truthiness: `if product_details:` is modelled as "a product was found", since a catalog record is a non-empty dict.
- The HTTP routes, request models, the 404/500 mapping, CORS, startup and the React front end are outside the pipeline and are left out.
