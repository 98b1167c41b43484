# NutriScan core in Dafny

NutriScan is a Streamlit application that looks food products up in the
OpenFoodFacts catalog. You reach a product by barcode or by free text, filter
it by dietary criteria, and are offered healthier products from the same
category. A language model (through LiteLLM and Groq) comments on them. This
project models the deterministic core behind those screens:

* `utils/data.py` (module `Data`):
  * the search parameters;
  * the dietary filter (vegan, gluten-free, organic, sugar and salt caps);
  * barcode detection;
  * the two search routes, barcode lookup and text search;
  * the Nutri-Score ordinal;
  * `find_alternatives`, from its search term through its candidate loop to
    the sort and the final slice.
* `utils/chatbot.py` (module `Chatbot`):
  * the message lists sent to the model;
  * the numbered candidate listing in the recommendation prompt;
  * the choice between the model's reply and the offline fallback text;
  * the fallback text itself.

The supporting modules are:

* `Products`: the product record and the Nutri-Score ordinal, which both
  Python files define identically (`utils/data.py:106-112` and
  `utils/chatbot.py:145-151`). It is defined once here.
* `Text`: the Python string operations the code relies on (`strip`, `split`,
  `upper`, `lower`, `replace`, `in`, `isdigit`, `str(int)`).
* `Seqs`: the list operations, namely a filtering comprehension, slicing, and a
  stable sort by key.
* `Wrappers`: `Option` and `Result`.

How Python values are represented:

* A key of a JSON object is `Field<T>`: `Absent` (missing), `Null` (present as
  `null`) or `Val(v)`. This keeps `dict.get(key, default)` apart from
  truthiness tests.
* The catalog's HTTP endpoints are parameters of type `Catalog`, a lookup
  function and a search function. A reply is either a failure (a
  `RequestException`) or the decoded body.
* The language model is a parameter `llm: LlmCall -> LlmOutcome`. `Raised`
  stands for any exception it throws.
* The environment variable `LITELLM_MODEL_PRIMARY` is an `Option<string>`
  parameter.
* How a float is printed inside an f-string is a parameter
  `render: real -> string`.

Python exceptions that escape a function are modelled as `Err(...)` of
`Result`. This covers two cases:

* `TypeError`: the search body holds `"products": null`.
* `IndexError`: the first comma-separated category segment is blank, so
  `split()[-1]` fails.

Behaviour a reader might not expect, modelled as the code has it:

* A failed search gives an empty list, but two other cases raise an
  exception, which the model returns as `Err`. A `null` product list in the
  search reply raises TypeError. A blank first category segment raises
  IndexError while the search term is computed, before any request is made.
* `chat_with_user` sends the whole history: `|history| + 2` messages.
* The fallback recommendation looks at the first five candidates only.
* The comment at `utils/data.py:167` says "better or equal". The test on
  line 168 is strict, and the model keeps only strictly better candidates.

## Model

| member | source | states |
|---|---|---|
| Data.ApplyFilters | utils/data.py:21-48 | the early-return cascade of `_apply_filters`; its meaning is stated by `ApplyFiltersCriteria` |
| Data.CleanQuery | utils/data.py:53 | `query.strip().replace(" ", "").replace("-", "")`; stated by `CleanOnlyDigits` and `CleanKeepsDigits` |
| Data.IsBarcode | utils/data.py:51-54 | `_is_barcode`; stated by `IsBarcodeMeaning` |
| Data.SearchProducts | utils/data.py:74-103 | `search_products` with both routes; stated by `SearchByBarcode`, `SearchByText` and the two route lemmas |
| Data.SearchTerm | utils/data.py:121-136 | the search term of `find_alternatives`, or the IndexError it raises; stated by the three `SearchTerm` lemmas |
| Data.Scan | utils/data.py:152-172 | the candidate loop with its `continue` and `break`; stated by `ScanTakesFirst`, `ScanNonPositive` and `ScanKeeps` |
| Data.AlternativesOf | utils/data.py:152-177 | the loop, the sort and the slice over a candidate list; stated by the `AlternativesOf` lemmas |
| Data.Alternatives | utils/data.py:115-179 | `find_alternatives` given the catalog's reply; stated by `AlternativesProperties` and implemented by `FindAlternatives` |
| Data.BuildSearchParams | utils/data.py:11-18 | the query and page size are passed through; `search_simple` and `json` are 1; `action` is "process"; no sort key is set |
| Data.ApplyFiltersCriteria | utils/data.py:21-48 | a product passes exactly when each enabled label criterion holds, it does not exceed the sugar cap (default 50) and it does not exceed the salt cap (default 10) |
| Data.ApplyFiltersMonotone | utils/data.py:27-46 | turning criteria off and raising the caps never rejects a product that passed |
| Data.ApplyFiltersNoNutrients | utils/data.py:40-46 | with no label criterion, a product without nutriments always passes |
| Data.SugarZeroFallsBack | utils/data.py:40 | a sugar value of 0 is falsy, so the `sugar_100g` key is used instead |
| Data.SugarCapExample | utils/data.py:40-42 | 40 g of sugar is rejected under a 30 g cap and accepted under the default cap |
| Data.CleanOnlyDigits | utils/data.py:53-54 | after removing spaces and hyphens, only digits remain exactly when every character was a digit, a space or a hyphen |
| Data.CleanKeepsDigits | utils/data.py:53 | cleaning the query keeps the number of digits |
| Data.IsBarcodeMeaning | utils/data.py:51-54 | a query is a barcode exactly when its stripped form holds only digits, spaces and hyphens, and it has 8 to 13 digits |
| Data.IsBarcodeExample | utils/data.py:51-54 | the 13-digit EAN code 3017620422003 is recognised as a barcode |
| Data.ProductByBarcode | utils/data.py:57-72 | a product comes back exactly when the lookup of the cleaned code's URL succeeds with status 1 and a product, and it is that product |
| Data.ProductList | utils/data.py:98-101 | a missing `products` key gives [], `null` gives a TypeError, and a list is returned as is |
| Data.SearchByBarcode | utils/data.py:82-89 | a barcode query gives at most one product, and one exactly when the lookup finds it and it passes the filters |
| Data.SearchByText | utils/data.py:92-103 | a text query gives [] on a failed request or a missing list, a TypeError on a null list, and otherwise the products that pass the filters, in their order, each as many times as the reply holds it |
| Data.BarcodeRouteIgnoresSearch | utils/data.py:82-89 | the answer to a barcode query depends only on the lookup endpoint |
| Data.TextRouteIgnoresLookup | utils/data.py:91-103 | the answer to a text query depends only on the search endpoint |
| Data.SearchBarcodeUnfiltered | utils/data.py:79-87 | without filters, a product found by barcode that has no nutriments is returned alone |
| Data.SearchTermFromTags | utils/data.py:126-128 | with category tags, the term is the last tag with every "en:" and then every "fr:" removed, and a tag with neither is used unchanged |
| Data.SearchTermFromCategories | utils/data.py:129-133 | without tags, a blank first category segment raises IndexError; otherwise the term is that segment's last word, which is non-empty and has no whitespace |
| Data.SearchTermNone | utils/data.py:121-136 | a product with neither tags nor categories gets the empty term |
| Data.ScanTakesFirst | utils/data.py:155-172 | for a positive limit, the loop keeps the first candidates that pass its tests, up to the limit |
| Data.ScanNonPositive | utils/data.py:168-172 | for a limit of zero or below, the loop breaks after the first candidate it does not skip, whether or not it kept it, so the result is that candidate when it is better and nothing otherwise |
| Data.ScanKeeps | utils/data.py:155-172 | the loop keeps candidates in their order, and only candidates that pass its tests |
| Data.KeepsEligible | utils/data.py:156-168 | a candidate is kept exactly when its identity differs from the product's, it has a name and a grade, and its ordinal is strictly lower |
| Data.SortByValueCorrect | utils/data.py:175 | the sort by ordinal is a permutation, non-decreasing, and stable: products with equal ordinals keep their order |
| Data.AlternativesOfPositive | utils/data.py:152-177 | for a positive limit, the result is the first `max_results` eligible candidates, sorted by ordinal |
| Data.AlternativesOfNonPositive | utils/data.py:171-177 | for a limit of zero or below, the final slice leaves nothing |
| Data.AlternativesOfProperties | utils/data.py:152-177 | the result has at most `max(0, max_results)` products, is sorted by ordinal, is a sub-multiset of the candidates, and holds only eligible candidates |
| Data.BestGradeHasNoAlternatives | utils/data.py:139-169 | a product graded A has no alternatives |
| Data.FindAlternatives | utils/data.py:115-179 | the method with the loop computes exactly what `Alternatives` specifies: the term, the query for 50 products sorted by grade, the loop, the sort and the slice |
| Data.AlternativesProperties | utils/data.py:115-179 | every alternative returned is strictly better graded, named, graded and not the product itself; there are at most `max_results`, sorted; an empty term, a failed search and a missing product list give []; a term error is passed on and a `null` product list raises TypeError |
| Products.NutriscoreValue | utils/data.py:106-112 | the ordinal is 1 to 5 or 99, and 99 for a missing, null or empty grade |
| Products.GradeOrdinalTable | utils/data.py:111-112 | the table maps A to E onto 1 to 5, and any other key onto 99 |
| Products.NutriscoreValueLetter | utils/data.py:106-112 | a grade has ordinal k in 1 to 5 exactly when, stripped, it is the k-th letter in upper or lower case |
| Products.NutriscoreValueOther | utils/chatbot.py:145-151 | every other grade string, and a missing or null grade, has ordinal 99 |
| Products.NutriscoreValueSpaced | utils/chatbot.py:149-151 | an example: the grade `" e\n"` has ordinal 5 (the general fact is `NutriscoreValueLetter`) |
| Products.OrEmpty | utils/data.py:24-25 | `get(key, "") or ""` is the string when it is present and non-empty, and "" otherwise |
| Products.Identity | utils/data.py:152 | the identity is the code when it is truthy; otherwise it is the `_id` string when that key holds one, and `None` when it does not |
| Text.StripUpper | utils/data.py:110 | upper-casing then stripping is the same as stripping then upper-casing |
| Text.WordsEmpty | utils/data.py:133 | `split()` gives no words exactly when the string is all whitespace |
| Text.LastWordAgrees | utils/data.py:133 | the last element of `split()` is the last run of non-whitespace characters |
| Text.RemoveAllAbsent | utils/data.py:128 | `replace(pat, "")` leaves a string without `pat` unchanged |
| Text.FirstSegment | utils/data.py:131-133 | `split(",")[0]` is a prefix that holds no comma and is followed by a comma or the end of the string, that is the text before the first comma |
| Text.NatToStringRoundTrip | utils/chatbot.py:105-114 | the decimal rendering of a candidate's number reads back as that number |
| Seqs.FilterMultiset | utils/data.py:100 | a filtering comprehension keeps every copy of an element that passes and none of one that fails |
| Seqs.SelectIsMapFilter | utils/chatbot.py:162-169 | appending `f(x)` for each kept `x` gives `f` mapped over the kept elements in order |
| Seqs.SortByCorrect | utils/data.py:175 | sorting by a key is a permutation, ordered by the key, and stable |
| Seqs.PySlice | utils/data.py:177 | `s[:n]` is a prefix of length `min(n, len(s))` for `n >= 0`, and of length `max(0, len(s) + n)` for negative `n` |
| Chatbot.PrimaryModel | utils/chatbot.py:14-15 | the value of `LITELLM_MODEL_PRIMARY` when it is set, and "groq/llama-3.1-8b-instant" otherwise |
| Chatbot.Call | utils/chatbot.py:36-45 | the completion request: the given model and messages, temperature 0.4 and the token limit |
| Chatbot.ChatTranscript | utils/chatbot.py:82-92 | the messages `chat_with_user` sends; stated by `ChatMessages` |
| Chatbot.CandidateEntry | utils/chatbot.py:106-117 | one numbered entry of the candidate listing, with the defaults `Produit sans nom`, `Marque inconnue`, `?` |
| Chatbot.CandidateListing | utils/chatbot.py:104-117 | the entries of the first five candidates numbered from 1; stated by `CandidatesText` and the `CandidateListing` lemmas |
| Chatbot.RecommendTranscript | utils/chatbot.py:119-133 | the system message and the user message that embeds the product and the listing |
| Chatbot.Bullet | utils/chatbot.py:163-169 | the bullet of one recommended candidate |
| Chatbot.Recommendations | utils/chatbot.py:161-169 | the bullets of the better candidates among the first five; stated by `FallbackBullets` |
| Chatbot.FallbackText | utils/chatbot.py:154-174 | `_generate_fallback_recommendation`; stated by `GenerateFallback` and the `Fallback` lemmas |
| Chatbot.BaseMessages | utils/chatbot.py:24-33 | the messages are the system message followed by the extra messages, if any |
| Chatbot.ChatMessages | utils/chatbot.py:80-92 | the system prompt, then every history message in order, then the user's message: `len(history) + 2` messages |
| Chatbot.ChatWithUser | utils/chatbot.py:80-94 | the answer is the model's reply to exactly that transcript, for the primary model with 512 tokens |
| Chatbot.CandidatesText | utils/chatbot.py:104-117 | the loop builds the numbered listing of the first five candidates |
| Chatbot.CandidateListingNumbering | utils/chatbot.py:105-117 | the (k+1)-th entry of the listing is candidate k, numbered k+1, with the entries before and after it in order |
| Chatbot.CandidateListingFirstFive | utils/chatbot.py:105 | candidates past the fifth do not change the listing |
| Chatbot.GenerateFallback | utils/chatbot.py:154-174 | the loop builds the fallback text from the better candidates among the first five |
| Chatbot.FallbackWithoutCandidates | utils/chatbot.py:156-157 | no candidates give the "no alternative found" message |
| Chatbot.FallbackNoBetter | utils/chatbot.py:159-174 | with candidates, the "no better Nutri-Score" message appears exactly when none of the first five is strictly better graded |
| Chatbot.FallbackBullets | utils/chatbot.py:161-172 | when one of the first five is better, the text is the header followed by the bullets joined by blank lines; the bullets are exactly those of the better candidates among the first five, one each, in candidate order |
| Chatbot.RecommendationsExact | utils/chatbot.py:161-169 | the bullets are `Bullet` mapped over the strictly better candidates among the first five, in order |
| Chatbot.RecommendationsCover | utils/chatbot.py:161-169 | there are at most five bullets, and one for every strictly better candidate among the first five |
| Chatbot.FallbackBestGrade | utils/chatbot.py:159-174 | the fallback for a product graded A is always the "no better Nutri-Score" message |
| Chatbot.FallbackSingle | utils/chatbot.py:161-172 | one better candidate gives the header followed by its bullet |
| Chatbot.RecommendAlternatives | utils/chatbot.py:97-142 | the model's reply to the recommendation transcript with 800 tokens is returned; when the model raises, the fallback text is returned |

## Left out

- `analyze_product` (`utils/chatbot.py:48-77`) is not part of this model. It fills a prompt with Python's `repr` of the nutriments and additives and returns the model's answer unchanged.
- Default arguments `page_size=20` (`utils/data.py:11`, `utils/data.py:74`) and `max_results=10` (`utils/data.py:115`) are explicit parameters of `BuildSearchParams`, `SearchProducts`, `Alternatives` and `FindAlternatives`.
- `_get_model_secondary` is not part of this model; nothing in the core calls it.
- `app.py` and `utils/charts.py` are not part of this model. They hold the Streamlit interface and the charts.
- The network is not modelled: the HTTP requests are the `Catalog` functions. The timeouts, `raise_for_status` and JSON decoding are folded into the reply's `Failed` cases.
- The language model is not modelled: it is the `llm` parameter. Temperature 0.4 and the token limits are recorded in the `LlmCall` value but not interpreted. A reply without content is not modelled.
- Data.SearchProducts: exceptions other than `RequestException` are not modelled, for instance a JSON body that is not an object.
- Data.ProductByBarcode: `status` values equal to 1 that are not the integer 1 (such as `1.0` or `True`) are not modelled. An empty product object is folded into "no product".
- Data.ApplyFilters: the model does not cover a `filters` dictionary whose caps are present with value `None`, which raises TypeError in Python. It does not cover flags that are not booleans, non-numeric nutrient values, or a `nutriments` that is itself `null`.
- Products.Product: fields of an unexpected JSON type are outside the type of the record. Examples are a non-string grade passed through `str()`, or a list for `labels`.
- Text.IsDigit: `str.isdigit` is modelled on the ASCII digits only; Python also accepts other Unicode digits.
- Text.Upper: `str.upper` and `str.lower` are modelled on ASCII and Latin-1 only; whitespace follows Python's full `isspace` set.
- Chatbot.ChatMessages: history entries without a `role` or `content` key (a KeyError in Python) cannot occur, because `Message` always has both.
- Chatbot.CandidateEntry: how Python prints a float in an f-string is the `render` parameter. Only the rest of the text is modelled.
- Data.FindAlternatives: `alternatives.sort(...)` changes the list in place. The model computes the sorted list as a value, with a stable insertion sort that has the same result as Python's stable sort.
