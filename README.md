# kitchen-ai in Dafny

This project is a Dafny model of the deterministic core of kitchen-ai, a
recipe assistant. The assistant is made of a React client and two
interchangeable API servers that wrap Google's Gemini and Imagen models: an
Express server (`server/index.js`) and a FastAPI server (`server/app/`).

What the model covers, and where it lives:

- **wrappers.dfy, json.dfy, text.dfy** define parsed JSON values and read
  them the two ways the code base does: Python's `.get`/`[0]`, which raise on
  the wrong shape, and JavaScript's `?.`, which yields `undefined` instead.
  They also hold JavaScript `String(v)`, Python's and JavaScript's whitespace
  sets, `strip()`/`trim()`, `s[:n]`, left-to-right removal of a literal, the
  code-fence removal and the client's case mappings.
- **retry.dfy** models the retry-with-backoff client in both forms. The
  upstream is an oracle: the k-th call of an invocation gets `up(k)`. Sleeps
  are recorded in milliseconds. Each loop is a method proved equal to one
  specification function, `RunFrom`, and the attempt counts, the doubling
  schedule and the split between returning null and raising are lemmas about
  `RunFrom`.
- **image_chain.dfy** models the image fallback chain. It holds the four
  per-provider extractors (Python and JavaScript, Imagen and Gemini), the
  two servers' chains in their different orders, and the first-success loop.
- **express.dfy** models the Express server's own state and routes. The
  ephemeral image store is a class with the map, the insertion times, the
  pending deletion timers and an explicit clock. It also holds GET
  `/api/image/:id`, POST `/api/image` and the fence cleaning of the text
  routes.
- **validation.dfy** models `sanitize_text` and every field validator of the
  FastAPI request models, with the limits of `server/app/config.py`.
- **routes.dfy** models the FastAPI helpers (`_target_lang`, `_safe_diet`,
  `_clean_json_text`), the text extraction of `generate_text`, and every
  handler's branches. Those are: the 500 for a missing key, the 502 for empty
  model text, list wrapping, the `{}`/`[]` defaults and the image route's
  prompt precedence.
- **recipe_id.dfy** models recipe ids. The UTF-8 encoding of a title
  (RFC 3629) is written in standard base64 without padding (section 4 of
  RFC 4648), and a URL-safe variant uses the alphabet of section 5. Both
  round trips are proved, so distinct titles get distinct ids.
- **recipe_normalize.dfy** models `normalizeRecipeData`. This covers
  `cleanStr` with its two anchored regular expressions (each proved equal to
  a declarative description of what it matches), `findMacro`, the list
  cleaning and the field defaults.
- **ingredient.dfy** models `normalizeIngredient`.
- **recipe_store.dfy** models `useRecipeStore` as a class. It keeps a
  duplicate-free list of normalised ingredients, a clamped step cursor and
  the state resets of `generateRecipe`, `selectRecipe` and
  `resetRecipeView`.
- **favorites.dfy** models `useFavorites`: the guest and cloud list updates,
  the snapshot rule, `isFavorite` and the rule that picks the list on show.
- **suggestions.dfy** models `useSuggestions`: the filter, sort and slice
  that compute the suggestions, and the `showSuggestions` flag.

Outside inputs become parameters:

- HTTP answers are an `up: nat -> Attempt` oracle.
- `json.loads`/`JSON.parse` is a `parse` oracle.
- `crypto.randomBytes(16)` is a `bytes` parameter.
- `Date.now()` is `now`/`later`.
- The dictionary is a sequence and `localeCompare` is an order `leq`.
- Cloud writes are a `writeOk` flag.

## Model

| member | source | states |
|---|---|---|
| Json.Lookup | server/app/google_ai.py:128-132 | a key is found exactly when some member has it, and the value found is stored under that key |
| Json.PyGet | server/app/google_ai.py:97-100 | `.get` succeeds exactly on a dict (AttributeError otherwise); it yields the key's (first) value when present and the default for a missing key |
| Json.PyFirst | server/app/google_ai.py:97-99 | `[0]` succeeds exactly on a non-empty list or string, yielding its first item or first character; an empty one raises IndexError and a dict KeyError |
| Json.JsOptGet | server/index.js:169 | `?.key` on an object is the key's (first) value, or undefined when absent; on anything else it is undefined |
| Json.JsOptFirst | server/index.js:169 | `?.[0]` of null or undefined is undefined; otherwise the first array item, the first code unit of a string, or member "0" of an object, and undefined for an empty array or string, a number or a boolean |
| Json.NatToString | src/utils/recipe.ts:19 | `String(n)` of a natural number is a non-empty string of decimal digits with no leading zero, and its digits spell n back |
| Text.TrimStart | server/app/models.py:27 | only leading whitespace is dropped, and what remains does not start with whitespace |
| Text.TrimEnd | server/app/models.py:27 | only trailing whitespace is dropped, and what remains does not end with whitespace |
| Text.Trim | server/app/models.py:27 | `strip()`/`trim()` yields text that neither starts nor ends with whitespace |
| Text.TrimKeeps | server/app/models.py:27 | the trimmed text keeps every property all characters of the input have |
| Text.TrimIsInfix | server/app/models.py:27 | the trimmed text is a contiguous infix of the input |
| Text.TrimOfTrimmed | server/app/models.py:27 | text without surrounding whitespace is its own trim |
| Text.TrimIdempotent | server/app/models.py:27 | trimming twice is trimming once |
| Text.TrimEmptyIffBlank | src/utils/ingredient.ts:2-3 | the trim is empty exactly when every character is whitespace |
| Text.Truncate | server/app/models.py:64 | `s[:n]` is the prefix of length min(\|s\|, n) |
| Text.RemoveAll | server/app/routes.py:49 | removing a literal never lengthens the text |
| Text.RemoveAllAbsent | server/app/routes.py:49 | text without an occurrence of the literal is returned unchanged |
| Text.RemoveAllSkipsMatch | server/app/routes.py:49 | an occurrence at the front is dropped and the scan continues after it |
| Text.RemoveAllKeepsHead | server/app/routes.py:49 | a first character that cannot start an occurrence is kept and the scan continues after it |
| Text.RemoveAllKeepsPrefix | server/app/routes.py:49 | a front none of whose characters can start an occurrence is kept as it is |
| Text.FenceFreeHasNoFence | server/app/routes.py:49 | text with no three consecutive backticks does not contain "```" |
| Text.ConsKeepsFenceFree | server/app/routes.py:49 | putting a character in front of fence-free text creates no fence unless it completes a leading "``" |
| Text.RemoveFenceLeavesNone | server/app/routes.py:49 | after every "```" is removed left to right, no "```" remains |
| Text.FenceFreeInfix | server/app/routes.py:49 | every infix of fence-free text is fence-free |
| Text.RemoveAllFenceFree | server/app/routes.py:49 | removing "```json" or "```" from fence-free text changes nothing |
| Text.TrimKeepsFenceFree | server/app/routes.py:49 | trimming keeps text fence-free |
| Text.StripFences | server/app/routes.py:49 | both removals leave no "```", never lengthen the text, and leave text without backticks unchanged |
| Text.StripFencesUnwraps | server/app/routes.py:49 | "```json" + s + "```" with s free of backticks becomes exactly s |
| Text.Lower | src/hooks/useSuggestions.ts:15 | lower-casing maps every character and keeps the length |
| Text.CaseMapsFixpoints | src/utils/ingredient.ts:4 | upper- and lower-casing are idempotent and neither creates nor removes whitespace |
| Retry.Backoff | server/index.js:46-59 | the schedule of n doubling sleeps: the k-th is delay·2^k |
| Retry.After | server/index.js:47-70 | the calls and sleeps already made, placed in front of the trace of the remaining attempts |
| Retry.AfterSleep | server/index.js:58-60 | one sleep moves from the remaining trace into what was already done |
| Retry.FetchWithRetryExpress | server/index.js:45-72 | the JavaScript loop's outcome, call count and sleeps are exactly those of the specification `RunFrom` from attempt 0 |
| Retry.FetchWithRetryFastApi | server/app/google_ai.py:26-71 | the Python loop's outcome, call count and sleeps are exactly those of `RunFrom` from attempt 1 |
| Retry.CallsWithinBudget | server/index.js:47-71 | at most maxRetries calls. With maxRetries ≤ 0 there is no call and the result is null. At most one sleep per call, and a sleep after the last call only when the budget ran out with null |
| Retry.SleepsDouble | server/index.js:46-59 | the k-th sleep is the starting delay times 2^k |
| Retry.InvocationBounds | server/app/google_ai.py:35-55 | a whole invocation makes at most max(0, max_retries) calls and sleeps 1000·2^k ms the k-th time |
| Retry.FirstSuccessReturned | server/index.js:50 | transient failures followed by a 2xx JSON body: that body is returned after k+1 calls and k doubling sleeps, and no call follows |
| Retry.DoubleDelay | server/index.js:59 | doubling the delay shifts the schedule by one step |
| Retry.BackoffStep | server/index.js:58-59 | a sleep of `delay`, then the schedule from 2·delay, is the schedule from `delay` |
| Retry.AllTransientStatusesGiveNull | server/index.js:57-71 | every attempt a 429 or 5xx: n calls, n sleeps (one after the last call too), and null rather than an exception |
| Retry.AllNetworkErrorsRaise | server/app/google_ai.py:61-69 | every attempt a network error: n calls, n−1 sleeps, then the error propagates |
| Retry.NetworkFailureOnlyOnLastAttempt | server/index.js:64-69 | a network error is raised only from the last attempt, and only when that attempt failed that way |
| Retry.NonRetryableStopsAtOnce | server/index.js:57-63 | a status that is neither 2xx, 429 nor ≥500 returns null after that one call, with no sleep |
| Retry.DialectsAgreeOnWellFormedBodies | server/app/google_ai.py:38-71 | where every 2xx body is valid JSON, the two servers' loops behave identically |
| Retry.MalformedBodyDiverges | server/app/google_ai.py:43-44 | a 2xx with a body that is not JSON: the Express loop retries it, the Python loop raises at once |
| ImageChain.ImagenPy | server/app/google_ai.py:150-154 | falsy data gives None and a non-dict raises. On a well-formed response the image is the first prediction's `bytesBase64Encoded` with MIME image/png when that is truthy, and None otherwise |
| ImageChain.ScanPartsLoop | server/app/google_ai.py:127-134 | the loop over parts returns exactly what the recursive specification `ScanParts` does |
| ImageChain.ScanPartsFindsFirst | server/app/google_ai.py:127-134 | the first part with a non-empty `inlineData.data` is returned when every earlier part can be passed over. None when every part can be passed over. An exception at the first part that is neither |
| ImageChain.GeminiImagePy | server/app/google_ai.py:119-134 | falsy data gives None, a non-dict raises, no `candidates` gives None, and on a well-formed response the result is the loop over its parts |
| ImageChain.ImagenJs | server/index.js:400-401 | nothing from a null response. On a well-formed response the image is the first prediction's `bytesBase64Encoded` with MIME image/png when that is truthy, and nothing otherwise |
| ImageChain.ImagenReadersAgree | server/index.js:400-401 | on a well-formed response with a string payload the JavaScript and Python readers give the same image |
| ImageChain.FindInline | server/index.js:419-421 | `find` yields an element with a truthy `inlineData`, and undefined exactly when it can pass over every element |
| ImageChain.FindInlineFindsFirst | server/index.js:419-421 | `find` yields the first element with a truthy `inlineData`, undefined when it passes over every element, and throws at a null element it reaches first |
| ImageChain.InlineImage | server/index.js:422-424 | an image exactly when the part's `inlineData.data` is truthy, with a truthy MIME type |
| ImageChain.GeminiImageJs | server/index.js:419-424 | an image has a truthy base64 and MIME type. On a well-formed response the result is the image of the part `find` returns, and `find`'s exception propagates |
| ImageChain.GeminiJsFindsFirst | server/index.js:419-424 | on a well-formed response the image of the first part with a truthy `inlineData` is taken. Nothing when no part has one, and an exception at a null part reached first |
| ImageChain.NoneFoundExtend | server/index.js:438-445 | one more strategy without an image extends the run of failures |
| ImageChain.FirstFound | server/index.js:436-445 | the index of the first strategy that finds an image: every strategy before it finds none, and it finds one unless it is past the end of the chain |
| ImageChain.FirstSuccess | server/index.js:436-445 | strategies are tried strictly in order and the first image is returned. Later strategies are never invoked. There is an image exactly when some strategy finds one, and with none found every strategy was invoked. The image comes from the FirstFound strategy, after exactly that many plus one invocations |
| ImageChain.FailuresAreNotSuccesses | server/app/google_ai.py:166-172 | a strategy whose call raised, gave null or gave an error status never counts as a success. An exception counts as a failure |
| ImageChain.ChainsDifferOnlyInOrder | server/index.js:428-433 | both servers hold the same four strategies. JavaScript starts with Imagen and Python with Gemini |
| ImageChain.GeminiPyTakesSecondPart | server/app/google_ai.py:127-133 | the Python loop skips a part whose `data` is empty and takes the next one |
| ImageChain.GeminiJsStopsAtFirstPart | server/index.js:419-424 | on the same response the JavaScript `find` stops at that first part and yields no image |
| Express.Hex | server/index.js:30 | the id is two lower-case hex digits per random byte: 32 characters for 16 bytes |
| Express.DigitValueHexDigit | server/index.js:30 | each hex digit reads back as the nibble it was written from |
| Express.UnhexHex | server/index.js:30 | reading the id back gives the random bytes |
| Express.HexInjective | server/index.js:30 | distinct random bytes give distinct ids |
| Express.ExpiredSnoc | server/index.js:32 | one more due timer adds exactly its id to the set of expired ids |
| Express.ExpiredSortedPrefix | server/index.js:27-32 | timers scheduled with one TTL fall due in scheduling order, so the timers due at t are a prefix |
| Express.SuffixStillDue | server/index.js:27-32 | after the due prefix fires, the remaining timers are due within one TTL of the new clock, in order |
| Express.SurvivorsKeepTimers | server/index.js:31-32 | an id not yet deleted still has the deletion its last store scheduled |
| Express.FiringKeepsInvariant | server/index.js:26-32 | firing the due timers keeps the store invariant and removes every id stored ten minutes or more ago |
| Express.StoreKeepsInvariant | server/index.js:29-33 | storing an entry and scheduling its deletion keeps the store invariant |
| Express.FireOne | server/index.js:32 | firing the next due timer removes its id from the entries |
| Express.ImageStore.constructor | server/index.js:26 | the store starts empty, with no pending deletion |
| Express.ImageStore.Store | server/index.js:29-34 | `storeImage` returns a 32-hex-digit id, sets the entry under it, schedules its deletion ten minutes ahead and keeps the invariant |
| Express.ImageStore.Advance | server/index.js:32 | moving the clock fires every deletion due by then, and only those. Nothing stored ten minutes or more ago remains |
| Express.ImageStore.Lookup | server/index.js:38 | an id is found exactly when present, and a present entry is younger than ten minutes |
| Express.ImageStore.Get | server/index.js:37-43 | the stored payload with its MIME type and `public, max-age=600`, or 404 "expired or not found" exactly for an absent id |
| Express.StoreThenAdvance | server/index.js:25-43 | a stored image can be fetched under its id exactly until its ten minutes are up, and 404 after |
| Express.FinalPrompt | server/index.js:384-387 | a string prompt with non-blank trim gives exactly `prompt.trim()`: non-empty, no surrounding whitespace, an infix of the prompt. Otherwise the template, which names the title |
| Express.FinalPromptIgnoresTitle | server/index.js:384-387 | when the prompt wins, the title has no effect on the text sent |
| Express.RespondWithImage | server/index.js:447-457 | when `Buffer.from` throws on the image's data, the route's 500 and an untouched store. Otherwise the exact data URL and image URL, the entry stored under the fresh id, its insertion time the current time and its deletion scheduled ten minutes later; the clock does not move |
| Express.ServeImage | server/index.js:435-463 | `imageBase64: null` exactly when no strategy of the Express chain finds an image, after all four were tried. Otherwise the first strategy that finds one is the last one invoked, and its image decides between the 500 and the stored answer as in RespondWithImage |
| Express.PostImage | server/index.js:376-466 | 500 without a key and 400 without a truthy title or prompt. Otherwise `imageBase64: null` exactly when no strategy finds an image for the final prompt, 500 when `Buffer.from` throws on the first image, and else that image as a data URL and a stored entry under a fresh id, its insertion time recorded as the current time and its deletion scheduled ten minutes later |
| Express.RawText | server/index.js:215-216 | the text is truthy or "", and "" for a null response |
| Express.RawTextReadsFirstPart | server/index.js:215-216 | a well-formed response yields its first candidate's first part's text when truthy, else "" |
| Express.CleanedText | server/index.js:215-220 | an exception exactly when the text is not a string. The cleaned text has no three consecutive backticks and no surrounding whitespace, and text without backticks is only trimmed |
| Express.CleanedTextHasNoFence | server/index.js:215-220 | no "```" occurs anywhere in the cleaned text |
| Express.CleanedTextUnwraps | server/index.js:215-220 | a reply "```json" + s + "```" is cleaned to the trimmed s |
| Validation.StripControls | server/app/models.py:20-27 | removing the control characters leaves none and never lengthens the text |
| Validation.StripControlsAppend | server/app/models.py:20-27 | the substitution keeps exactly the non-control characters in order: it distributes over concatenation |
| Validation.StripControlsOfControlFree | server/app/models.py:20-27 | text without control characters is left as it is |
| Validation.Sanitize | server/app/models.py:23-27 | the output has no control characters, no surrounding whitespace and is no longer than the input |
| Validation.SanitizeValue | server/app/models.py:25-26 | a value that is not a string sanitises to "" |
| Validation.SanitizeOfClean | server/app/models.py:27 | a control-free string with no surrounding whitespace is left unchanged by sanitising |
| Validation.SanitizeIdempotent | server/app/models.py:27 | sanitising twice is sanitising once |
| Validation.SanitizeEmptyIffBlank | server/app/models.py:27 | the output is empty exactly when every character is a control or whitespace character |
| Validation.StripBlank | server/app/models.py:20-27 | what remains after stripping is all whitespace exactly when every character was control or whitespace |
| Validation.CleanItem | server/app/models.py:64 | one item is `sanitize(i)[:100]`: the prefix of the sanitised text of length min(100, its length), control-free, empty exactly when it sanitises to "" |
| Validation.CleanIngredients | server/app/models.py:63-67 | at most as many items as given, each non-empty, at most 100 characters and free of control characters; with CleanIngredientsSingle and CleanIngredientsAppend, the list is CleanItem of each item that sanitises to non-empty text, in order |
| Validation.CleanIngredientsAppend | server/app/models.py:63-67 | the comprehension maps item by item and keeps the order |
| Validation.CleanIngredientsSingle | server/app/models.py:64-66 | an item is dropped exactly when it sanitises to "", and kept cut to 100 otherwise |
| Validation.CleanIngredientsEmptyIff | server/app/models.py:68-69 | the cleaned list is empty exactly when every item sanitises to "" |
| Validation.ValidateIngredients | server/app/models.py:58-70 | an empty list is rejected with "ingredients are required" and one of more than 50 with "Max 50 ingredients allowed". A list of 1 to 50 items is accepted exactly when some item sanitises to non-empty, and is then the cleaned list; otherwise it is rejected with "ingredients are required (non-empty)" |
| Validation.ValidateTitle | server/app/models.py:102-106 | accepted exactly when the sanitised title has 1 to 200 characters. It is then returned sanitised and never truncated |
| Validation.ValidateBase64 | server/app/models.py:39-42 | accepted unchanged exactly when at most 16·1024·1024 characters long |
| Validation.ValidateMime | server/app/models.py:46-49 | accepted unchanged exactly when one of the four allowed image types |
| Validation.SanitizeOptional | server/app/models.py:144-146 | None passes through; text is sanitised and cut to the limit |
| Validation.ValidatePrompt | server/app/models.py:141-146 | None passes through, and text becomes its sanitised form cut to 500 |
| Validation.ValidateRecipeTitle | server/app/models.py:148-153 | None passes through, and text becomes its sanitised form cut to 200 |
| Validation.ValidatePromptStable | server/app/models.py:141-146 | validating a prompt that was not cut a second time changes nothing |
| Routes.TargetLang | server/app/routes.py:39-40 | "Russian" exactly when the language is "ru", "English" otherwise |
| Routes.SafeDiet | server/app/routes.py:43-44 | None or "" gives "none". Otherwise the prefix of the sanitised diet of length min(30, its length), control-free |
| Routes.DietContext | server/app/routes.py:201-231 | the diet sentence is empty exactly when the safe diet is "none", and otherwise contains it |
| Routes.CleanJsonText | server/app/routes.py:47-49 | the cleaned text has no three consecutive backticks and no surrounding whitespace, is no longer than the input, and text without backticks is only stripped |
| Routes.CleanJsonTextHasNoFence | server/app/routes.py:47-49 | no "```" occurs anywhere in the cleaned text |
| Routes.CleanJsonTextUnwraps | server/app/routes.py:47-49 | a reply "```json" + s + "```" is cleaned to the stripped s |
| Routes.CleanJsonTextIdempotent | server/app/routes.py:47-49 | cleaning twice is cleaning once |
| Routes.GenerateText | server/app/google_ai.py:96-103 | a None or falsy response gives "", and an exception of the retry client propagates |
| Routes.GenerateTextReadsFirstPart | server/app/google_ai.py:96-100 | a well-formed response yields its first candidate's first part's text |
| Routes.Loads | server/app/routes.py:90 | a string is decoded by the parser, and anything else raises |
| Routes.ModelText | server/app/routes.py:90 | the model text is a non-empty string exactly when `generate_text` returned one |
| Routes.AsObject | server/app/routes.py:101 | a returned value passes `-> dict[str, Any]` exactly when it is an object, otherwise the global handler's 500 |
| Routes.AsObjectList | server/app/routes.py:131 | a returned value passes `-> list[dict[str, Any]]` exactly when it is a list of objects, otherwise the global handler's 500 |
| Routes.ListOrWrapped | server/app/routes.py:151-152 | a list of objects is returned, an object is wrapped into a one-element list, and anything else fails the annotation |
| Routes.ObjectOrEmpty | server/app/routes.py:184-185 | an object is returned, a falsy value becomes `{}`, and a truthy non-object fails the annotation |
| Routes.CleanedReply | server/app/routes.py:111-124 | 500 without a key, 502 exactly for empty model text, 500 for a failed call, a non-string text or a decode error, else the decoded fence-cleaned text |
| Routes.RequireApiKey | server/app/routes.py:34-36 | 500 "Missing GEMINI_API_KEY" exactly when the key is empty |
| Routes.Vision | server/app/routes.py:71-94 | 500 without a key. Empty text gives `{"ingredients": []}`, a decoded list is returned under `ingredients`, any other decoded value gives `[]` there, and a failed call, a non-string text or a decode error is a 500 |
| Routes.Recipe | server/app/routes.py:99-124 | 500 without a key, 502 exactly for empty model text. A decoded object of the fence-cleaned text is the answer, another decoded value fails the annotation, and a failed call, a non-string text or a decode error is a 500 |
| Routes.Recipes | server/app/routes.py:129-157 | the 502 and 500 rules as for a single recipe. A decoded list of objects is the answer, a decoded object is wrapped into a list, and anything else fails the annotation |
| Routes.RecipeDetail | server/app/routes.py:162-190 | the 502 and 500 rules as for a single recipe. A decoded object is the answer, a falsy decoded value becomes `{}`, and a truthy non-object fails the annotation |
| Routes.MealPlan | server/app/routes.py:195-220 | never 502, and empty text gives `[]`. A decoded list of objects is the answer, a decoded non-list gives `[]`, a list holding a non-object fails the annotation, and failures are a 500 |
| Routes.Drinks | server/app/routes.py:225-247 | never 502, and empty text gives `{}`. A decoded object is the answer, any other decoded value fails the annotation, and failures are a 500 |
| Routes.NoBadGatewayWithoutCheck | server/app/routes.py:216-244 | the meal-plan and drinks handlers never answer 502 |
| Routes.SafeTitle | server/app/routes.py:260 | the safe title is the control-free prefix of the sanitised title of length min(200, its length), and "" without a title |
| Routes.FinalPrompt | server/app/routes.py:261-265 | a non-empty prompt gives its prefix of length min(500, its length). Otherwise the template, which names the safe title |
| Routes.FinalPromptIgnoresTitle | server/app/routes.py:261-265 | when the prompt wins, the title has no effect on the text sent |
| Routes.Image | server/app/routes.py:252-274 | 500 without a key and 400 when both fields are empty. Otherwise `imageBase64: None` exactly when no strategy of the Gemini-first chain finds an image for the final prompt, and else the first image found, as a data URL |
| RecipeId.Utf8Char | src/utils/recipe.ts:66 | one to four bytes, a lead byte that announces the length, then continuation bytes |
| RecipeId.Utf8 | src/utils/recipe.ts:66 | between one and four bytes per character |
| RecipeId.SixBitGroups | src/utils/recipe.ts:66 | a number split into 6-bit groups is restored when they are joined again |
| RecipeId.Utf8CharValue | src/utils/recipe.ts:66 | one character's bytes decode to that character |
| RecipeId.Utf8RoundTrip | src/utils/recipe.ts:66 | decoding the UTF-8 bytes gives the title back |
| RecipeId.Base64Char | src/utils/recipe.ts:66 | alphabet characters are never '=' |
| RecipeId.Base64Value | src/utils/recipe.ts:66 | every character has a 6-bit value |
| RecipeId.Base64ValueChar | src/utils/recipe.ts:66 | each alphabet character reads back as its value |
| RecipeId.Base64Unpadded | src/utils/recipe.ts:66-67 | ⌈4n/3⌉ characters for n bytes, none of them '=' |
| RecipeId.PaddedLength | src/utils/recipe.ts:66 | `btoa`'s padding brings the length to a multiple of four |
| RecipeId.Btoa | src/utils/recipe.ts:66 | `btoa` output has a length that is a multiple of four |
| RecipeId.StripTrailingEquals | src/utils/recipe.ts:67 | the result is a prefix without a trailing '=', and only '=' was removed |
| RecipeId.Base64Group | src/utils/recipe.ts:66 | three bytes split into four 6-bit values are restored when they are joined again |
| RecipeId.DecodeOneByte | src/utils/recipe.ts:66 | one byte's two characters decode back to it |
| RecipeId.DecodeTwoBytes | src/utils/recipe.ts:66 | two bytes' three characters decode back to them |
| RecipeId.DecodeGroupUnfold | src/utils/recipe.ts:66 | decoding four or more characters decodes one group, then the rest |
| RecipeId.DecodeGroupChars | src/utils/recipe.ts:66 | the four characters of three bytes decode to those bytes ahead of whatever follows |
| RecipeId.Base64RoundTrip | src/utils/recipe.ts:66-67 | decoding the unpadded encoding gives the bytes back |
| RecipeId.RoundTripGroup | src/utils/recipe.ts:66-67 | the inductive step of the round trip, three bytes at a time |
| RecipeId.LegacyId | src/utils/recipe.ts:65-68 | the legacy id is exactly the unpadded standard base64 of the title's UTF-8 bytes |
| RecipeId.LegacyIdInjective | src/utils/recipe.ts:65-68 | distinct titles have distinct legacy ids |
| RecipeId.SafeId | src/utils/recipe.ts:70-73 | the safe id has the legacy id's length with '+' as '-' and '/' as '_', and contains none of '+', '/', '=' |
| RecipeId.SafeIdInjective | src/utils/recipe.ts:70-73 | distinct titles have distinct safe ids |
| RecipeId.Base64Chars | src/utils/recipe.ts:66 | the standard encoding contains neither '-' nor '_' |
| RecipeId.Candidates | src/utils/recipe.ts:75-79 | the safe id comes first and the legacy id is among the candidates. There is one candidate exactly when the legacy id has no '+' or '/' |
| RecipeId.CandidatesSeparateTitles | src/utils/recipe.ts:75-79 | no id is a candidate of two different titles |
| RecipeNormalize.Skip | src/utils/recipe.ts:22-23 | the scan stops at the end or at the first character outside the class |
| RecipeNormalize.SkipRun | src/utils/recipe.ts:22-23 | every character the scan passes over is in the class |
| RecipeNormalize.SkipUnique | src/utils/recipe.ts:22-23 | a maximal run of class characters is what the scan finds |
| RecipeNormalize.StepPrefix | src/utils/recipe.ts:22 | a match is never longer than the text |
| RecipeNormalize.StepPrefixShape | src/utils/recipe.ts:22 | a match is "step" (any case), spaces, digits, spaces, ':' and maximal spaces |
| RecipeNormalize.StepShapeFound | src/utils/recipe.ts:22 | a prefix of that shape is always matched, and matched whole when its trailing spaces are maximal |
| RecipeNormalize.StepPrefixMatches | src/utils/recipe.ts:22 | the matcher finds exactly the "Step N:" prefix with greedy trailing spaces, and nothing when no prefix has the shape |
| RecipeNormalize.NumberPrefix | src/utils/recipe.ts:23 | a match is never longer than the text |
| RecipeNormalize.NumberPrefixMatches | src/utils/recipe.ts:23 | the matcher finds exactly the "N." or "N)" prefix with greedy trailing spaces, and nothing when no prefix has the shape |
| RecipeNormalize.DropMatch | src/utils/recipe.ts:22-23 | removing an anchored match leaves the text after it; no match leaves the text unchanged |
| RecipeNormalize.CleanText | src/utils/recipe.ts:21-24 | the cleaned string has no surrounding whitespace; which prefixes it drops is stated by CleanTextPlain, CleanTextDropsStep, CleanTextDropsNumber and CleanTextDropsStepThenNumber |
| RecipeNormalize.CleanTextPlain | src/utils/recipe.ts:21-24 | text that starts with neither "step" nor a digit is only trimmed |
| RecipeNormalize.CleanTextDropsStep | src/utils/recipe.ts:22-24 | a "Step N:" prefix not followed by a number is removed, and the rest trimmed |
| RecipeNormalize.CleanTextDropsNumber | src/utils/recipe.ts:23-24 | with no "Step N:" prefix, a numbered prefix "N." or "N)" with its following spaces is removed, and the rest trimmed ("1. Chop onions" gives "Chop onions") |
| RecipeNormalize.CleanTextDropsStepThenNumber | src/utils/recipe.ts:22-24 | a "Step N:" prefix followed by a numbered prefix loses both, and the rest is trimmed ("Step 2: 3) Stir" gives "Stir") |
| RecipeNormalize.JsOr | src/utils/recipe.ts:12-17 | `a \|\| b` is `a` when `a` is truthy and `b` otherwise; truthy exactly when either is |
| RecipeNormalize.JsCoalesce | src/utils/recipe.ts:35 | `a ?? b` is `a` when `a` is neither null nor undefined and `b` otherwise; nullish exactly when both are |
| RecipeNormalize.ObjectValues | src/utils/recipe.ts:16 | an array's items, or an object's member values in order |
| RecipeNormalize.FirstString | src/utils/recipe.ts:16 | the string at the least index holding a string (no earlier value is a string), or none exactly when there is no string |
| RecipeNormalize.PickedText | src/utils/recipe.ts:11-17 | the first truthy member among `text`, `instruction`, `name`, `desc`; without one (and always for an array) the first string value when truthy, else "" |
| RecipeNormalize.ReplaceChain | src/utils/recipe.ts:21-24 | succeeds exactly on a string, whose cleaned form has no surrounding whitespace |
| RecipeNormalize.CleanStr | src/utils/recipe.ts:7-25 | null or undefined gives ""; a string, number or boolean gives the cleaned `String(v)`; an object or array gives the cleaned picked text, and throws when that is not a string. Output has no surrounding whitespace |
| RecipeNormalize.CleanStrOfString | src/utils/recipe.ts:19-24 | a string is cleaned as it is |
| RecipeNormalize.CleanStrPrefersText | src/utils/recipe.ts:12 | an object with a non-empty string `text` is cleaned from it, whatever else it holds |
| RecipeNormalize.CleanStrThrowsOnNumber | src/utils/recipe.ts:12-21 | an object whose `text` is a non-zero number throws |
| RecipeNormalize.MacroValue | src/utils/recipe.ts:35-38 | a non-nullish `nutrition[key]` is cleaned; otherwise `data[key]` is ("" when that is nullish too); the value does not start with whitespace |
| RecipeNormalize.MacroValues | src/utils/recipe.ts:34-35 | one cleaned value per alias, in alias order |
| RecipeNormalize.FirstNonEmpty | src/utils/recipe.ts:34-41 | a macro is never "", and is '0' when every alias value is "" |
| RecipeNormalize.FindMacro | src/utils/recipe.ts:33-42 | a macro is never "". It is '0' with every alias value "", and otherwise the value of the least alias whose value is not "" (a throw included), every earlier one being "" |
| RecipeNormalize.FirstNonEmptyDefault | src/utils/recipe.ts:41 | with every alias empty, the macro is '0' |
| RecipeNormalize.FirstNonEmptyFirst | src/utils/recipe.ts:34-39 | either every value is "" and the macro is '0', or the macro is the first value that is not "", every earlier one being "" |
| RecipeNormalize.FirstNonEmptyZero | src/utils/recipe.ts:34-41 | a '0' result where no alias is literally '0' means every alias was empty |
| RecipeNormalize.ListSource | src/utils/recipe.ts:44-47 | the primary key's array, else the alias's array, else [] |
| RecipeNormalize.CleanEach | src/utils/recipe.ts:60-61 | `map(cleanStr)`: one result per item, in order |
| RecipeNormalize.KeepNonEmpty | src/utils/recipe.ts:60-61 | the kept lines are non-empty and no more than the items. It throws exactly when some item threw |
| RecipeNormalize.KeepNonEmptyAppend | src/utils/recipe.ts:60-61 | filtering keeps the source order: it distributes over concatenation |
| RecipeNormalize.KeepNonEmptySingle | src/utils/recipe.ts:61 | a cleaned line is kept exactly when it is non-empty |
| RecipeNormalize.CleanList | src/utils/recipe.ts:60-61 | the cleaned list has no empty line, and throws exactly when cleaning some item throws |
| RecipeNormalize.NonEmptyOr | src/utils/recipe.ts:50-53 | `s \|\| fallback` on strings |
| RecipeNormalize.Payload | src/utils/recipe.ts:5 | the nested `recipe` member when it is truthy, and the raw value itself otherwise |
| RecipeNormalize.RecipeHeader | src/utils/recipe.ts:50-53 | an exception exactly when one of the four fields throws. Each field is its non-empty cleaned value, else its default: the fallback title and then 'Untitled Recipe', 'AI Chef Creation', '30m', 'Normal' |
| RecipeNormalize.RecipeFields | src/utils/recipe.ts:49-62 | an exception exactly when a field throws. The macros are `findMacro` over their alias keys, calories is the first non-nullish of `nutrition.calories`, `nutrition.kcal`, `calories`, `kcal`, and 0 when every one is nullish, and the lists are the cleaned source lists with no empty line |
| RecipeNormalize.NormalizeRecipeData | src/utils/recipe.ts:3-5 | null exactly for a falsy input, else the recipe read from the payload |
| RecipeNormalize.RecipeDefaults | src/utils/recipe.ts:50-53 | missing fields give the fallback title (else 'Untitled Recipe'), 'AI Chef Creation', '30m' and 'Normal' |
| RecipeNormalize.NormalizeUnwraps | src/utils/recipe.ts:5 | a `{recipe: …}` wrapper is normalised as its content |
| RecipeNormalize.RecipeIngredientsSource | src/utils/recipe.ts:44-60 | `ingredientsList` wins over `ingredients`, and the kept lines are its cleaned lines in order |
| Ingredient.Capitalize | src/utils/ingredient.ts:4 | first character upper-cased, the rest lower-cased, same length |
| Ingredient.Normalize | src/utils/ingredient.ts:1-5 | the trimmed input with its first character upper-cased and the rest lower-cased. Empty exactly for blank input |
| Ingredient.NormalizeIsTrimmed | src/utils/ingredient.ts:2-4 | the result has no surrounding whitespace |
| Ingredient.NormalizeIdempotent | src/utils/ingredient.ts:1-5 | normalising twice is normalising once |
| RecipeStore.WellFormedIngredients | src/stores/useRecipeStore.ts:51-79 | the store's list: normalised, non-empty entries without duplicates |
| RecipeStore.WithIngredient | src/stores/useRecipeStore.ts:70-73 | the normalised text is appended exactly when non-empty and new, and nothing else changes |
| RecipeStore.Without | src/stores/useRecipeStore.ts:78 | every entry equal to the removed one goes, every other stays |
| RecipeStore.WithoutAppend | src/stores/useRecipeStore.ts:78 | the filter keeps the order of the rest: it distributes over concatenation |
| RecipeStore.WithoutAbsent | src/stores/useRecipeStore.ts:78 | removing an absent entry changes nothing |
| RecipeStore.WithoutKeepsNoDuplicates | src/stores/useRecipeStore.ts:78 | filtering never creates a duplicate |
| RecipeStore.AppendKeepsWellFormed | src/stores/useRecipeStore.ts:71-72 | appending a new, normalised, non-empty entry keeps the list well formed |
| RecipeStore.WithIngredientKeepsWellFormed | src/stores/useRecipeStore.ts:69-75 | adding keeps the list normalised and free of blanks and duplicates |
| RecipeStore.WithoutKeepsWellFormed | src/stores/useRecipeStore.ts:77-79 | removing keeps the list well formed |
| RecipeStore.WithIngredientIdempotent | src/stores/useRecipeStore.ts:69-75 | adding the same text twice is adding it once |
| RecipeStore.RemoveUndoesAdd | src/stores/useRecipeStore.ts:69-79 | removing a freshly added entry restores the list |
| RecipeStore.NextStepValue | src/stores/useRecipeStore.ts:91 | min(step+1, count−1), which is −1 for an empty recipe |
| RecipeStore.PrevStepValue | src/stores/useRecipeStore.ts:95 | max(0, step−1): never negative, never below step−1, and one of the two |
| RecipeStore.StepCursorInRange | src/stores/useRecipeStore.ts:88-96 | from a valid step both moves stay valid. The last step is fixed by `nextStep` and step 0 by `prevStep`, and only those |
| RecipeStore.StepMovesUndo | src/stores/useRecipeStore.ts:88-96 | away from the ends, forward then back (or back then forward) returns to the same step |
| RecipeStore.FirstSuggestions | src/stores/useRecipeStore.ts:119 | the first min(3, n) suggestions, in order |
| RecipeStore.Store.constructor | src/stores/useRecipeStore.ts:51-67 | the initial state: everything empty, null or false and the step at 0 |
| RecipeStore.Store.AddIngredient | src/stores/useRecipeStore.ts:69-75 | the list becomes `WithIngredient` of the old one, the input is cleared, the rest is unchanged and the list stays well formed |
| RecipeStore.Store.RemoveIngredient | src/stores/useRecipeStore.ts:77-79 | the list becomes `Without` of the old one, nothing else changes and the list stays well formed |
| RecipeStore.Store.NextStep | src/stores/useRecipeStore.ts:88-93 | the clamped next step, and no change without a recipe |
| RecipeStore.Store.PrevStep | src/stores/useRecipeStore.ts:94-96 | the clamped previous step |
| RecipeStore.Store.ToggleCookingIngredients | src/stores/useRecipeStore.ts:98 | the flag is negated |
| RecipeStore.Store.GenerateRecipe | src/stores/useRecipeStore.ts:100-124 | no change with no ingredients. Otherwise the view is cleared, the first three fetched suggestions are kept, and a failed fetch posts the localised error. Ingredients are never touched |
| RecipeStore.Store.SelectRecipe | src/stores/useRecipeStore.ts:126-157 | the step goes to 0 and meal plan and drinks are cleared. A cached image younger than an hour is reused without a fetch. Otherwise the fetched image is shown and cached, or `imageFailed` is set |
| RecipeStore.Store.ResetRecipeView | src/stores/useRecipeStore.ts:212-219 | recipe, suggestions, meal plan and drinks are cleared, and ingredients and everything else are unchanged |
| RecipeStore.AddThenRemove | src/stores/useRecipeStore.ts:69-79 | adding a new ingredient and removing it again leaves the list as it was |
| RecipeStore.ToggleTwice | src/stores/useRecipeStore.ts:98 | toggling the panel twice restores it |
| Favorites.FirstMatchFrom | src/hooks/useFavorites.ts:135-138 | `findIndex`: the first matching position, every earlier one not matching, or none when nothing matches |
| Favorites.ImageToStore | src/hooks/useFavorites.ts:145 | `recipeImage \|\| r.image \|\| null`: the store's image when it is non-empty, else the recipe's own when that is non-empty, and null exactly when both are null or empty |
| Favorites.GuestToggle | src/hooks/useFavorites.ts:134-147 | the first matching entry is removed and nothing else. With no match, exactly one entry with the first id candidate is appended at the end |
| Favorites.GuestAddMakesFavorite | src/hooks/useFavorites.ts:146-217 | after a guest add the recipe is a favourite |
| Favorites.GuestToggleTwice | src/hooks/useFavorites.ts:134-147 | toggling a recipe not in the list twice leaves the list as it was |
| Favorites.GuestToggleRemovesOnlyMatch | src/hooks/useFavorites.ts:140-217 | when only one entry matches, a toggle removes the recipe from the favourites |
| Favorites.CloudRemove | src/hooks/useFavorites.ts:166-176 | every entry with that id is removed and every other kept |
| Favorites.CloudRemoveAppend | src/hooks/useFavorites.ts:166-176 | the filter keeps the order: it distributes over concatenation |
| Favorites.CloudRemoveAbsent | src/hooks/useFavorites.ts:166-176 | removing an id no entry has changes nothing |
| Favorites.CloudAdd | src/hooks/useFavorites.ts:193-198 | the add is skipped when the id is already present, and appends the entry otherwise |
| Favorites.CloudAddIdempotent | src/hooks/useFavorites.ts:193-198 | adding twice is adding once |
| Favorites.CloudRemoveUndoesAdd | src/hooks/useFavorites.ts:174-198 | deleting what an add just wrote restores the list |
| Favorites.FirstCandidateEntry | src/hooks/useFavorites.ts:152 | the cloud entry at the least index whose string id is a candidate of the title, or none exactly when no entry's is |
| Favorites.SnapshotUpdate | src/hooks/useFavorites.ts:100-109 | a non-empty snapshot replaces the list, and an empty one clears it only when not from cache |
| Favorites.SnapshotIdempotent | src/hooks/useFavorites.ts:100-109 | a repeated snapshot changes nothing more |
| Favorites.ShouldPreferCloud | src/hooks/useFavorites.ts:43 | an account user always sees the cloud list and a present non-account user never does. With nobody signed in, the cloud list is on show exactly when a non-empty account uid is remembered |
| Favorites.NextLastAccountUid | src/hooks/useFavorites.ts:39-41 | an account user with a non-empty uid becomes the remembered uid, and in every other case the remembered uid is kept |
| Favorites.SignOutKeepsCloud | src/hooks/useFavorites.ts:39-44 | after the effect sees an account user and then the sign-out (no account, no user), that uid is still remembered, the cloud list stays on show, and a user who then appears sees the guest list |
| Favorites.FavoritesState.constructor | src/hooks/useFavorites.ts:24-26 | both lists start empty and no account uid is remembered |
| Favorites.FavoritesState.Active | src/hooks/useFavorites.ts:43-44 | the cloud list for an account user, the guest list for a present non-account user, and with nobody signed in the cloud list exactly when a non-empty uid is remembered |
| Favorites.FavoritesState.IsFavorite | src/hooks/useFavorites.ts:215-218 | exactly when some entry of the list on show has a string id among the title's candidates |
| Favorites.FavoritesState.ObserveUser | src/hooks/useFavorites.ts:39-41 | the effect remembers the account user's uid |
| Favorites.FavoritesState.ToggleGuest | src/hooks/useFavorites.ts:133-148 | the guest list becomes `GuestToggle` of the old one |
| Favorites.FavoritesState.ToggleCloud | src/hooks/useFavorites.ts:151-212 | an explicit id is deleted, else the existing candidate entry, else the first candidate is written. A failed write leaves the list alone and reports it |
| Favorites.FavoritesState.ApplySnapshot | src/hooks/useFavorites.ts:97-110 | the cloud list becomes `SnapshotUpdate` of the old one |
| Suggestions.SortedPairwise | src/hooks/useSuggestions.ts:18 | for a transitive order, adjacent order is order between every pair |
| Suggestions.Insert | src/hooks/useSuggestions.ts:18 | insertion adds exactly one element and keeps the list sorted |
| Suggestions.Sort | src/hooks/useSuggestions.ts:18 | the sorted list is a permutation of the input and is sorted |
| Suggestions.Filter | src/hooks/useSuggestions.ts:17 | exactly the dictionary entries that start with the query when lower-cased and are not already ingredients |
| Suggestions.Suggestions | src/hooks/useSuggestions.ts:13-20 | none for a blank input. Otherwise exactly min(40, number of matches) suggestions, sorted, each from the dictionary, not an ingredient and starting with the query |
| Suggestions.SuggestionsComplete | src/hooks/useSuggestions.ts:13-20 | with 40 or fewer matches, every match is suggested |
| Suggestions.SuggestionsAreLeast | src/hooks/useSuggestions.ts:18-19 | a match is left out only when all 40 places are filled, and then it comes after every suggestion shown: the 40 shown are the first after sorting |
| Suggestions.SuggestionBox.constructor | src/hooks/useSuggestions.ts:10 | the list starts hidden |
| Suggestions.SuggestionBox.Recompute | src/hooks/useSuggestions.ts:22-24 | shown exactly when the input is non-blank and there are suggestions |
| Suggestions.SuggestionBox.MouseDown | src/hooks/useSuggestions.ts:27-35 | a press outside the mounted box hides the list, and any other press changes nothing |
| Suggestions.RecomputeThenShow | src/hooks/useSuggestions.ts:13-24 | whenever the list is shown, the query is non-blank and there is a suggestion to show |

## Left out

- HTTP, timers, sleeps and randomness: requests are an oracle of answers per attempt, sleeps are recorded as durations, the deletion timer fires when the clock is advanced, and `crypto.randomBytes` is a parameter.
- `JSON.parse` / `json.loads` and `response.json()`: an oracle (a body that is not JSON is `None`); decoding itself is not modelled.
- Floating point: JSON numbers are integers, so `extractNum`/`parseFloat` (src/utils/recipe.ts:27-31) are not modelled; `calories` keeps the value the `??` chain selects.
- Full Unicode case mapping: upper- and lower-casing cover ASCII and the basic Cyrillic block, the scripts the app serves; every other character is left unchanged.
- Lone UTF-16 surrogates: titles are sequences of Unicode scalar values, so the `URIError` `encodeURIComponent` throws for a lone surrogate is not represented.
- Python's `str()` of non-string values (`str(i)` in the ingredient validator, `str(diet)`, `str(v)` in the optional validators): validators take the declared `str` fields, which pydantic has already checked.
- JSON objects keep members in enumeration order with the first occurrence of a key winning; duplicate keys after parsing are not modelled.
- `localeCompare`: an abstract total preorder `leq` over strings; the dictionary `MEGA_INGREDIENTS` is a parameter, its contents are not part of this model.
- Suggestions.Sort: proved to be a sorted permutation; the stability of `Array.prototype.sort` is not stated.
- The Express text routes (vision, recipe, recipes, recipe-detail, meal-plan, drinks) beyond their shared text extraction and fence cleaning; the FastAPI handlers cover the same branches.
- Rate limiting (`slowapi` decorators), CORS, compression, logging, `/api/health` and `/api/image-diagnostics`: framework or I/O.
- Routes.Image: the 500 branch of the Python image route is unreachable, since `generate_image` catches every strategy's exception, so it is not modelled.
- PostImage and ImageStore.Get: the stored entry keeps the base64 value read from the response; the bytes `Buffer.from(base64, 'base64')` decodes from it and that GET sends are not modelled, only whether the call throws.
- Routes.AsObject and Routes.AsObjectList: FastAPI's return-annotation check is modelled as a JSON shape test; pydantic's coercions and the serialisation of the answer are not.
- Routes handlers: the prompt text each handler sends upstream goes only to the model, so it is not part of a handler's result.
- The FastAPI vision request's `language` default and the header construction (`google_api_headers`, URL builders): configuration only.
- RecipeStore.Store.SelectRecipe: a falsy `raw` that is not null or undefined (`0`, `''`, `false`) is stored as the recipe itself by `?? raw`; the model stores `None`, which every reader of `recipe` treats the same way, since they test its truthiness.
- RecipeStore.Store.SelectRecipe: the image prompt passed to `fetchImage` is not modelled; the fetched result is a parameter.
- `generateMealPlan`, `suggestDrinks`, `handleMealClick` and the `isAiLoading` flag of useRecipeStore.ts: thin wrappers around an awaited request that set one field; the setters (`setInputValue`, `setRecipe`, …) are plain assignments.
- Asynchronous interleaving: each store action runs to completion, including across its awaits; concurrent actions are not modelled.
- useFavorites.ts: Firestore reads and writes (`getDocsFromServer`, `setDoc`, `deleteDoc`, `onSnapshot` error path), the `localStorage` cache copy, `compressImage`, the `appId` check and the debug fields. A cloud write is a success flag; the list updates after it are modelled.
- Favorites.FavoritesState.ToggleCloud: the `existing` lookup reads the list at the time of the click, and the update runs after the awaited write; the model applies both to the same list.
