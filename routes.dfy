/**
 * The FastAPI route layer (server/app/routes.py) and the text extraction of
 * `generate_text` (server/app/google_ai.py).
 *
 * A handler receives what its awaited calls produced: the outcome of the
 * retry client for its one text request, and `parse`, the `json.loads`
 * oracle (None for a decode error). Every request body reaching a handler
 * has passed the validators of the Validation module; the prompt text it
 * builds goes only to the upstream, so it is not part of a handler's result.
 *
 * FastAPI checks a handler's return value against its return annotation
 * (`dict[str, Any]` or `list[dict[str, Any]]`); a value that fails the check
 * reaches the global exception handler of server/app/main.py, which answers
 * 500 "Internal server error".
 */
module Routes {
  import opened Wrappers
  import opened Json
  import opened Text
  import opened Validation
  import opened Retry
  import opened ImageChain

  /** A handler's answer: a JSON body with status 200, or an HTTPException. */
  datatype Response =
    | Success(body: Json)
    | HttpError(status: nat, detail: string)
      /** `{"imageBase64": f"data:{mime};base64,{data}"}` */
    | ImageDataUrl(mime: Json, data: Json)
      /** `{"imageBase64": None}` */
    | NoImage
      /** The global exception handler's 500 `{"error": "Internal server error"}`. */
    | Unhandled

  const MissingKey: string := "Missing GEMINI_API_KEY"
  const EmptyResponse: string := "Empty response from AI model"
  const MaxDietLength: nat := 30

  // --------------------------------------------------------------- helpers

  /** `_target_lang`. */
  function TargetLang(language: Option<string>): (r: string)
    ensures r == "Russian" <==> language == Some("ru")
    ensures r == "Russian" || r == "English"
  {
    if language == Some("ru") then "Russian" else "English"
  }

  /** The default diet passes sanitising unchanged. */
  lemma SanitizeNone()
    ensures Sanitize("none") == "none"
    ensures Truncate("none", MaxDietLength) == "none" && ControlFree("none")
  {
    SanitizeOfClean("none");
  }

  /** The cut of a sanitised diet is a control-free prefix of it. */
  lemma SafeDietOfText(diet: string)
    ensures var r := Truncate(Sanitize(diet), MaxDietLength);
      ControlFree(r) && |r| <= |Sanitize(diet)| && r == Sanitize(diet)[..|r|]
  {
    TruncateKeepsControlFree(Sanitize(diet), MaxDietLength);
  }

  /** `_safe_diet`: `sanitize_text(str(diet or "none"))[:30]`. */
  function SafeDiet(diet: Option<string>): (r: string)
    ensures |r| <= MaxDietLength && ControlFree(r)
    ensures diet == None || diet == Some("") ==> r == "none"
    ensures diet.Some? && diet.value != "" ==> |r| <= |Sanitize(diet.value)| && r == Sanitize(diet.value)[..|r|]
    ensures diet.Some? && diet.value != "" && |Sanitize(diet.value)| <= MaxDietLength ==> r == Sanitize(diet.value)
    ensures diet.Some? && diet.value != "" ==>
      |r| == if |Sanitize(diet.value)| <= MaxDietLength then |Sanitize(diet.value)| else MaxDietLength
  {
    if diet == None || diet == Some("") then
      SanitizeNone();
      Truncate(Sanitize("none"), MaxDietLength)
    else
      SafeDietOfText(diet.value);
      Truncate(Sanitize(diet.value), MaxDietLength)
  }

  /** The diet sentence of the meal-plan and drinks prompts. */
  function DietContext(safeDiet: string): (r: string)
    ensures r == [] <==> safeDiet == "none"
    ensures r != [] ==> Contains(r, safeDiet)
  {
    if safeDiet != "none" then
      var r := "Diet: " + safeDiet + ".";
      assert StartsWith(r[6..], safeDiet) by { assert r[6..][..|safeDiet|] == safeDiet; }
      r
    else ""
  }

  /** `_clean_json_text`: fences removed, then Python's `strip()`. */
  function CleanJsonText(raw: string): (r: string)
    ensures |r| <= |raw| && FenceFree(r)
    ensures r != [] ==> !IsPySpace(r[0]) && !IsPySpace(r[|r| - 1])
    ensures NoBacktick(raw) ==> r == Trim(raw, IsPySpace)
  {
    TrimKeepsFenceFree(StripFences(raw), IsPySpace);
    Trim(StripFences(raw), IsPySpace)
  }

  /** No "```" is left anywhere in the cleaned text. */
  lemma CleanJsonTextHasNoFence(raw: string)
    ensures !Contains(CleanJsonText(raw), Fence)
  {
    FenceFreeHasNoFence(CleanJsonText(raw));
  }

  /** A reply fenced as "```json … ```" is cleaned to the stripped text inside the fence. */
  lemma CleanJsonTextUnwraps(s: string)
    requires NoBacktick(s)
    ensures CleanJsonText("```json" + s + Fence) == Trim(s, IsPySpace)
  {
    StripFencesUnwraps(s);
  }

  /** Cleaning twice is cleaning once. */
  lemma CleanJsonTextIdempotent(s: string)
    ensures CleanJsonText(CleanJsonText(s)) == CleanJsonText(s)
  {
    var c := CleanJsonText(s);
    TrimKeepsFenceFree(StripFences(s), IsPySpace);
    RemoveAllFenceFree(c, "```json");
    RemoveAllFenceFree(c, Fence);
    TrimOfTrimmed(c, IsPySpace);
  }

  // ------------------------------------------------------------ generate_text

  /** Why `generate_text` raised: the retry client raised, or the response had the wrong shape. */
  datatype TextError = Upstream(failure: Failure) | Malformed(error: PyError)

  /** `data.get("candidates", [{}])[0].get("content", {}).get("parts", [{}])[0].get("text", "")`. */
  function FirstPartText(data: Json): Result<Json, PyError> {
    var candidates :- PyGet(data, "candidates", JArr([JObj([])]));
    var first :- PyFirst(candidates);
    var content :- PyGet(first, "content", JObj([]));
    var parts :- PyGet(content, "parts", JArr([JObj([])]));
    var part :- PyFirst(parts);
    PyGet(part, "text", JStr(""))
  }

  /** `generate_text` after its call to `fetch_with_retry`. */
  function GenerateText(o: Outcome): (r: Result<Json, TextError>)
    ensures o.NoResult? ==> r == Ok(JStr(""))
    ensures r.Err? && r.error.Upstream? <==> o.Raised?
    ensures o.Parsed? && !PyTruthy(o.json) ==> r == Ok(JStr(""))
  {
    match o
    case Raised(f) => Err(Upstream(f))
    case NoResult => Ok(JStr(""))
    case Parsed(data) =>
      if !PyTruthy(data) then Ok(JStr(""))
      else match FirstPartText(data)
        case Ok(text) => Ok(text)
        case Err(e) => Err(Malformed(e))
  }

  /** The well-formed response: the first candidate's first part's text is returned as it is. */
  lemma GenerateTextReadsFirstPart(text: Json, moreParts: seq<Json>, moreCandidates: seq<Json>)
    ensures var response := JObj([("candidates", JArr([JObj([("content", JObj([("parts",
                JArr([JObj([("text", text)])] + moreParts))]))])] + moreCandidates))]);
      GenerateText(Parsed(response)) == Ok(text)
  {
  }

  /** `json.loads(raw)` on any value: a string is decoded by the parser, anything else raises. */
  function Loads(raw: Json, parse: string -> Option<Json>): (r: Option<Json>)
    ensures raw.JStr? ==> r == parse(raw.s)
    ensures !raw.JStr? ==> r == None
  {
    if raw.JStr? then parse(raw.s) else None
  }

  /** `not raw`: the model text is falsy (no response, or an empty or falsy `text`). */
  predicate EmptyText(o: Outcome) {
    GenerateText(o).Ok? && !PyTruthy(GenerateText(o).value)
  }

  /** A truthy model `text` that is not a string: `replace` and `json.loads` both raise on it. */
  predicate NonStringText(o: Outcome) {
    GenerateText(o).Ok? && PyTruthy(GenerateText(o).value) && !GenerateText(o).value.JStr?
  }

  /** The model text when it is a non-empty string. */
  function ModelText(o: Outcome): (r: Option<string>)
    ensures r.Some? <==> GenerateText(o).Ok? && GenerateText(o).value.JStr? && GenerateText(o).value.s != ""
    ensures r.Some? ==> GenerateText(o) == Ok(JStr(r.value))
  {
    match GenerateText(o)
    case Ok(JStr(s)) => if s != "" then Some(s) else None
    case _ => None
  }

  /** Every list element is a JSON object. */
  predicate ObjectList(v: Json) {
    v.JArr? && forall i :: 0 <= i < |v.items| ==> v.items[i].JObj?
  }

  /** The `-> dict[str, Any]` check of a returned value. */
  function AsObject(v: Json): (r: Response)
    ensures r == Success(v) <==> v.JObj?
    ensures r != Success(v) ==> r == Unhandled
  {
    if v.JObj? then Success(v) else Unhandled
  }

  /** The `-> list[dict[str, Any]]` check of a returned value. */
  function AsObjectList(v: Json): (r: Response)
    ensures r == Success(v) <==> ObjectList(v)
    ensures r != Success(v) ==> r == Unhandled
  {
    if ObjectList(v) then Success(v) else Unhandled
  }

  // --------------------------------------------------------------- handlers

  /** `_require_api_key`. */
  function RequireApiKey(apiKey: string): (r: Option<Response>)
    ensures r.Some? <==> apiKey == ""
    ensures r.Some? ==> r.value == HttpError(500, MissingKey)
  {
    if apiKey == "" then Some(HttpError(500, MissingKey)) else None
  }

  /** POST /api/vision: the parsed value when it is a list, else `[]`; every failure is a 500. */
  function Vision(apiKey: string, o: Outcome, parse: string -> Option<Json>): (r: Response)
    ensures apiKey == "" ==> r == HttpError(500, MissingKey)
    ensures apiKey != "" && r.HttpError? ==> r == HttpError(500, "Vision request failed")
    ensures r.Success? ==> exists items :: r.body == JObj([("ingredients", JArr(items))])
    ensures apiKey != "" && EmptyText(o) ==> r == Success(JObj([("ingredients", JArr([]))]))
    ensures apiKey != "" && (GenerateText(o).Err? || NonStringText(o)) ==> r == HttpError(500, "Vision request failed")
    ensures apiKey != "" && ModelText(o).Some? ==>
      var p := parse(ModelText(o).value);
      (p.None? ==> r == HttpError(500, "Vision request failed"))
      && (p.Some? && p.value.JArr? ==> r == Success(JObj([("ingredients", p.value)])))
      && (p.Some? && !p.value.JArr? ==> r == Success(JObj([("ingredients", JArr([]))])))
  {
    if apiKey == "" then HttpError(500, MissingKey)
    else match GenerateText(o)
      case Err(_) => HttpError(500, "Vision request failed")
      case Ok(raw) =>
        var parsed := if PyTruthy(raw) then Loads(raw, parse) else Some(JArr([]));
        match parsed
        case None => HttpError(500, "Vision request failed")
        case Some(p) => Success(JObj([("ingredients", if p.JArr? then p else JArr([]))]))
  }

  /** `parsed if isinstance(parsed, list) else [parsed]`, checked against `-> list[dict[str, Any]]`. */
  function ListOrWrapped(p: Json): (r: Response)
    ensures ObjectList(p) ==> r == Success(p)
    ensures p.JObj? ==> r == Success(JArr([p]))
    ensures !ObjectList(p) && !p.JObj? ==> r == Unhandled
  {
    if p.JArr? then AsObjectList(p)
    else
      assert ObjectList(JArr([p])) <==> p.JObj? by { assert JArr([p]).items[0] == p; }
      AsObjectList(JArr([p]))
  }

  /** `parsed if parsed else {}`, checked against `-> dict[str, Any]`. */
  function ObjectOrEmpty(p: Json): (r: Response)
    ensures p.JObj? ==> r == Success(p)
    ensures !PyTruthy(p) ==> r == Success(JObj([]))
    ensures PyTruthy(p) && !p.JObj? ==> r == Unhandled
  {
    AsObject(if PyTruthy(p) then p else JObj([]))
  }

  /**
   * The shared front of the recipe, recipes and recipe-detail handlers: key
   * check, model text, 502 on empty text, fence cleaning and decoding; `failure`
   * is the handler's 500 detail. Ok carries the decoded value.
   */
  function CleanedReply(apiKey: string, o: Outcome, parse: string -> Option<Json>, failure: string): (r: Result<Json, Response>)
    ensures apiKey == "" ==> r == Err(HttpError(500, MissingKey))
    ensures apiKey != "" ==> (r == Err(HttpError(502, EmptyResponse)) <==> EmptyText(o))
    ensures apiKey != "" && (GenerateText(o).Err? || NonStringText(o)) ==> r == Err(HttpError(500, failure))
    ensures apiKey != "" && ModelText(o).Some? ==>
      r == (match parse(CleanJsonText(ModelText(o).value)) case None => Err(HttpError(500, failure)) case Some(p) => Ok(p))
    ensures r.Err? ==> r.error.HttpError?
  {
    if apiKey == "" then Err(HttpError(500, MissingKey))
    else match GenerateText(o)
      case Err(_) => Err(HttpError(500, failure))
      case Ok(raw) =>
        if !PyTruthy(raw) then Err(HttpError(502, EmptyResponse))
        else if !raw.JStr? then Err(HttpError(500, failure))
        else match parse(CleanJsonText(raw.s))
          case None => Err(HttpError(500, failure))
          case Some(p) => Ok(p)
  }

  /** POST /api/recipe: 502 on empty model text, the parsed cleaned text otherwise. */
  function Recipe(apiKey: string, o: Outcome, parse: string -> Option<Json>): (r: Response)
    ensures apiKey == "" ==> r == HttpError(500, MissingKey)
    ensures apiKey != "" ==> (r == HttpError(502, EmptyResponse) <==> EmptyText(o))
    ensures apiKey != "" && (GenerateText(o).Err? || NonStringText(o)) ==> r == HttpError(500, "Recipe request failed")
    ensures apiKey != "" && ModelText(o).Some? ==>
      var p := parse(CleanJsonText(ModelText(o).value));
      (p.None? ==> r == HttpError(500, "Recipe request failed"))
      && (p.Some? && p.value.JObj? ==> r == Success(p.value))
      && (p.Some? && !p.value.JObj? ==> r == Unhandled)
    ensures r.Success? ==> r.body.JObj?
  {
    match CleanedReply(apiKey, o, parse, "Recipe request failed")
    case Err(response) => response
    case Ok(p) => AsObject(p)
  }

  /** POST /api/recipes: as the single recipe, but a non-list result is wrapped into a one-element list. */
  function Recipes(apiKey: string, o: Outcome, parse: string -> Option<Json>): (r: Response)
    ensures apiKey == "" ==> r == HttpError(500, MissingKey)
    ensures apiKey != "" ==> (r == HttpError(502, EmptyResponse) <==> EmptyText(o))
    ensures apiKey != "" && (GenerateText(o).Err? || NonStringText(o)) ==> r == HttpError(500, "Recipes request failed")
    ensures apiKey != "" && ModelText(o).Some? ==>
      var p := parse(CleanJsonText(ModelText(o).value));
      (p.None? ==> r == HttpError(500, "Recipes request failed"))
      && (p.Some? && ObjectList(p.value) ==> r == Success(p.value))
      && (p.Some? && p.value.JObj? ==> r == Success(JArr([p.value])))
      && (p.Some? && !ObjectList(p.value) && !p.value.JObj? ==> r == Unhandled)
    ensures r.Success? ==> ObjectList(r.body)
  {
    match CleanedReply(apiKey, o, parse, "Recipes request failed")
    case Err(response) => response
    case Ok(p) => ListOrWrapped(p)
  }

  /** POST /api/recipe-detail: as the single recipe, but a falsy parse result becomes `{}`. */
  function RecipeDetail(apiKey: string, o: Outcome, parse: string -> Option<Json>): (r: Response)
    ensures apiKey == "" ==> r == HttpError(500, MissingKey)
    ensures apiKey != "" ==> (r == HttpError(502, EmptyResponse) <==> EmptyText(o))
    ensures apiKey != "" && (GenerateText(o).Err? || NonStringText(o)) ==> r == HttpError(500, "Recipe detail request failed")
    ensures apiKey != "" && ModelText(o).Some? ==>
      var p := parse(CleanJsonText(ModelText(o).value));
      (p.None? ==> r == HttpError(500, "Recipe detail request failed"))
      && (p.Some? && p.value.JObj? ==> r == Success(p.value))
      && (p.Some? && !PyTruthy(p.value) ==> r == Success(JObj([])))
      && (p.Some? && PyTruthy(p.value) && !p.value.JObj? ==> r == Unhandled)
    ensures r.Success? ==> r.body.JObj?
  {
    match CleanedReply(apiKey, o, parse, "Recipe detail request failed")
    case Err(response) => response
    case Ok(p) => ObjectOrEmpty(p)
  }

  /** POST /api/meal-plan: no 502 and no fence removal; a non-list result becomes `[]`. */
  function MealPlan(apiKey: string, o: Outcome, parse: string -> Option<Json>): (r: Response)
    ensures apiKey == "" ==> r == HttpError(500, MissingKey)
    ensures apiKey != "" && r.HttpError? ==> r == HttpError(500, "Meal plan request failed")
    ensures apiKey != "" && EmptyText(o) ==> r == Success(JArr([]))
    ensures apiKey != "" && (GenerateText(o).Err? || NonStringText(o)) ==> r == HttpError(500, "Meal plan request failed")
    ensures apiKey != "" && ModelText(o).Some? ==>
      var p := parse(ModelText(o).value);
      (p.None? ==> r == HttpError(500, "Meal plan request failed"))
      && (p.Some? && ObjectList(p.value) ==> r == Success(p.value))
      && (p.Some? && !p.value.JArr? ==> r == Success(JArr([])))
      && (p.Some? && p.value.JArr? && !ObjectList(p.value) ==> r == Unhandled)
    ensures r.Success? ==> ObjectList(r.body)
  {
    if apiKey == "" then HttpError(500, MissingKey)
    else match GenerateText(o)
      case Err(_) => HttpError(500, "Meal plan request failed")
      case Ok(raw) =>
        var parsed := if PyTruthy(raw) then Loads(raw, parse) else Some(JArr([]));
        match parsed
        case None => HttpError(500, "Meal plan request failed")
        case Some(p) => AsObjectList(if p.JArr? then p else JArr([]))
  }

  /** POST /api/drinks: no 502 and no fence removal; empty text gives `{}`. */
  function Drinks(apiKey: string, o: Outcome, parse: string -> Option<Json>): (r: Response)
    ensures apiKey == "" ==> r == HttpError(500, MissingKey)
    ensures apiKey != "" && r.HttpError? ==> r == HttpError(500, "Drinks request failed")
    ensures apiKey != "" && EmptyText(o) ==> r == Success(JObj([]))
    ensures apiKey != "" && (GenerateText(o).Err? || NonStringText(o)) ==> r == HttpError(500, "Drinks request failed")
    ensures apiKey != "" && ModelText(o).Some? ==>
      var p := parse(ModelText(o).value);
      (p.None? ==> r == HttpError(500, "Drinks request failed"))
      && (p.Some? && p.value.JObj? ==> r == Success(p.value))
      && (p.Some? && !p.value.JObj? ==> r == Unhandled)
    ensures r.Success? ==> r.body.JObj?
  {
    if apiKey == "" then HttpError(500, MissingKey)
    else match GenerateText(o)
      case Err(_) => HttpError(500, "Drinks request failed")
      case Ok(raw) =>
        if !PyTruthy(raw) then Success(JObj([]))
        else match Loads(raw, parse)
          case None => HttpError(500, "Drinks request failed")
          case Some(p) => AsObject(p)
  }

  /** The meal-plan and drinks handlers never answer 502, even on empty model text. */
  lemma NoBadGatewayWithoutCheck(apiKey: string, o: Outcome, parse: string -> Option<Json>)
    ensures MealPlan(apiKey, o, parse) != HttpError(502, EmptyResponse)
    ensures Drinks(apiKey, o, parse) != HttpError(502, EmptyResponse)
  {
  }

  // ------------------------------------------------------------ image route

  /** `safe_title`: the sanitised title, cut to 200 characters. */
  function SafeTitle(recipeTitle: Option<string>): (r: string)
    ensures |r| <= MaxTitleLength && ControlFree(r)
    ensures recipeTitle.None? ==> r == ""
    ensures recipeTitle.Some? ==> |r| <= |Sanitize(recipeTitle.value)| && r == Sanitize(recipeTitle.value)[..|r|]
    ensures recipeTitle.Some? && |Sanitize(recipeTitle.value)| <= MaxTitleLength ==> r == Sanitize(recipeTitle.value)
    ensures recipeTitle.Some? ==>
      |r| == if |Sanitize(recipeTitle.value)| <= MaxTitleLength then |Sanitize(recipeTitle.value)| else MaxTitleLength
  {
    assert Sanitize("") == "";
    Truncate(Sanitize(if recipeTitle.Some? then recipeTitle.value else ""), MaxTitleLength)
  }

  /** The image prompt: a non-empty prompt, cut to 500, wins over the title template. */
  function FinalPrompt(recipeTitle: Option<string>, prompt: Option<string>): (r: string)
    ensures prompt.Some? && prompt.value != "" ==>
      |r| <= MaxPromptLength && |r| <= |prompt.value| && r == prompt.value[..|r|] && (|prompt.value| <= MaxPromptLength ==> r == prompt.value)
    ensures prompt.Some? && prompt.value != "" ==>
      |r| == if |prompt.value| <= MaxPromptLength then |prompt.value| else MaxPromptLength
    ensures (prompt.None? || prompt.value == "") ==>
      StartsWith(r, TemplateHead) && Contains(r, SafeTitle(recipeTitle))
  {
    if prompt.Some? && prompt.value != "" then Truncate(prompt.value, MaxPromptLength)
    else
      InfixOfConcat(TemplateHead, SafeTitle(recipeTitle), TemplateTail);
      TemplateHead + SafeTitle(recipeTitle) + TemplateTail
  }

  /** When the prompt wins, the title has no say in what is sent. */
  lemma FinalPromptIgnoresTitle(title1: Option<string>, title2: Option<string>, prompt: string)
    requires prompt != ""
    ensures FinalPrompt(title1, Some(prompt)) == FinalPrompt(title2, Some(prompt))
  {
  }

  /** Some field asks for an image: `body.recipeTitle or body.prompt`. */
  predicate Requested(recipeTitle: Option<string>, prompt: Option<string>) {
    (recipeTitle.Some? && recipeTitle.value != "") || (prompt.Some? && prompt.value != "")
  }

  /**
   * POST /api/image: 400 when neither field is truthy, else the FastAPI
   * chain (`generate_image`, which catches every strategy's exception and so
   * never raises) run on the final prompt, and its first image as a data URL.
   * `answers(prompt)` is what the upstream answers to requests carrying that prompt.
   */
  method Image(apiKey: string, recipeTitle: Option<string>, prompt: Option<string>, answers: string -> nat -> Attempt)
    returns (r: Response, invoked: nat)
    ensures apiKey == "" ==> r == HttpError(500, MissingKey) && invoked == 0
    ensures apiKey != "" && !Requested(recipeTitle, prompt)
      ==> r == HttpError(400, "recipeTitle or prompt is required") && invoked == 0
    ensures apiKey != "" && Requested(recipeTitle, prompt) ==> (r.NoImage? || r.ImageDataUrl?)
    ensures var up := answers(FinalPrompt(recipeTitle, prompt));
      var i := FirstFound(FastApi, FastApiChain, up, 0);
      apiKey != "" && Requested(recipeTitle, prompt) ==>
        && (r == NoImage <==> i == |FastApiChain|)
        && (r == NoImage ==> invoked == |FastApiChain|)
        && (r.ImageDataUrl? ==>
              i < |FastApiChain| && invoked == i + 1
              && TryStrategy(FastApi, FastApiChain[i], up(i)) == Found(ImageChain.Image(r.data, r.mime)))
    ensures r.HttpError? ==> invoked == 0
  {
    if apiKey == "" {
      return HttpError(500, MissingKey), 0;
    }
    if !Requested(recipeTitle, prompt) {
      return HttpError(400, "recipeTitle or prompt is required"), 0;
    }
    var up := answers(FinalPrompt(recipeTitle, prompt));
    var image;
    image, invoked := FirstSuccess(FastApi, FastApiChain, up);
    if image.Some? {
      r := ImageDataUrl(image.value.mime, image.value.data);
    } else {
      r := NoImage;
    }
  }
}
