/**
 * Image generation: the per-provider response extractors and the
 * first-success fallback chain, as the Express server (server/index.js,
 * POST /api/image) and the FastAPI server (server/app/google_ai.py,
 * `generate_image`) implement them.
 *
 * Every strategy makes exactly one upstream call (attempt budget 1); the j-th
 * strategy invoked gets the upstream answer `up(j)`.
 */
module ImageChain {
  import opened Wrappers
  import opened Json
  import opened Retry

  /** A generated image: its base64 payload and MIME type, as read from the response. */
  datatype Image = Image(data: Json, mime: Json)

  const DefaultMime: Json := JStr("image/png")

  /** A provider in a fallback chain: an Imagen `:predict` model or a Gemini `:generateContent` model. */
  datatype Strategy = Imagen(model: string) | GeminiImage(model: string)

  /** What trying one strategy gives the chain: an image, nothing, or an exception. */
  datatype StrategyResult = Found(image: Image) | NotFound | Threw

  /** The attempt budget of one image strategy (`max_retries=1`, `fetchWithRetry(..., 1, ...)`). */
  const StrategyAttempts: int := 1

  /** server/index.js: three Imagen models, then the Gemini image model. */
  const ExpressChain: seq<Strategy> := [
    Imagen("imagen-4.0-fast-generate-001"),
    Imagen("imagen-4.0-generate-001"),
    Imagen("imagen-4.0-ultra-generate-001"),
    GeminiImage("gemini-2.5-flash-preview-native-audio-dialog")
  ]

  /** server/app/google_ai.py with the models of server/app/config.py: Gemini first, then the three Imagen models. */
  const FastApiChain: seq<Strategy> := [
    GeminiImage("gemini-2.5-flash-preview-native-audio-dialog"),
    Imagen("imagen-4.0-fast-generate-001"),
    Imagen("imagen-4.0-generate-001"),
    Imagen("imagen-4.0-ultra-generate-001")
  ]

  /** The image prompt both servers build from a recipe title when no prompt is given. */
  const TemplateHead: string := "Gourmet cinematic food photography of "
  const TemplateTail: string := ", exquisite plating, professional lighting, 4k"

  // ------------------------------------------------------- Python extractors

  /**
   * `predictions[0].bytesBase64Encoded` of a well-formed Imagen response (a
   * dict whose `predictions` is a non-empty list starting with a dict), null
   * when the key is absent; None for any other shape.
   */
  function PredictionBytes(data: Json): Option<Json> {
    if data.JObj? then
      match Lookup(data.fields, "predictions")
      case Some(JArr(items)) =>
        if items != [] && items[0].JObj? then Some(Lookup(items[0].fields, "bytesBase64Encoded").GetOr(JNull)) else None
      case _ => None
    else None
  }

  /** `_try_imagen` once its fetch returned `data`. */
  function ImagenPy(data: Json): (r: Result<Option<Image>, PyError>)
    ensures r.Ok? && r.value.Some? ==> r.value.value.mime == DefaultMime && PyTruthy(r.value.value.data)
    ensures !PyTruthy(data) ==> r == Ok(None)
    ensures PyTruthy(data) && !data.JObj? ==> r == Err(AttributeError)
    ensures PredictionBytes(data).Some? ==>
      var b := PredictionBytes(data).value;
      r == Ok(if PyTruthy(b) then Some(Image(b, DefaultMime)) else None)
  {
    if !PyTruthy(data) then Ok(None)
    else
      var predictions :- PyGet(data, "predictions", JNull);
      var first :- PyFirst(if PyTruthy(predictions) then predictions else JArr([JObj([])]));
      var b64 :- PyGet(first, "bytesBase64Encoded", JNull);
      Ok(if PyTruthy(b64) then Some(Image(b64, DefaultMime)) else None)
  }

  /** What `for part in parts` iterates: a list's items, a dict's keys, a string's characters. */
  function PyIter(v: Json): Result<seq<Json>, PyError> {
    match v
    case JArr(items) => Ok(items)
    case JObj(fields) => Ok(seq(|fields|, i requires 0 <= i < |fields| => JStr(fields[i].0)))
    case JStr(s) => Ok(seq(|s|, i requires 0 <= i < |s| => JStr([s[i]])))
    case _ => Err(TypeError)
  }

  function InlineOf(part: Json): Json
    requires part.JObj?
  {
    Lookup(part.fields, "inlineData").GetOr(JNull)
  }

  function DataOf(inline: Json): Json
    requires inline.JObj?
  {
    Lookup(inline.fields, "data").GetOr(JNull)
  }

  /** A part the loop returns: a dict whose `inlineData` is a dict with a non-empty `data`. */
  predicate Qualifies(part: Json) {
    part.JObj? && InlineOf(part).JObj? && PyTruthy(InlineOf(part)) && PyTruthy(DataOf(InlineOf(part)))
  }

  /** A part the loop passes over: a dict whose `inlineData` is empty, or a dict with an empty `data`. */
  predicate Skippable(part: Json) {
    part.JObj? && (!PyTruthy(InlineOf(part)) || (InlineOf(part).JObj? && !PyTruthy(DataOf(InlineOf(part)))))
  }

  /** The image of a qualifying part; the MIME type defaults to image/png only when the key is absent. */
  function PartImage(part: Json): Image
    requires Qualifies(part)
  {
    var inline := InlineOf(part);
    Image(DataOf(inline), Lookup(inline.fields, "mimeType").GetOr(DefaultMime))
  }

  /** The loop over parts in `_try_gemini_image`, as a recursive specification. */
  function ScanParts(parts: seq<Json>): Result<Option<Image>, PyError> {
    if parts == [] then Ok(None)
    else
      var inline :- PyGet(parts[0], "inlineData", JNull);
      if !PyTruthy(inline) then ScanParts(parts[1..])
      else
        var data :- PyGet(inline, "data", JNull);
        if PyTruthy(data) then Ok(Some(PartImage(parts[0]))) else ScanParts(parts[1..])
  }

  /** server/app/google_ai.py:127-134: the loop itself. */
  method ScanPartsLoop(parts: seq<Json>) returns (r: Result<Option<Image>, PyError>)
    ensures r == ScanParts(parts)
  {
    var k := 0;
    while k < |parts|
      invariant 0 <= k <= |parts|
      invariant ScanParts(parts) == ScanParts(parts[k..])
    {
      var part := parts[k];
      assert parts[k..][1..] == parts[k + 1..];
      var inline := PyGet(part, "inlineData", JNull);
      if inline.Err? {
        return Err(inline.error);
      }
      if PyTruthy(inline.value) {
        var data := PyGet(inline.value, "data", JNull);
        if data.Err? {
          return Err(data.error);
        }
        if PyTruthy(data.value) {
          return Ok(Some(PartImage(part)));
        }
      }
      k := k + 1;
    }
    return Ok(None);
  }

  /**
   * The loop returns the first part whose `inlineData.data` is non-empty,
   * provided every part before it is a dict it can pass over; it returns None
   * when it can pass over every part, and raises at the first part that is
   * neither.
   */
  lemma {:induction false} ScanPartsFindsFirst(parts: seq<Json>, k: nat)
    requires k <= |parts| && forall j :: 0 <= j < k ==> Skippable(parts[j])
    ensures k == |parts| ==> ScanParts(parts) == Ok(None)
    ensures k < |parts| && Qualifies(parts[k]) ==> ScanParts(parts) == Ok(Some(PartImage(parts[k])))
    ensures k < |parts| && !Qualifies(parts[k]) && !Skippable(parts[k]) ==> ScanParts(parts).Err?
    decreases k
  {
    if k > 0 {
      ScanPartsFindsFirst(parts[1..], k - 1);
      assert ScanParts(parts) == ScanParts(parts[1..]) by {
        assert Skippable(parts[0]);
      }
    }
  }

  /**
   * `candidates[0].content.parts` of a well-formed Gemini response (dicts all
   * the way down to a list of parts); None for any other shape.
   */
  function GeminiParts(data: Json): Option<seq<Json>> {
    if data.JObj? then
      match Lookup(data.fields, "candidates")
      case Some(JArr(candidates)) =>
        if candidates != [] && candidates[0].JObj? then
          match Lookup(candidates[0].fields, "content")
          case Some(JObj(content)) =>
            (match Lookup(content, "parts") case Some(JArr(parts)) => Some(parts) case _ => None)
          case _ => None
        else None
      case _ => None
    else None
  }

  /** `_try_gemini_image` once its fetch returned `data`. */
  function GeminiImagePy(data: Json): (r: Result<Option<Image>, PyError>)
    ensures !PyTruthy(data) ==> r == Ok(None)
    ensures PyTruthy(data) && !data.JObj? ==> r == Err(AttributeError)
    ensures data.JObj? && Lookup(data.fields, "candidates").None? ==> r == Ok(None)
    ensures GeminiParts(data).Some? ==> r == ScanParts(GeminiParts(data).value)
  {
    if !PyTruthy(data) then Ok(None)
    else
      var candidates :- PyGet(data, "candidates", JArr([JObj([])]));
      var first :- PyFirst(candidates);
      var content :- PyGet(first, "content", JObj([]));
      var partsValue :- PyGet(content, "parts", JArr([]));
      var parts :- PyIter(partsValue);
      ScanParts(parts)
  }

  // --------------------------------------------------- JavaScript extractors

  /** `tryImagen`: `response?.predictions?.[0]?.bytesBase64Encoded`, kept only when truthy. */
  function ImagenJs(response: JsValue): (r: Option<Image>)
    ensures r.Some? ==> r.value.mime == DefaultMime && JsTruthy(Some(r.value.data))
    ensures JsNullish(response) ==> r.None?
    ensures response.Some? && PredictionBytes(response.value).Some? ==>
      var b := PredictionBytes(response.value).value;
      r == if JsTruthy(Some(b)) then Some(Image(b, DefaultMime)) else None
  {
    var b64 := JsOptGet(JsOptFirst(JsOptGet(response, "predictions")), "bytesBase64Encoded");
    if JsTruthy(b64) then Some(Image(b64.value, DefaultMime)) else None
  }

  /** On a well-formed response whose payload is a string, both servers read the same image. */
  lemma ImagenReadersAgree(data: Json)
    requires PredictionBytes(data).Some? && PredictionBytes(data).value.JStr?
    ensures ImagenPy(data) == Ok(ImagenJs(Some(data)))
  {
  }

  /** A part `find` takes: its `inlineData` is truthy. */
  predicate HasInline(part: Json) {
    JsTruthy(JsOptGet(Some(part), "inlineData"))
  }

  /** A part `find` passes over: not null (reading a member of null throws) and without a truthy `inlineData`. */
  predicate PassesOver(part: Json) {
    !part.JNull? && !HasInline(part)
  }

  /** `parts.find((p) => p.inlineData)`: the first element with a truthy `inlineData`; a null element throws. */
  function FindInline(items: seq<Json>): (r: Result<JsValue, JsError>)
    ensures r.Ok? && r.value.Some? ==> r.value.value in items && HasInline(r.value.value)
    ensures r == Ok(None) <==> forall j :: 0 <= j < |items| ==> PassesOver(items[j])
  {
    if items == [] then Ok(None)
    else if items[0].JNull? then Err(JsTypeError)
    else if HasInline(items[0]) then Ok(Some(items[0]))
    else
      var r := FindInline(items[1..]);
      assert forall j :: 1 <= j < |items| ==> items[j] == items[1..][j - 1];
      r
  }

  /**
   * `find` returns the k-th element when it is the first with a truthy
   * `inlineData` after elements it passes over, undefined when it passes over
   * all of them, and throws at a null element reached first.
   */
  lemma {:induction false} FindInlineFindsFirst(items: seq<Json>, k: nat)
    requires k <= |items| && forall j :: 0 <= j < k ==> PassesOver(items[j])
    ensures k == |items| ==> FindInline(items) == Ok(None)
    ensures k < |items| && HasInline(items[k]) ==> FindInline(items) == Ok(Some(items[k]))
    ensures k < |items| && items[k].JNull? ==> FindInline(items) == Err(JsTypeError)
    decreases k
  {
    if k > 0 {
      assert PassesOver(items[0]);
      assert forall j :: 0 <= j < k - 1 ==> items[1..][j] == items[j + 1];
      FindInlineFindsFirst(items[1..], k - 1);
    }
  }

  /** The image of the part `find` returned: `inlineData.data`, with the MIME type defaulting to image/png when falsy. */
  function InlineImage(part: Json): (r: Option<Image>)
    ensures r.Some? <==> JsTruthy(JsOptGet(JsOptGet(Some(part), "inlineData"), "data"))
    ensures r.Some? ==> JsTruthy(Some(r.value.data)) && JsTruthy(Some(r.value.mime))
  {
    var inline := JsOptGet(Some(part), "inlineData");
    var b64 := JsOptGet(inline, "data");
    var mime := JsOptGet(inline, "mimeType");
    if JsTruthy(b64) then Some(Image(b64.value, if JsTruthy(mime) then mime.value else DefaultMime)) else None
  }

  /** `tryGeminiImage` once its fetch returned `response`. */
  function GeminiImageJs(response: JsValue): (r: Result<Option<Image>, JsError>)
    ensures r.Ok? && r.value.Some? ==> JsTruthy(Some(r.value.value.data)) && JsTruthy(Some(r.value.value.mime))
    ensures response.Some? && GeminiParts(response.value).Some? ==>
      r == match FindInline(GeminiParts(response.value).value)
           case Err(e) => Err(e)
           case Ok(part) => Ok(if part.Some? then InlineImage(part.value) else None)
  {
    var parts := JsOptGet(JsOptGet(JsOptFirst(JsOptGet(response, "candidates")), "content"), "parts");
    var part :-
      if JsNullish(parts) then Ok(None)
      else if parts.value.JArr? then FindInline(parts.value.items)
      else Err(JsTypeError);  // `find` is not a function of a non-array
    Ok(if part.Some? then InlineImage(part.value) else None)
  }

  /**
   * On a well-formed response, the JavaScript reader takes the image of the
   * first part with a truthy `inlineData` (none when it has no `data`), finds
   * nothing when no part has one, and throws at a null part reached first.
   */
  lemma GeminiJsFindsFirst(data: Json, k: nat)
    requires GeminiParts(data).Some?
    requires k <= |GeminiParts(data).value| && forall j :: 0 <= j < k ==> PassesOver(GeminiParts(data).value[j])
    ensures var parts := GeminiParts(data).value;
      k == |parts| ==> GeminiImageJs(Some(data)) == Ok(None)
    ensures var parts := GeminiParts(data).value;
      k < |parts| && HasInline(parts[k]) ==> GeminiImageJs(Some(data)) == Ok(InlineImage(parts[k]))
    ensures var parts := GeminiParts(data).value;
      k < |parts| && parts[k].JNull? ==> GeminiImageJs(Some(data)).Err?
  {
    FindInlineFindsFirst(GeminiParts(data).value, k);
  }

  // ------------------------------------------------------------ the chain

  /** The single upstream call of one strategy, through the retry client. */
  function StrategyCall(d: Dialect, a: Attempt): Outcome {
    Run(d, (_: nat) => a, StrategyAttempts).outcome
  }

  /** Trying one strategy: its call, then its extractor; anything raised is caught by the chain. */
  function TryStrategy(d: Dialect, s: Strategy, a: Attempt): StrategyResult {
    match StrategyCall(d, a)
    case Raised(_) => Threw
    case NoResult => NotFound
    case Parsed(j) =>
      var extracted: Result<Option<Image>, ()> :=
        match (d, s)
        case (FastApi, Imagen(_)) => (match ImagenPy(j) case Ok(o) => Ok(o) case Err(_) => Err(()))
        case (FastApi, GeminiImage(_)) => (match GeminiImagePy(j) case Ok(o) => Ok(o) case Err(_) => Err(()))
        case (Express, Imagen(_)) => Ok(ImagenJs(Some(j)))
        case (Express, GeminiImage(_)) => (match GeminiImageJs(Some(j)) case Ok(o) => Ok(o) case Err(_) => Err(()));
      match extracted
      case Err(_) => Threw
      case Ok(None) => NotFound
      case Ok(Some(img)) => Found(img)
  }

  /** One more strategy that found nothing extends the run of failures. */
  lemma NoneFoundExtend(d: Dialect, chain: seq<Strategy>, up: nat -> Attempt, k: nat)
    requires k < |chain| && forall j :: 0 <= j < k ==> !TryStrategy(d, chain[j], up(j)).Found?
    requires !TryStrategy(d, chain[k], up(k)).Found?
    ensures forall j :: 0 <= j < k + 1 ==> !TryStrategy(d, chain[j], up(j)).Found?
  {
  }

  /** The index of the first strategy from `k` on that finds an image; the chain's length when none does. */
  function FirstFound(d: Dialect, chain: seq<Strategy>, up: nat -> Attempt, k: nat): (i: nat)
    requires k <= |chain|
    ensures k <= i <= |chain|
    ensures forall j :: k <= j < i ==> !TryStrategy(d, chain[j], up(j)).Found?
    ensures i < |chain| ==> TryStrategy(d, chain[i], up(i)).Found?
    decreases |chain| - k
  {
    if k == |chain| || TryStrategy(d, chain[k], up(k)).Found? then k
    else FirstFound(d, chain, up, k + 1)
  }

  /**
   * The fallback loop (server/index.js:436-445, server/app/google_ai.py:166-174):
   * strategies strictly in order, stopping at the first that finds an image;
   * `invoked` strategies were called, the later ones never.
   */
  method FirstSuccess(d: Dialect, chain: seq<Strategy>, up: nat -> Attempt) returns (image: Option<Image>, invoked: nat)
    ensures invoked <= |chain|
    ensures forall j :: 0 <= j < invoked - 1 ==> !TryStrategy(d, chain[j], up(j)).Found?
    ensures image.Some? <==> exists j :: 0 <= j < |chain| && TryStrategy(d, chain[j], up(j)).Found?
    ensures image.Some? ==> 1 <= invoked && TryStrategy(d, chain[invoked - 1], up(invoked - 1)) == Found(image.value)
    ensures image.None? ==> invoked == |chain|
    ensures var i := FirstFound(d, chain, up, 0);
      (image.None? <==> i == |chain|) && (image.Some? ==> invoked == i + 1)
    ensures var i := FirstFound(d, chain, up, 0);
      image.Some? ==> i < |chain| && TryStrategy(d, chain[i], up(i)) == Found(image.value)
  {
    var k := 0;
    while k < |chain|
      invariant 0 <= k <= |chain|
      invariant forall j :: 0 <= j < k ==> !TryStrategy(d, chain[j], up(j)).Found?
      invariant FirstFound(d, chain, up, 0) == FirstFound(d, chain, up, k)
    {
      var result := TryStrategy(d, chain[k], up(k));
      if result.Found? {
        return Some(result.image), k + 1;
      }
      NoneFoundExtend(d, chain, up, k);
      k := k + 1;
    }
    return None, |chain|;
  }

  // ------------------------------------------------------------ properties

  /** A strategy whose call raised, or gave null, or gave no image, never counts as a success. */
  lemma FailuresAreNotSuccesses(d: Dialect, s: Strategy, a: Attempt)
    ensures StrategyCall(d, a).Raised? ==> TryStrategy(d, s, a) == Threw
    ensures StrategyCall(d, a).NoResult? ==> TryStrategy(d, s, a) == NotFound
    ensures a.Answered? && !IsSuccess(a.status) ==> TryStrategy(d, s, a) == NotFound
    ensures a == NetworkError ==> TryStrategy(d, s, a) == Threw
  {
  }

  /** Both servers' chains hold the same four strategies, in a different order. */
  lemma ChainsDifferOnlyInOrder()
    ensures multiset(ExpressChain) == multiset(FastApiChain)
    ensures ExpressChain[0].Imagen? && FastApiChain[0].GeminiImage?
  {
  }

  /** A Gemini response with two parts, the first carrying an empty `data`. */
  const EmptyThenFilledParts: Json :=
    JObj([("candidates", JArr([JObj([("content", JObj([("parts", JArr([
      JObj([("inlineData", JObj([("data", JStr(""))]))]),
      JObj([("inlineData", JObj([("data", JStr("QUJD"))]))])]))]))])]))])

  /** The Python loop skips a part whose `data` is empty and takes the next one. */
  lemma GeminiPyTakesSecondPart()
    ensures GeminiImagePy(EmptyThenFilledParts) == Ok(Some(Image(JStr("QUJD"), DefaultMime)))
  {
    var parts := [JObj([("inlineData", JObj([("data", JStr(""))]))]),
                  JObj([("inlineData", JObj([("data", JStr("QUJD"))]))])];
    assert PyIter(JArr(parts)) == Ok(parts);
    assert Skippable(parts[0]) && Qualifies(parts[1]);
    ScanPartsFindsFirst(parts, 1);
    assert PartImage(parts[1]) == Image(JStr("QUJD"), DefaultMime);
  }

  /** The JavaScript `find` stops at the first part with an `inlineData` and yields no image from it. */
  lemma GeminiJsStopsAtFirstPart()
    ensures GeminiImageJs(Some(EmptyThenFilledParts)) == Ok(None)
  {
    var first := JObj([("inlineData", JObj([("data", JStr(""))]))]);
    var parts := [first, JObj([("inlineData", JObj([("data", JStr("QUJD"))]))])];
    assert FindInline(parts) == Ok(Some(first));
  }
}
