/**
 * Request validation and sanitisation of the FastAPI server
 * (server/app/models.py, constants from server/app/config.py).
 * Each validator yields the cleaned value or the message of the ValueError it raises.
 */
module Validation {
  import opened Wrappers
  import opened Json
  import opened Text

  const MaxIngredients: nat := 50
  const MaxIngredientLength: nat := 100
  const MaxTitleLength: nat := 200
  const MaxPromptLength: nat := 500
  const MaxBase64Length: nat := 16 * 1024 * 1024
  const AllowedMimeTypes: seq<string> := ["image/jpeg", "image/png", "image/webp", "image/gif"]

  /** The character class `[\x00-\x1f\x7f]`. */
  predicate IsControl(c: char) {
    c as int <= 0x1f || c as int == 0x7f
  }

  predicate ControlFree(s: string) {
    forall i :: 0 <= i < |s| ==> !IsControl(s[i])
  }

  /** The regular-expression substitution of every control character by nothing. */
  function StripControls(s: string): (r: string)
    ensures |r| <= |s| && ControlFree(r)
  {
    if s == [] then []
    else if IsControl(s[0]) then StripControls(s[1..])
    else [s[0]] + StripControls(s[1..])
  }

  /** Stripping keeps exactly the non-control characters, in order: it distributes over concatenation. */
  lemma {:induction false} StripControlsAppend(a: string, b: string)
    ensures StripControls(a + b) == StripControls(a) + StripControls(b)
  {
    if a != [] {
      assert (a + b)[1..] == a[1..] + b;
      StripControlsAppend(a[1..], b);
    } else {
      assert a + b == b;
    }
  }

  /** A string without control characters is left as it is. */
  lemma {:induction false} StripControlsOfControlFree(s: string)
    requires ControlFree(s)
    ensures StripControls(s) == s
  {
    if s != [] {
      StripControlsOfControlFree(s[1..]);
    }
  }

  /** `sanitize_text` on a string: strip control characters, then Python's `strip()`. */
  function Sanitize(s: string): (r: string)
    ensures |r| <= |s| && ControlFree(r)
    ensures r != [] ==> !IsPySpace(r[0]) && !IsPySpace(r[|r| - 1])
  {
    TrimKeeps(StripControls(s), IsPySpace, c => !IsControl(c));
    Trim(StripControls(s), IsPySpace)
  }

  /** A prefix of a control-free string is control-free. */
  lemma TruncateKeepsControlFree(s: string, n: nat)
    requires ControlFree(s)
    ensures ControlFree(Truncate(s, n))
  {
    var r := Truncate(s, n);
    forall i | 0 <= i < |r| ensures !IsControl(r[i]) {
      assert r[i] == s[i];
    }
  }

  /** A control-free string with no surrounding whitespace is its own sanitised form. */
  lemma SanitizeOfClean(s: string)
    requires ControlFree(s)
    requires s != [] ==> !IsPySpace(s[0]) && !IsPySpace(s[|s| - 1])
    ensures Sanitize(s) == s
  {
    StripControlsOfControlFree(s);
    TrimOfTrimmed(s, IsPySpace);
  }

  /** `sanitize_text` on any value: a non-string gives the empty string. */
  function SanitizeValue(v: Json): (r: string)
    ensures v.JStr? ==> r == Sanitize(v.s)
    ensures !v.JStr? ==> r == []
  {
    if v.JStr? then Sanitize(v.s) else []
  }

  /** Sanitising twice is sanitising once. */
  lemma SanitizeIdempotent(s: string)
    ensures Sanitize(Sanitize(s)) == Sanitize(s)
  {
    SanitizeOfClean(Sanitize(s));
  }

  /** Every character is a control or whitespace character. */
  predicate Blank(s: string) {
    forall i :: 0 <= i < |s| ==> IsControl(s[i]) || IsPySpace(s[i])
  }

  predicate AllPySpace(s: string) {
    forall i :: 0 <= i < |s| ==> IsPySpace(s[i])
  }

  /** Text made only of whitespace and control characters sanitises to the empty string, and nothing else does. */
  lemma SanitizeEmptyIffBlank(s: string)
    ensures Sanitize(s) == [] <==> Blank(s)
  {
    TrimEmptyIffBlank(StripControls(s), IsPySpace);
    assert AllPySpace(StripControls(s)) <==> forall i :: 0 <= i < |StripControls(s)| ==> IsPySpace(StripControls(s)[i]);
    StripBlank(s);
  }

  lemma {:induction false} StripBlank(s: string)
    ensures AllPySpace(StripControls(s)) <==> Blank(s)
  {
    if s != [] {
      StripBlank(s[1..]);
      var rest := StripControls(s[1..]);
      assert Blank(s) <==> (IsControl(s[0]) || IsPySpace(s[0])) && Blank(s[1..]) by {
        assert forall i :: 1 <= i < |s| ==> s[i] == s[1..][i - 1];
      }
      if !IsControl(s[0]) {
        var t := StripControls(s);
        assert t == [s[0]] + rest;
        assert AllPySpace(t) <==> IsPySpace(s[0]) && AllPySpace(rest) by {
          assert t[0] == s[0];
          assert forall i :: 1 <= i < |t| ==> t[i] == rest[i - 1];
          assert forall i :: 0 <= i < |rest| ==> rest[i] == t[i + 1];
        }
      }
    }
  }

  // ------------------------------------------------------------ ingredients

  /** One item of the comprehension, `sanitize_text(str(i))[:100]`; empty exactly when the item sanitises to nothing. */
  function CleanItem(s: string): (r: string)
    ensures |r| <= MaxIngredientLength && ControlFree(r)
    ensures r == [] <==> Sanitize(s) == []
    ensures |r| <= |Sanitize(s)| && r == Sanitize(s)[..|r|]
    ensures |r| == if |Sanitize(s)| <= MaxIngredientLength then |Sanitize(s)| else MaxIngredientLength
  {
    Truncate(Sanitize(s), MaxIngredientLength)
  }

  /** The comprehension: each item sanitised and cut to 100 characters; items that sanitise to nothing dropped. */
  function CleanIngredients(v: seq<string>): (r: seq<string>)
    ensures |r| <= |v|
    ensures forall i :: 0 <= i < |r| ==> r[i] != [] && |r[i]| <= MaxIngredientLength && ControlFree(r[i])
  {
    if v == [] then []
    else if CleanItem(v[0]) == [] then CleanIngredients(v[1..])
    else [CleanItem(v[0])] + CleanIngredients(v[1..])
  }

  /** The comprehension maps item by item and keeps the order: it distributes over concatenation. */
  lemma {:induction false} CleanIngredientsAppend(a: seq<string>, b: seq<string>)
    ensures CleanIngredients(a + b) == CleanIngredients(a) + CleanIngredients(b)
  {
    if a != [] {
      assert (a + b)[0] == a[0] && (a + b)[1..] == a[1..] + b;
      CleanIngredientsAppend(a[1..], b);
      if CleanItem(a[0]) != [] {
        assert [CleanItem(a[0])] + (CleanIngredients(a[1..]) + CleanIngredients(b))
            == [CleanItem(a[0])] + CleanIngredients(a[1..]) + CleanIngredients(b);
      }
    } else {
      assert a + b == b;
    }
  }

  /** What the comprehension does to one item. */
  lemma CleanIngredientsSingle(s: string)
    ensures CleanIngredients([s]) == if Sanitize(s) == [] then [] else [CleanItem(s)]
  {
  }

  /** The comprehension is empty exactly when every item sanitises to the empty string. */
  lemma {:induction false} CleanIngredientsEmptyIff(v: seq<string>)
    ensures CleanIngredients(v) == [] <==> forall i :: 0 <= i < |v| ==> Sanitize(v[i]) == []
  {
    if v != [] {
      CleanIngredientsEmptyIff(v[1..]);
      CleanIngredientsEmptyCons(v);
      AllCons(v, s => Sanitize(s) == []);
    }
  }

  /** The comprehension of a non-empty list is empty when its head and its tail give nothing. */
  lemma CleanIngredientsEmptyCons(v: seq<string>)
    requires v != []
    ensures CleanIngredients(v) == [] <==> Sanitize(v[0]) == [] && CleanIngredients(v[1..]) == []
  {
    if CleanItem(v[0]) != [] {
      assert CleanIngredients(v)[0] == CleanItem(v[0]);
    }
  }

  /** A property holds of every item of a non-empty list when it holds of its head and of every item of its tail. */
  lemma AllCons<T>(v: seq<T>, p: T -> bool)
    requires v != []
    ensures (forall i :: 0 <= i < |v| ==> p(v[i])) <==> p(v[0]) && forall i :: 0 <= i < |v[1..]| ==> p(v[1..][i])
  {
    assert forall i :: 1 <= i < |v| ==> v[i] == v[1..][i - 1];
  }

  /** `validate_ingredients` (both request models carry the same validator). */
  function ValidateIngredients(v: seq<string>): (r: Result<seq<string>, string>)
    ensures v == [] ==> r == Err("ingredients are required")
    ensures |v| > MaxIngredients ==> r == Err("Max 50 ingredients allowed")
    ensures r.Ok? <==> 1 <= |v| <= MaxIngredients && exists i :: 0 <= i < |v| && Sanitize(v[i]) != []
    ensures r.Ok? ==> r.value == CleanIngredients(v) && 1 <= |r.value| <= |v|
    ensures 1 <= |v| <= MaxIngredients && r.Err? ==> r.error == "ingredients are required (non-empty)"
  {
    CleanIngredientsEmptyIff(v);
    if v == [] then Err("ingredients are required")
    else if |v| > MaxIngredients then Err("Max 50 ingredients allowed")
    else
      var cleaned := CleanIngredients(v);
      if cleaned == [] then Err("ingredients are required (non-empty)") else Ok(cleaned)
  }

  // ----------------------------------------------------------- other fields

  /** `validate_title`: sanitised, then rejected when empty or too long; never truncated. */
  function ValidateTitle(v: string): (r: Result<string, string>)
    ensures r.Ok? <==> 1 <= |Sanitize(v)| <= MaxTitleLength
    ensures r.Ok? ==> r.value == Sanitize(v)
    ensures r.Err? ==> r.error == "title is required (max 200 chars)"
  {
    var t := Sanitize(v);
    if t == [] || |t| > MaxTitleLength then Err("title is required (max 200 chars)") else Ok(t)
  }

  /** `validate_base64`: a payload longer than 16 MiB characters is rejected, any other passes unchanged. */
  function ValidateBase64(v: string): (r: Result<string, string>)
    ensures r.Ok? <==> |v| <= MaxBase64Length
    ensures r.Ok? ==> r.value == v
  {
    if |v| > MaxBase64Length then Err("Image payload too large or invalid") else Ok(v)
  }

  /** `validate_mime`: only the four allowed image types pass. */
  function ValidateMime(v: string): (r: Result<string, string>)
    ensures r.Ok? <==> v in AllowedMimeTypes
    ensures r.Ok? ==> r.value == v
  {
    if v !in AllowedMimeTypes then Err("Unsupported image format") else Ok(v)
  }

  /** The optional-field rule shared by `prompt` and `recipeTitle`: None passes, text is sanitised and cut. */
  function SanitizeOptional(v: Option<string>, limit: nat): (r: Option<string>)
    ensures r.None? <==> v.None?
    ensures r.Some? ==> r.value == Truncate(Sanitize(v.value), limit) && |r.value| <= limit && ControlFree(r.value)
  {
    match v
    case None => None
    case Some(s) => Some(Truncate(Sanitize(s), limit))
  }

  /** `validate_prompt`. */
  function ValidatePrompt(v: Option<string>): (r: Option<string>)
    ensures r.None? <==> v.None?
    ensures r.Some? ==> |r.value| == (if |Sanitize(v.value)| <= MaxPromptLength then |Sanitize(v.value)| else MaxPromptLength)
    ensures r.Some? ==> r.value == Sanitize(v.value)[..|r.value|]
    ensures r.Some? && |Sanitize(v.value)| <= MaxPromptLength ==> r.value == Sanitize(v.value)
  {
    SanitizeOptional(v, MaxPromptLength)
  }

  /** `validate_recipe_title`. */
  function ValidateRecipeTitle(v: Option<string>): (r: Option<string>)
    ensures r.None? <==> v.None?
    ensures r.Some? ==> |r.value| == (if |Sanitize(v.value)| <= MaxTitleLength then |Sanitize(v.value)| else MaxTitleLength)
    ensures r.Some? ==> r.value == Sanitize(v.value)[..|r.value|]
    ensures r.Some? && |Sanitize(v.value)| <= MaxTitleLength ==> r.value == Sanitize(v.value)
  {
    SanitizeOptional(v, MaxTitleLength)
  }

  /** Validating an already-validated optional field changes nothing when it was not cut. */
  lemma ValidatePromptStable(v: Option<string>)
    requires v.Some? ==> |Sanitize(v.value)| <= MaxPromptLength
    ensures ValidatePrompt(ValidatePrompt(v)) == ValidatePrompt(v)
  {
    if v.Some? {
      SanitizeIdempotent(v.value);
    }
  }
}
