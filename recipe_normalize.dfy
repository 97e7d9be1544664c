/**
 * `normalizeRecipeData`: how the client turns whatever JSON the model sent
 * back into a `Recipe` with every display field filled in.
 *
 * `cleanStr` strips a leading "Step N:" and a leading "N." / "N)" with the
 * two anchored regular expressions of the source; here each is a matcher
 * that returns the length of the regular expression's match, proved equal
 * to a declarative description of the matched shape.
 */
module RecipeNormalize {
  import opened Wrappers
  import opened Json
  import opened Text

  predicate IsDigit(c: char) {
    '0' <= c <= '9'
  }

  /** The first index at or after `i` whose character does not satisfy `p`. */
  function Skip(s: string, i: nat, p: char -> bool): (j: nat)
    requires i <= |s|
    ensures i <= j <= |s|
    ensures j < |s| ==> !p(s[j])
    decreases |s| - i
  {
    if i == |s| || !p(s[i]) then i else Skip(s, i + 1, p)
  }

  /** Every character `Skip` passes over satisfies `p`. */
  lemma {:induction false} SkipRun(s: string, i: nat, p: char -> bool)
    requires i <= |s|
    ensures forall k :: i <= k < Skip(s, i, p) ==> p(s[k])
    decreases |s| - i
  {
    if i < |s| && p(s[i]) {
      SkipRun(s, i + 1, p);
    }
  }

  /** A run of `p` characters ending at a character outside `p` is what `Skip` finds. */
  lemma {:induction false} SkipUnique(s: string, i: nat, j: nat, p: char -> bool)
    requires i <= j <= |s|
    requires forall k :: i <= k < j ==> p(s[k])
    requires j < |s| ==> !p(s[j])
    ensures Skip(s, i, p) == j
    decreases j - i
  {
    if i < j {
      SkipUnique(s, i + 1, j, p);
    }
  }

  // ------------------------------------------------------------ "Step N:"

  /** `s` begins with "step" in any mix of ASCII case (the `i` flag). */
  predicate StartsWithStepWord(s: string) {
    |s| >= 4 && (s[0] == 's' || s[0] == 'S') && (s[1] == 't' || s[1] == 'T')
    && (s[2] == 'e' || s[2] == 'E') && (s[3] == 'p' || s[3] == 'P')
  }

  // Length of the match of the case-insensitive pattern ^step\s*\d+\s*:\s* in `s`, if there is one.
  function StepPrefix(s: string): (r: Option<nat>)
    ensures r.Some? ==> r.value <= |s|
  {
    if !StartsWithStepWord(s) then None
    else
      var a := Skip(s, 4, IsJsSpace);
      var b := Skip(s, a, IsDigit);
      if b == a then None
      else
        var c := Skip(s, b, IsJsSpace);
        if c == |s| || s[c] != ':' then None
        else Some(Skip(s, c + 1, IsJsSpace))
  }

  /**
   * `s[..n]` is "step", spaces up to `a`, digits up to `b`, spaces up to `c`,
   * a colon at `c`, and spaces up to `n`.
   */
  predicate StepShape(s: string, a: nat, b: nat, c: nat, n: nat) {
    4 <= a < b <= c < n <= |s| && StartsWithStepWord(s)
    && (forall k :: 4 <= k < a ==> IsJsSpace(s[k]))
    && (forall k :: a <= k < b ==> IsDigit(s[k]))
    && (forall k :: b <= k < c ==> IsJsSpace(s[k]))
    && s[c] == ':'
    && (forall k :: c < k < n ==> IsJsSpace(s[k]))
  }

  /** What the matcher returns has the shape, and its trailing spaces are maximal. */
  lemma StepPrefixShape(s: string)
    requires StepPrefix(s).Some?
    ensures var n := StepPrefix(s).value;
      (exists a: nat, b: nat, c: nat :: StepShape(s, a, b, c, n)) && (n == |s| || !IsJsSpace(s[n]))
  {
    var a := Skip(s, 4, IsJsSpace);
    var b := Skip(s, a, IsDigit);
    var c := Skip(s, b, IsJsSpace);
    SkipRun(s, 4, IsJsSpace);
    SkipRun(s, a, IsDigit);
    SkipRun(s, b, IsJsSpace);
    SkipRun(s, c + 1, IsJsSpace);
    assert StepShape(s, a, b, c, StepPrefix(s).value);
  }

  /** A prefix of the shape is found, and found whole when its trailing spaces are maximal. */
  lemma StepShapeFound(s: string, a: nat, b: nat, c: nat, n: nat)
    requires StepShape(s, a, b, c, n)
    ensures StepPrefix(s).Some?
    ensures n == |s| || !IsJsSpace(s[n]) ==> StepPrefix(s) == Some(n)
  {
    SkipUnique(s, 4, a, IsJsSpace);
    SkipUnique(s, a, b, IsDigit);
    SkipUnique(s, b, c, IsJsSpace);
    if n == |s| || !IsJsSpace(s[n]) {
      SkipUnique(s, c + 1, n, IsJsSpace);
    }
  }

  /**
   * The matcher finds exactly the "Step N:" prefix whose trailing spaces run
   * as far as they go (the greedy `\s*`), and finds nothing when no prefix
   * has the shape.
   */
  lemma StepPrefixMatches(s: string, n: nat)
    ensures StepPrefix(s) == Some(n) <==>
      (exists a: nat, b: nat, c: nat :: StepShape(s, a, b, c, n)) && (n == |s| || !IsJsSpace(s[n]))
    ensures StepPrefix(s).None? ==> forall a: nat, b: nat, c: nat :: !StepShape(s, a, b, c, n)
  {
    if StepPrefix(s) == Some(n) {
      StepPrefixShape(s);
    }
    forall a: nat, b: nat, c: nat | StepShape(s, a, b, c, n)
      ensures StepPrefix(s).Some?
      ensures n == |s| || !IsJsSpace(s[n]) ==> StepPrefix(s) == Some(n)
    {
      StepShapeFound(s, a, b, c, n);
    }
  }

  // ------------------------------------------------------------- "N." "N)"

  // Length of the match of the pattern ^\d+[\.\)]\s* in `s`, if there is one.
  function NumberPrefix(s: string): (r: Option<nat>)
    ensures r.Some? ==> r.value <= |s|
  {
    var d := Skip(s, 0, IsDigit);
    if d == 0 || d == |s| || (s[d] != '.' && s[d] != ')') then None
    else Some(Skip(s, d + 1, IsJsSpace))
  }

  /** `s[..n]` is digits up to `d`, a '.' or ')' at `d`, and spaces up to `n`. */
  predicate NumberShape(s: string, d: nat, n: nat) {
    0 < d < n <= |s|
    && (forall k :: 0 <= k < d ==> IsDigit(s[k]))
    && (s[d] == '.' || s[d] == ')')
    && (forall k :: d < k < n ==> IsJsSpace(s[k]))
  }

  /** The matcher finds exactly the numbered prefix whose trailing spaces run as far as they go. */
  lemma NumberPrefixMatches(s: string, n: nat)
    ensures NumberPrefix(s) == Some(n) <==>
      (exists d: nat :: NumberShape(s, d, n)) && (n == |s| || !IsJsSpace(s[n]))
    ensures NumberPrefix(s).None? ==> forall d: nat :: !NumberShape(s, d, n)
  {
    if NumberPrefix(s) == Some(n) {
      SkipRun(s, 0, IsDigit);
      SkipRun(s, Skip(s, 0, IsDigit) + 1, IsJsSpace);
      assert NumberShape(s, Skip(s, 0, IsDigit), n);
    }
    forall d: nat | NumberShape(s, d, n)
      ensures NumberPrefix(s).Some?
      ensures n == |s| || !IsJsSpace(s[n]) ==> NumberPrefix(s) == Some(n)
    {
      SkipUnique(s, 0, d, IsDigit);
      if n == |s| || !IsJsSpace(s[n]) {
        SkipUnique(s, d + 1, n, IsJsSpace);
      }
    }
  }

  /** `s` with the match of `prefix` removed, as `replace(re, '')` does for an anchored pattern. */
  function DropMatch(s: string, prefix: Option<nat>): (r: string)
    requires prefix.Some? ==> prefix.value <= |s|
    ensures prefix.None? ==> r == s
    ensures prefix.Some? ==> s == s[..prefix.value] + r
  {
    if prefix.None? then s else s[prefix.value..]
  }

  /** The string part of `cleanStr`: drop "Step N:", then "N." or "N)", then trim. */
  function CleanText(s: string): (r: string)
    ensures r != [] ==> !IsJsSpace(r[0]) && !IsJsSpace(r[|r| - 1])
  {
    var afterStep := DropMatch(s, StepPrefix(s));
    Trim(DropMatch(afterStep, NumberPrefix(afterStep)), IsJsSpace)
  }

  /** Text that starts with neither "step" nor a digit is only trimmed. */
  lemma CleanTextPlain(s: string)
    requires !StartsWithStepWord(s) && (s == [] || !IsDigit(s[0]))
    ensures CleanText(s) == Trim(s, IsJsSpace)
  {
    assert Skip(s, 0, IsDigit) == 0;
  }

  /** A cleaned step text never starts with a numbered prefix unless the text itself was numbered twice. */
  lemma CleanTextDropsStep(s: string, n: nat, rest: string)
    requires StepPrefix(s) == Some(n) && rest == s[n..]
    requires !StartsWithStepWord(rest) && (rest == [] || !IsDigit(rest[0]))
    ensures CleanText(s) == Trim(rest, IsJsSpace)
  {
    assert Skip(rest, 0, IsDigit) == 0;
  }

  /** With no "Step N:" prefix, a numbered prefix "N." or "N)" is dropped, then the rest trimmed. */
  lemma CleanTextDropsNumber(s: string, n: nat)
    requires StepPrefix(s).None? && NumberPrefix(s) == Some(n)
    ensures CleanText(s) == Trim(s[n..], IsJsSpace)
  {
  }

  /** "Step N:" followed by "M." or "M)": both prefixes are dropped, then the rest trimmed. */
  lemma CleanTextDropsStepThenNumber(s: string, n: nat, m: nat)
    requires StepPrefix(s) == Some(n) && NumberPrefix(s[n..]) == Some(m)
    ensures n + m <= |s|
    ensures CleanText(s) == Trim(s[n + m..], IsJsSpace)
  {
    assert s[n..][m..] == s[n + m..];
  }

  // ------------------------------------------------------------- cleanStr

  /** `a || b` on JavaScript values. */
  function JsOr(a: JsValue, b: JsValue): (r: JsValue)
    ensures r == a || r == b
    ensures JsTruthy(r) <==> JsTruthy(a) || JsTruthy(b)
    ensures JsTruthy(a) ==> r == a
    ensures !JsTruthy(a) ==> r == b
  {
    if JsTruthy(a) then a else b
  }

  /** `a ?? b` on JavaScript values. */
  function JsCoalesce(a: JsValue, b: JsValue): (r: JsValue)
    ensures r == a || r == b
    ensures JsNullish(r) <==> JsNullish(a) && JsNullish(b)
    ensures !JsNullish(a) ==> r == a
    ensures JsNullish(a) ==> r == b
  {
    if JsNullish(a) then b else a
  }

  /** `Object.values(v)` of an object or an array. */
  function ObjectValues(j: Json): (r: seq<Json>)
    requires j.JObj? || j.JArr?
    ensures j.JArr? ==> r == j.items
    ensures j.JObj? ==> |r| == |j.fields| && forall i :: 0 <= i < |r| ==> r[i] == j.fields[i].1
  {
    if j.JArr? then j.items else seq(|j.fields|, i requires 0 <= i < |j.fields| => j.fields[i].1)
  }

  /** `values.find((val) => typeof val === 'string')`. */
  function FirstString(values: seq<Json>): (r: JsValue)
    ensures r.Some? ==> r.value.JStr? && r.value in values
    ensures r.None? <==> forall i :: 0 <= i < |values| ==> !values[i].JStr?
    ensures r.Some? ==> exists i :: 0 <= i < |values| && values[i] == r.value && forall j :: 0 <= j < i ==> !values[j].JStr?
  {
    if values == [] then None
    else if values[0].JStr? then Some(values[0])
    else FirstString(values[1..])
  }

  /** The members `cleanStr` tries on an object, in order. */
  const TextKeys: seq<string> := ["text", "instruction", "name", "desc"]

  /** None of the first `n` of those members is truthy. */
  predicate NoTextBefore(fields: seq<(string, Json)>, n: nat)
    requires n <= |TextKeys|
  {
    forall k :: 0 <= k < n ==> !JsTruthy(Lookup(fields, TextKeys[k]))
  }

  /** The value `cleanStr` picks out of an object or array. */
  function PickedText(j: Json): (r: JsValue)
    requires j.JObj? || j.JArr?
    ensures j.JArr? ==> r == FirstString(j.items) || r == Some(JStr(""))
    ensures j.JArr? ==> r.Some? && r.value.JStr?
    ensures j.JObj? && JsTruthy(Lookup(j.fields, "text")) ==> r == Lookup(j.fields, "text")
    ensures j.JObj? && NoTextBefore(j.fields, 1) && JsTruthy(Lookup(j.fields, "instruction"))
      ==> r == Lookup(j.fields, "instruction")
    ensures j.JObj? && NoTextBefore(j.fields, 2) && JsTruthy(Lookup(j.fields, "name"))
      ==> r == Lookup(j.fields, "name")
    ensures j.JObj? && NoTextBefore(j.fields, 3) && JsTruthy(Lookup(j.fields, "desc"))
      ==> r == Lookup(j.fields, "desc")
    ensures j.JArr? || NoTextBefore(j.fields, 4) ==>
      if JsTruthy(FirstString(ObjectValues(j))) then r == FirstString(ObjectValues(j)) else r == Some(JStr(""))
  {
    var v := Some(j);
    assert TextKeys[0] == "text" && TextKeys[1] == "instruction" && TextKeys[2] == "name" && TextKeys[3] == "desc";
    JsOr(JsOptGet(v, "text"), JsOr(JsOptGet(v, "instruction"), JsOr(JsOptGet(v, "name"),
      JsOr(JsOptGet(v, "desc"), JsOr(FirstString(ObjectValues(j)), Some(JStr("")))))))
  }

  /**
   * The `.replace(…).replace(…).trim()` chain applied to `result`: a string
   * is cleaned; any other value has no `replace`, so the call throws.
   */
  function ReplaceChain(result: JsValue): (r: Result<string, JsError>)
    ensures r.Ok? <==> result.Some? && result.value.JStr?
    ensures r.Ok? && r.value != [] ==> !IsJsSpace(r.value[0]) && !IsJsSpace(r.value[|r.value| - 1])
  {
    if result.Some? && result.value.JStr? then Ok(CleanText(result.value.s)) else Err(JsTypeError)
  }

  /**
   * `cleanStr`: '' for null/undefined; for an object, its text, instruction,
   * name or desc member, or its first string value; `String(v)` otherwise.
   */
  function CleanStr(v: JsValue): (r: Result<string, JsError>)
    ensures JsNullish(v) ==> r == Ok("")
    ensures r.Ok? && r.value != [] ==> !IsJsSpace(r.value[0]) && !IsJsSpace(r.value[|r.value| - 1])
    ensures r.Err? ==> v.Some? && (v.value.JObj? || v.value.JArr?)
    ensures v.Some? && v.value.JArr? ==> r.Ok?
    ensures v.Some? && v.value.JStr? ==> r == Ok(CleanText(v.value.s))
    ensures v.Some? && (v.value.JNum? || v.value.JBool?) ==> r == Ok(CleanText(JsString(v)))
    ensures v.Some? && (v.value.JObj? || v.value.JArr?) ==>
      (if PickedText(v.value).value.JStr? then r == Ok(CleanText(PickedText(v.value).value.s)) else r == Err(JsTypeError))
  {
    if JsNullish(v) then Ok("")
    else if v.value.JObj? || v.value.JArr? then ReplaceChain(PickedText(v.value))
    else if v.value.JStr? then ReplaceChain(v)
    else ReplaceChain(Some(JStr(JsString(v))))
  }

  /** A string is cleaned as it is (`String(s)` is `s`). */
  lemma CleanStrOfString(s: string)
    ensures CleanStr(Some(JStr(s))) == Ok(CleanText(s))
  {
  }

  /** An object whose `text` is a string is cleaned from that string, whatever else it holds. */
  lemma CleanStrPrefersText(fields: seq<(string, Json)>, s: string)
    requires Lookup(fields, "text") == Some(JStr(s)) && s != ""
    ensures CleanStr(Some(JObj(fields))) == Ok(CleanText(s))
  {
    assert PickedText(JObj(fields)) == Some(JStr(s)) by {
      assert JsTruthy(Lookup(fields, "text"));
    }
  }

  /** An object whose picked member is a number throws. */
  lemma CleanStrThrowsOnNumber(fields: seq<(string, Json)>, n: int)
    requires Lookup(fields, "text") == Some(JNum(n)) && n != 0
    ensures CleanStr(Some(JObj(fields))).Err?
  {
    assert PickedText(JObj(fields)) == Some(JNum(n));
  }

  // ------------------------------------------------------------ the recipe

  /**
   * The normalised recipe. `calories` keeps the value the `??` chain selects:
   * the number `extractNum` parses out of it is not part of this model.
   */
  datatype Recipe = Recipe(
    title: string,
    description: string,
    prepTime: string,
    difficulty: string,
    calories: JsValue,
    protein: string,
    fat: string,
    carbs: string,
    ingredientsList: seq<string>,
    instructions: seq<string>)

  /** The value cleaned for one alias key: `data?.nutrition?.[key] ?? data?.[key]`, '' when nullish. */
  function MacroValue(data: JsValue, key: string): (r: Result<string, JsError>)
    ensures r.Ok? && r.value != [] ==> !IsJsSpace(r.value[0])
    ensures !JsNullish(JsOptGet(JsOptGet(data, "nutrition"), key)) ==> r == CleanStr(JsOptGet(JsOptGet(data, "nutrition"), key))
    ensures JsNullish(JsOptGet(JsOptGet(data, "nutrition"), key)) ==> r == CleanStr(JsOptGet(data, key))
  {
    var val := JsCoalesce(JsOptGet(JsOptGet(data, "nutrition"), key), JsOptGet(data, key));
    if JsNullish(val) then Ok("") else CleanStr(val)
  }

  /** The cleaned value of each alias, in order. */
  function MacroValues(data: JsValue, keys: seq<string>): (r: seq<Result<string, JsError>>)
    ensures |r| == |keys| && forall i :: 0 <= i < |keys| ==> r[i] == MacroValue(data, keys[i])
  {
    seq(|keys|, i requires 0 <= i < |keys| => MacroValue(data, keys[i]))
  }

  /**
   * The search `findMacro` does over the aliases' values: the first one that
   * is not '' (a TypeError included, since it ends the search), else '0'.
   */
  function FirstNonEmpty(vals: seq<Result<string, JsError>>): (r: Result<string, JsError>)
    ensures r.Ok? ==> r.value != ""
    ensures (forall i :: 0 <= i < |vals| ==> vals[i] == Ok("")) ==> r == Ok("0")
  {
    if vals == [] then Ok("0")
    else if vals[0] == Ok("") then FirstNonEmpty(vals[1..])
    else vals[0]
  }

  /** `findMacro`: the first alias whose cleaned value is non-empty, else '0'. */
  function FindMacro(data: JsValue, keys: seq<string>): (r: Result<string, JsError>)
    ensures r.Ok? ==> r.value != ""
    ensures (forall i :: 0 <= i < |keys| ==> MacroValue(data, keys[i]) == Ok("")) ==> r == Ok("0")
    ensures (r == Ok("0") && forall i :: 0 <= i < |keys| ==> MacroValue(data, keys[i]) == Ok(""))
      || exists i :: (0 <= i < |keys| && MacroValue(data, keys[i]) == r
        && r != Ok("") && forall j :: 0 <= j < i ==> MacroValue(data, keys[j]) == Ok(""))
  {
    FirstNonEmptyFirst(MacroValues(data, keys));
    FirstNonEmpty(MacroValues(data, keys))
  }

  /** Every value empty gives '0'. */
  lemma {:induction false} FirstNonEmptyDefault(vals: seq<Result<string, JsError>>)
    requires forall i :: 0 <= i < |vals| ==> vals[i] == Ok("")
    ensures FirstNonEmpty(vals) == Ok("0")
  {
    if vals != [] {
      assert vals[0] == Ok("");
      FirstNonEmptyDefault(vals[1..]);
    }
  }

  /** Otherwise the result is the first value that is not ''. */
  lemma {:induction false} FirstNonEmptyFirst(vals: seq<Result<string, JsError>>)
    ensures var r := FirstNonEmpty(vals);
      (r == Ok("0") && forall i :: 0 <= i < |vals| ==> vals[i] == Ok(""))
      || exists i :: (0 <= i < |vals| && vals[i] == r
        && r != Ok("") && forall j :: 0 <= j < i ==> vals[j] == Ok(""))
  {
    if vals != [] && vals[0] == Ok("") {
      var r := FirstNonEmpty(vals);
      var tail := vals[1..];
      FirstNonEmptyFirst(tail);
      if forall i :: 0 <= i < |tail| ==> tail[i] == Ok("") {
        forall i | 0 <= i < |vals| ensures vals[i] == Ok("") {
          if i > 0 {
            assert vals[i] == tail[i - 1];
          }
        }
      } else {
        var i :| 0 <= i < |tail| && tail[i] == r && r != Ok("") && forall j :: 0 <= j < i ==> tail[j] == Ok("");
        assert vals[i + 1] == r;
        assert forall j :: 0 <= j < i + 1 ==> vals[j] == Ok("");
      }
    } else if vals != [] {
      assert vals[0] == FirstNonEmpty(vals);
    }
  }

  /** A '0' result with no value that is literally '0' means every value was ''. */
  lemma FirstNonEmptyZero(vals: seq<Result<string, JsError>>)
    requires FirstNonEmpty(vals) == Ok("0")
    requires forall i :: 0 <= i < |vals| ==> vals[i] != Ok("0")
    ensures forall i :: 0 <= i < |vals| ==> vals[i] == Ok("")
  {
    FirstNonEmptyFirst(vals);
  }

  /** `Array.isArray(v)`. */
  predicate IsArray(v: JsValue) {
    v.Some? && v.value.JArr?
  }

  /** The array a list field names, else the array its alias names, else []. */
  function ListSource(data: JsValue, key: string, alias: string): (r: seq<Json>)
    ensures JsOptGet(data, key).Some? && JsOptGet(data, key).value.JArr? ==> r == JsOptGet(data, key).value.items
    ensures !IsArray(JsOptGet(data, key)) && IsArray(JsOptGet(data, alias)) ==> r == JsOptGet(data, alias).value.items
    ensures !IsArray(JsOptGet(data, key)) && !IsArray(JsOptGet(data, alias)) ==> r == []
  {
    var primary := JsOptGet(data, key);
    var secondary := JsOptGet(data, alias);
    if primary.Some? && primary.value.JArr? then primary.value.items
    else if secondary.Some? && secondary.value.JArr? then secondary.value.items
    else []
  }

  /** `items.map(cleanStr)`: one result per item. */
  function CleanEach(items: seq<Json>): (r: seq<Result<string, JsError>>)
    ensures |r| == |items| && forall i :: 0 <= i < |items| ==> r[i] == CleanStr(Some(items[i]))
  {
    seq(|items|, i requires 0 <= i < |items| => CleanStr(Some(items[i])))
  }

  /** `.filter((s) => s.length > 0)` after the map; the map throws when any item threw. */
  function KeepNonEmpty(cleaned: seq<Result<string, JsError>>): (r: Result<seq<string>, JsError>)
    ensures r.Ok? ==> |r.value| <= |cleaned| && forall i :: 0 <= i < |r.value| ==> r.value[i] != ""
    ensures r.Err? <==> exists i :: 0 <= i < |cleaned| && cleaned[i].Err?
  {
    if cleaned == [] then Ok([])
    else
      var rest := KeepNonEmpty(cleaned[1..]);
      assert forall i :: 1 <= i < |cleaned| ==> cleaned[1..][i - 1] == cleaned[i];
      if cleaned[0].Err? then Err(JsTypeError)
      else if rest.Err? then Err(JsTypeError)
      else Ok(if cleaned[0].value == "" then rest.value else [cleaned[0].value] + rest.value)
  }

  /** Filtering a concatenation filters each part and keeps their order. */
  lemma {:induction false} KeepNonEmptyAppend(a: seq<Result<string, JsError>>, b: seq<Result<string, JsError>>)
    requires KeepNonEmpty(a).Ok? && KeepNonEmpty(b).Ok?
    ensures KeepNonEmpty(a + b) == Ok(KeepNonEmpty(a).value + KeepNonEmpty(b).value)
  {
    if a == [] {
      assert a + b == b;
      assert KeepNonEmpty(a).value == [];
      assert [] + KeepNonEmpty(b).value == KeepNonEmpty(b).value;
    } else {
      assert (a + b)[1..] == a[1..] + b;
      assert (a + b)[0] == a[0];
      KeepNonEmptyAppend(a[1..], b);
      var ra, rb := KeepNonEmpty(a[1..]).value, KeepNonEmpty(b).value;
      if a[0].value != "" {
        assert [a[0].value] + (ra + rb) == ([a[0].value] + ra) + rb;
      }
    }
  }

  /** One cleaned item is kept exactly when it is non-empty. */
  lemma KeepNonEmptySingle(s: string)
    ensures KeepNonEmpty([Ok(s)]) == Ok(if s == "" then [] else [s])
  {
    var one: seq<Result<string, JsError>> := [Ok(s)];
    assert one[1..] == [];
    assert KeepNonEmpty(one[1..]) == Ok([]);
    assert [s] + [] == [s];
  }

  /** `items.map(cleanStr).filter((s) => s.length > 0)`. */
  function CleanList(items: seq<Json>): (r: Result<seq<string>, JsError>)
    ensures r.Ok? ==> |r.value| <= |items| && forall i :: 0 <= i < |r.value| ==> r.value[i] != ""
    ensures r.Err? <==> exists i :: 0 <= i < |items| && CleanStr(Some(items[i])).Err?
  {
    var cleaned := CleanEach(items);
    assert forall i :: 0 <= i < |items| ==> cleaned[i] == CleanStr(Some(items[i]));
    KeepNonEmpty(cleaned)
  }

  /** `cleanStr(x) || fallback`. */
  function NonEmptyOr(s: string, fallback: string): (r: string)
    ensures r == (if s != "" then s else fallback)
  {
    if s != "" then s else fallback
  }

  /** The object the fields are read from: the nested `recipe` when it is truthy. */
  function Payload(raw: JsValue): (r: JsValue)
    ensures r == raw || r == JsOptGet(raw, "recipe")
    ensures JsTruthy(JsOptGet(raw, "recipe")) ==> r == JsOptGet(raw, "recipe")
    ensures !JsTruthy(JsOptGet(raw, "recipe")) ==> r == raw
  {
    if JsTruthy(JsOptGet(raw, "recipe")) then JsOptGet(raw, "recipe") else raw
  }

  /** The four text fields at the head of the recipe literal, evaluated first. */
  datatype Header = Header(title: string, description: string, prepTime: string, difficulty: string)

  /** Title, description, prep time and difficulty, each cleaned and defaulted when empty. */
  function RecipeHeader(data: JsValue, fallbackTitle: string): (r: Result<Header, JsError>)
    ensures r.Ok? <==> (CleanStr(JsOptGet(data, "title")).Ok? && CleanStr(JsOptGet(data, "description")).Ok?
      && CleanStr(JsOr(JsOptGet(data, "prepTime"), JsOptGet(data, "time"))).Ok? && CleanStr(JsOptGet(data, "difficulty")).Ok?)
    ensures r.Ok? ==> (r.value.title != "" && r.value.description != ""
      && r.value.prepTime != "" && r.value.difficulty != "")
    ensures r.Ok? ==> var t := CleanStr(JsOptGet(data, "title")).value;
      (t != "" ==> r.value.title == t)
      && (t == "" && fallbackTitle != "" ==> r.value.title == fallbackTitle)
      && (t == "" && fallbackTitle == "" ==> r.value.title == "Untitled Recipe")
    ensures r.Ok? ==> var d := CleanStr(JsOptGet(data, "description")).value;
      (d != "" ==> r.value.description == d) && (d == "" ==> r.value.description == "AI Chef Creation")
    ensures r.Ok? ==> var p := CleanStr(JsOr(JsOptGet(data, "prepTime"), JsOptGet(data, "time"))).value;
      (p != "" ==> r.value.prepTime == p) && (p == "" ==> r.value.prepTime == "30m")
    ensures r.Ok? ==> var d := CleanStr(JsOptGet(data, "difficulty")).value;
      (d != "" ==> r.value.difficulty == d) && (d == "" ==> r.value.difficulty == "Normal")
  {
    var title :- CleanStr(JsOptGet(data, "title"));
    var description :- CleanStr(JsOptGet(data, "description"));
    var prepTime :- CleanStr(JsOr(JsOptGet(data, "prepTime"), JsOptGet(data, "time")));
    var difficulty :- CleanStr(JsOptGet(data, "difficulty"));
    Ok(Header(
      NonEmptyOr(title, NonEmptyOr(fallbackTitle, "Untitled Recipe")),
      NonEmptyOr(description, "AI Chef Creation"),
      NonEmptyOr(prepTime, "30m"),
      NonEmptyOr(difficulty, "Normal")))
  }

  /** The alias keys `findMacro` is called with, in order. */
  const ProteinKeys: seq<string> := ["protein", "proteins", "белки", "белок"]
  const FatKeys: seq<string> := ["fat", "fats", "жиры", "жир"]
  const CarbKeys: seq<string> := ["carbs", "carbohydrates", "углеводы", "углевод"]

  /** The fields of the recipe read from `data`; Err is the TypeError a non-string text member raises. */
  function RecipeFields(data: JsValue, fallbackTitle: string): (r: Result<Recipe, JsError>)
    ensures r.Ok? ==>
      var rec := r.value;
      rec.title != "" && rec.description != "" && rec.prepTime != "" && rec.difficulty != ""
      && rec.protein != "" && rec.fat != "" && rec.carbs != ""
      && (forall i :: 0 <= i < |rec.ingredientsList| ==> rec.ingredientsList[i] != "")
      && (forall i :: 0 <= i < |rec.instructions| ==> rec.instructions[i] != "")
    ensures r.Ok? ==> (RecipeHeader(data, fallbackTitle)
      == Ok(Header(r.value.title, r.value.description, r.value.prepTime, r.value.difficulty)))
    ensures r.Ok? ==> CleanList(ListSource(data, "ingredientsList", "ingredients")) == Ok(r.value.ingredientsList)
    ensures r.Ok? ==> CleanList(ListSource(data, "instructions", "steps")) == Ok(r.value.instructions)
    ensures r.Ok? <==> (RecipeHeader(data, fallbackTitle).Ok?
      && FindMacro(data, ProteinKeys).Ok? && FindMacro(data, FatKeys).Ok? && FindMacro(data, CarbKeys).Ok?
      && CleanList(ListSource(data, "ingredientsList", "ingredients")).Ok?
      && CleanList(ListSource(data, "instructions", "steps")).Ok?)
    ensures r.Ok? ==> (FindMacro(data, ProteinKeys) == Ok(r.value.protein)
      && FindMacro(data, FatKeys) == Ok(r.value.fat) && FindMacro(data, CarbKeys) == Ok(r.value.carbs))
    ensures r.Ok? && !JsNullish(JsOptGet(JsOptGet(data, "nutrition"), "calories"))
      ==> r.value.calories == JsOptGet(JsOptGet(data, "nutrition"), "calories")
    ensures (r.Ok? && JsNullish(JsOptGet(JsOptGet(data, "nutrition"), "calories"))
      && !JsNullish(JsOptGet(JsOptGet(data, "nutrition"), "kcal")))
      ==> r.value.calories == JsOptGet(JsOptGet(data, "nutrition"), "kcal")
    ensures (r.Ok? && JsNullish(JsOptGet(JsOptGet(data, "nutrition"), "calories"))
      && JsNullish(JsOptGet(JsOptGet(data, "nutrition"), "kcal")) && !JsNullish(JsOptGet(data, "calories")))
      ==> r.value.calories == JsOptGet(data, "calories")
    ensures (r.Ok? && JsNullish(JsOptGet(JsOptGet(data, "nutrition"), "calories"))
      && JsNullish(JsOptGet(JsOptGet(data, "nutrition"), "kcal")) && JsNullish(JsOptGet(data, "calories"))
      && !JsNullish(JsOptGet(data, "kcal")))
      ==> r.value.calories == JsOptGet(data, "kcal")
    ensures (r.Ok? && JsNullish(JsOptGet(JsOptGet(data, "nutrition"), "calories")) && JsNullish(JsOptGet(JsOptGet(data, "nutrition"), "kcal"))
      && JsNullish(JsOptGet(data, "calories")) && JsNullish(JsOptGet(data, "kcal"))) ==> r.value.calories == Some(JNum(0))
  {
    var head :- RecipeHeader(data, fallbackTitle);
    var nutrition := JsOptGet(data, "nutrition");
    var calories := JsCoalesce(JsOptGet(nutrition, "calories"), JsCoalesce(JsOptGet(nutrition, "kcal"),
      JsCoalesce(JsOptGet(data, "calories"), JsCoalesce(JsOptGet(data, "kcal"), Some(JNum(0))))));
    var protein :- FindMacro(data, ProteinKeys);
    var fat :- FindMacro(data, FatKeys);
    var carbs :- FindMacro(data, CarbKeys);
    var ingredientsList :- CleanList(ListSource(data, "ingredientsList", "ingredients"));
    var instructions :- CleanList(ListSource(data, "instructions", "steps"));
    Ok(Recipe(head.title, head.description, head.prepTime, head.difficulty, calories, protein, fat, carbs, ingredientsList, instructions))
  }

  /** `normalizeRecipeData(raw, fallbackTitle)`: null for a falsy `raw`, else the recipe read from its payload. */
  function NormalizeRecipeData(raw: JsValue, fallbackTitle: string): (r: Result<Option<Recipe>, JsError>)
    ensures !JsTruthy(raw) <==> r == Ok(None)
    ensures JsTruthy(raw) ==> r == (match RecipeFields(Payload(raw), fallbackTitle)
      case Ok(rec) => Ok(Some(rec))
      case Err(e) => Err(e))
  {
    if !JsTruthy(raw) then Ok(None)
    else
      var rec :- RecipeFields(Payload(raw), fallbackTitle);
      Ok(Some(rec))
  }

  /**
   * With no usable title the fallback title is used, and 'Untitled Recipe'
   * when that is empty too; the other text fields take their defaults.
   */
  lemma RecipeDefaults(data: JsValue, fallbackTitle: string)
    requires RecipeFields(data, fallbackTitle).Ok?
    requires JsNullish(JsOptGet(data, "title")) && JsNullish(JsOptGet(data, "description"))
    requires !JsTruthy(JsOptGet(data, "prepTime")) && JsNullish(JsOptGet(data, "time"))
    requires JsNullish(JsOptGet(data, "difficulty"))
    ensures var rec := RecipeFields(data, fallbackTitle).value;
      rec.title == (if fallbackTitle != "" then fallbackTitle else "Untitled Recipe")
      && rec.description == "AI Chef Creation" && rec.prepTime == "30m" && rec.difficulty == "Normal"
  {
    var rec := RecipeFields(data, fallbackTitle).value;
    assert RecipeHeader(data, fallbackTitle) == Ok(Header(rec.title, rec.description, rec.prepTime, rec.difficulty));
    assert CleanStr(JsOptGet(data, "title")) == Ok("");
    assert CleanStr(JsOptGet(data, "description")) == Ok("");
    assert CleanStr(JsOr(JsOptGet(data, "prepTime"), JsOptGet(data, "time"))) == Ok("");
    assert CleanStr(JsOptGet(data, "difficulty")) == Ok("");
  }

  /** A wrapper object `{recipe: …}` is normalised as its content. */
  lemma NormalizeUnwraps(raw: JsValue, fallbackTitle: string)
    requires JsTruthy(JsOptGet(raw, "recipe")) && !JsTruthy(JsOptGet(JsOptGet(raw, "recipe"), "recipe"))
    ensures NormalizeRecipeData(raw, fallbackTitle) == NormalizeRecipeData(JsOptGet(raw, "recipe"), fallbackTitle)
  {
    assert JsTruthy(raw);
    assert Payload(raw) == Payload(JsOptGet(raw, "recipe"));
  }

  /** `ingredientsList` wins over `ingredients`, and the kept lines are the cleaned source lines in order. */
  lemma RecipeIngredientsSource(data: JsValue, fallbackTitle: string, items: seq<Json>)
    requires RecipeFields(data, fallbackTitle).Ok?
    requires JsOptGet(data, "ingredientsList") == Some(JArr(items))
    ensures CleanList(items).Ok?
    ensures RecipeFields(data, fallbackTitle).value.ingredientsList == CleanList(items).value
  {
    assert ListSource(data, "ingredientsList", "ingredients") == items;
  }
}
