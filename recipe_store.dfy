/**
 * `useRecipeStore`: the client's recipe state. The ingredient list the user
 * builds, the cooking-step cursor and the resets done when a recipe is
 * generated, selected or dismissed.
 *
 * The awaited requests (`fetchRecipes`, `fetchImage`) are parameters holding
 * what they resolved to; `Date.now()` before and after the await are the
 * parameters `now` and `later`. The app-wide error message lives in another
 * store; the methods return what they write into it.
 */
module RecipeStore {
  import opened Wrappers
  import opened Json
  import opened Text
  import opened Ingredient
  import opened RecipeNormalize

  /** A cached image is reused for an hour. */
  const ImageCacheTtlMs := 60 * 60 * 1000
  /** `generateRecipe` keeps the first three suggestions. */
  const MaxSuggestions := 3

  datatype CachedImage = CachedImage(data: string, timestamp: int)

  /** What an action does to the app-wide error message. */
  datatype ErrorUpdate = Untouched | Cleared | Message(text: string)

  // ----------------------------------------------------------- ingredients

  predicate NoDuplicates(s: seq<string>) {
    forall i, j :: 0 <= i < j < |s| ==> s[i] != s[j]
  }

  /** What the store's list always is: normalised, non-empty entries without duplicates. */
  predicate WellFormedIngredients(s: seq<string>) {
    NoDuplicates(s) && forall i :: 0 <= i < |s| ==> s[i] != "" && Normalize(s[i]) == s[i]
  }

  /** The list after `addIngredient(ing)`: the normalised entry appended unless blank or already there. */
  function WithIngredient(s: seq<string>, ing: string): (r: seq<string>)
    ensures Normalize(ing) != "" ==> Normalize(ing) in r
    ensures forall x :: x in r <==> x in s || (x == Normalize(ing) && x != "")
    ensures r == s || r == s + [Normalize(ing)]
  {
    var n := Normalize(ing);
    if n != "" && n !in s then s + [n] else s
  }

  /** `s.filter((i) => i !== x)`. */
  function Without(s: seq<string>, x: string): (r: seq<string>)
    ensures |r| <= |s|
    ensures forall y :: y in r <==> y in s && y != x
  {
    if s == [] then [] else (if s[0] == x then [] else [s[0]]) + Without(s[1..], x)
  }

  /** Filtering a concatenation filters each part and keeps their order. */
  lemma {:induction false} WithoutAppend(a: seq<string>, b: seq<string>, x: string)
    ensures Without(a + b, x) == Without(a, x) + Without(b, x)
  {
    if a == [] {
      assert a + b == b;
    } else {
      assert (a + b)[1..] == a[1..] + b;
      WithoutAppend(a[1..], b, x);
    }
  }

  /** Removing an absent entry changes nothing. */
  lemma {:induction false} WithoutAbsent(s: seq<string>, x: string)
    requires x !in s
    ensures Without(s, x) == s
  {
    if s != [] {
      WithoutAbsent(s[1..], x);
      assert [s[0]] + s[1..] == s;
    }
  }

  /** Filtering never creates a duplicate. */
  lemma {:induction false} WithoutKeepsNoDuplicates(s: seq<string>, x: string)
    requires NoDuplicates(s)
    ensures NoDuplicates(Without(s, x))
  {
    if s != [] {
      WithoutKeepsNoDuplicates(s[1..], x);
      var rest := Without(s[1..], x);
      assert s[0] !in s[1..];
      assert s[0] !in rest;
    }
  }

  /** Appending a normalised, non-empty entry that is not yet there keeps the list well formed. */
  lemma AppendKeepsWellFormed(s: seq<string>, n: string)
    requires WellFormedIngredients(s) && n != "" && n !in s && Normalize(n) == n
    ensures WellFormedIngredients(s + [n])
  {
    var r := s + [n];
    forall i | 0 <= i < |r|
      ensures r[i] != "" && Normalize(r[i]) == r[i]
    {
      if i < |s| {
        assert r[i] == s[i];
      }
    }
    forall i, j | 0 <= i < j < |r|
      ensures r[i] != r[j]
    {
      assert r[i] == s[i];
      if j == |s| {
        assert r[i] in s;
      } else {
        assert r[j] == s[j];
      }
    }
  }

  /** Adding keeps the list normalised, free of blanks and free of duplicates. */
  lemma WithIngredientKeepsWellFormed(s: seq<string>, ing: string)
    requires WellFormedIngredients(s)
    ensures WellFormedIngredients(WithIngredient(s, ing))
  {
    var n := Normalize(ing);
    if n != "" && n !in s {
      NormalizeIdempotent(ing);
      AppendKeepsWellFormed(s, n);
    }
  }

  lemma WithoutKeepsWellFormed(s: seq<string>, x: string)
    requires WellFormedIngredients(s)
    ensures WellFormedIngredients(Without(s, x))
  {
    WithoutKeepsNoDuplicates(s, x);
    var r := Without(s, x);
    forall i | 0 <= i < |r|
      ensures r[i] != "" && Normalize(r[i]) == r[i]
    {
      assert r[i] in s;
    }
  }

  /** Adding the same text twice is adding it once. */
  lemma WithIngredientIdempotent(s: seq<string>, ing: string)
    ensures WithIngredient(WithIngredient(s, ing), ing) == WithIngredient(s, ing)
  {
  }

  /** Removing a freshly added entry restores the list. */
  lemma RemoveUndoesAdd(s: seq<string>, ing: string)
    requires Normalize(ing) !in s
    ensures Without(WithIngredient(s, ing), Normalize(ing)) == s
  {
    var n := Normalize(ing);
    if n != "" {
      WithoutAppend(s, [n], n);
      WithoutAbsent(s, n);
      assert Without([n], n) == [];
      assert s + [] == s;
    } else {
      WithoutAbsent(s, n);
    }
  }

  // ----------------------------------------------------------- step cursor

  /** `Math.min(currentStep + 1, instructions.length - 1)`. */
  function NextStepValue(step: int, count: nat): (r: int)
    ensures r <= count - 1 && r <= step + 1
    ensures r == step + 1 || r == count - 1
  {
    if step + 1 < count - 1 then step + 1 else count - 1
  }

  /** `Math.max(0, currentStep - 1)`. */
  function PrevStepValue(step: int): (r: int)
    ensures r >= 0 && r >= step - 1 && (r == step - 1 || r == 0)
  {
    if 0 < step - 1 then step - 1 else 0
  }

  /** From a valid step both moves give a valid step; the last step and the first one are fixed points. */
  lemma StepCursorInRange(step: int, count: nat)
    requires 0 <= step < count
    ensures 0 <= NextStepValue(step, count) < count && 0 <= PrevStepValue(step) < count
    ensures step == count - 1 <==> NextStepValue(step, count) == step
    ensures step == 0 <==> PrevStepValue(step) == step
  {
  }

  /** Stepping forward then back, or back then forward, away from the ends returns to the same step. */
  lemma StepMovesUndo(step: int, count: nat)
    ensures 0 <= step < count - 1 ==> PrevStepValue(NextStepValue(step, count)) == step
    ensures 1 <= step < count ==> NextStepValue(PrevStepValue(step), count) == step
  {
  }

  // --------------------------------------------------------------- images

  /** A cache entry for `key` younger than an hour at time `now`. */
  predicate FreshCacheHit(cache: map<string, CachedImage>, key: string, now: int) {
    key in cache && now - cache[key].timestamp < ImageCacheTtlMs
  }

  /** The key `selectRecipe` uses: the title, or "undefined" when the raw value was kept as it was. */
  function CacheKey(normalized: Option<Recipe>): string {
    if normalized.Some? then normalized.value.title else "undefined"
  }

  /** `normalized.slice(0, 3)`. */
  function FirstSuggestions(list: seq<Recipe>): (r: seq<Recipe>)
    ensures |r| <= MaxSuggestions && |r| <= |list| && r == list[..|r|]
    ensures |list| <= MaxSuggestions ==> r == list
    ensures |r| == if |list| <= MaxSuggestions then |list| else MaxSuggestions
  {
    if |list| <= MaxSuggestions then list else list[..MaxSuggestions]
  }

  function FailedRecipesMessage(language: string): string {
    if language == "ru" then "Не удалось создать рецепты." else "Failed to create recipes."
  }

  class Store {
    var ingredients: seq<string>
    var inputValue: string
    var isGenerating: bool
    var recipeSuggestions: seq<Recipe>
    var recipe: Option<Recipe>
    var recipeImage: Option<string>
    var imageFailed: bool
    var imageCache: map<string, CachedImage>
    var mealPlan: Option<Json>
    var drinkSuggestion: Option<Json>
    var currentStep: int
    var showCookingIngredients: bool

    predicate Valid()
      reads this
    {
      WellFormedIngredients(ingredients)
    }

    /** The store's initial state. */
    constructor ()
      ensures Valid()
      ensures ingredients == [] && inputValue == "" && !isGenerating && recipeSuggestions == []
      ensures recipe.None? && recipeImage.None? && !imageFailed && imageCache == map[]
      ensures mealPlan.None? && drinkSuggestion.None? && currentStep == 0 && !showCookingIngredients
    {
      ingredients := [];
      inputValue := "";
      isGenerating := false;
      recipeSuggestions := [];
      recipe := None;
      recipeImage := None;
      imageFailed := false;
      imageCache := map[];
      mealPlan := None;
      drinkSuggestion := None;
      currentStep := 0;
      showCookingIngredients := false;
    }

    /** `addIngredient`: appends the normalised text when it is new and non-blank; always clears the input. */
    method AddIngredient(ing: string)
      requires Valid()
      modifies this
      ensures Valid()
      ensures ingredients == WithIngredient(old(ingredients), ing) && inputValue == ""
      ensures isGenerating == old(isGenerating) && recipeSuggestions == old(recipeSuggestions)
      ensures recipe == old(recipe) && recipeImage == old(recipeImage) && imageFailed == old(imageFailed)
      ensures imageCache == old(imageCache) && mealPlan == old(mealPlan) && drinkSuggestion == old(drinkSuggestion)
      ensures currentStep == old(currentStep) && showCookingIngredients == old(showCookingIngredients)
    {
      WithIngredientKeepsWellFormed(ingredients, ing);
      ingredients := WithIngredient(ingredients, ing);
      inputValue := "";
    }

    /** `removeIngredient`: drops every entry equal to `ing`. */
    method RemoveIngredient(ing: string)
      requires Valid()
      modifies this
      ensures Valid()
      ensures ingredients == Without(old(ingredients), ing) && inputValue == old(inputValue)
      ensures isGenerating == old(isGenerating) && recipeSuggestions == old(recipeSuggestions)
      ensures recipe == old(recipe) && recipeImage == old(recipeImage) && imageFailed == old(imageFailed)
      ensures imageCache == old(imageCache) && mealPlan == old(mealPlan) && drinkSuggestion == old(drinkSuggestion)
      ensures currentStep == old(currentStep) && showCookingIngredients == old(showCookingIngredients)
    {
      WithoutKeepsWellFormed(ingredients, ing);
      ingredients := Without(ingredients, ing);
    }

    /** `nextStep`: advances the cursor, stopping at the last instruction; nothing happens without a recipe. */
    method NextStep()
      modifies `currentStep
      ensures old(recipe).Some? ==> currentStep == NextStepValue(old(currentStep), |recipe.value.instructions|)
      ensures old(recipe).None? ==> currentStep == old(currentStep)
    {
      if recipe.Some? {
        currentStep := NextStepValue(currentStep, |recipe.value.instructions|);
      }
    }

    /** `prevStep`: moves the cursor back, never below 0. */
    method PrevStep()
      modifies `currentStep
      ensures currentStep == PrevStepValue(old(currentStep))
    {
      currentStep := PrevStepValue(currentStep);
    }

    method ToggleCookingIngredients()
      modifies `showCookingIngredients
      ensures showCookingIngredients == !old(showCookingIngredients)
    {
      showCookingIngredients := !showCookingIngredients;
    }

    /**
     * `generateRecipe`, with `fetched` what `fetchRecipes` resolved to (None
     * when it threw). Nothing happens with no ingredients; otherwise the
     * recipe view is cleared and the first three suggestions are kept.
     */
    method GenerateRecipe(language: string, fetched: Option<seq<Recipe>>) returns (error: ErrorUpdate)
      requires Valid()
      modifies this
      ensures Valid()
      ensures old(ingredients) == [] ==> (error == Untouched && recipe == old(recipe)
        && recipeSuggestions == old(recipeSuggestions) && isGenerating == old(isGenerating)
        && recipeImage == old(recipeImage) && imageFailed == old(imageFailed)
        && mealPlan == old(mealPlan) && drinkSuggestion == old(drinkSuggestion))
      ensures old(ingredients) != [] ==> (!isGenerating && recipe.None? && recipeImage.None? && !imageFailed
        && mealPlan.None? && drinkSuggestion.None?
        && recipeSuggestions == (if fetched.Some? then FirstSuggestions(fetched.value) else [])
        && error == (if fetched.Some? then Cleared else Message(FailedRecipesMessage(language))))
      ensures ingredients == old(ingredients) && inputValue == old(inputValue) && imageCache == old(imageCache)
      ensures currentStep == old(currentStep) && showCookingIngredients == old(showCookingIngredients)
    {
      if |ingredients| == 0 {
        return Untouched;
      }
      isGenerating, recipeSuggestions, recipe, recipeImage := true, [], None, None;
      imageFailed, mealPlan, drinkSuggestion := false, None, None;
      error := Cleared;
      if fetched.Some? {
        recipeSuggestions, isGenerating := FirstSuggestions(fetched.value), false;
      } else {
        isGenerating := false;
        error := Message(FailedRecipesMessage(language));
      }
    }

    /**
     * `selectRecipe(raw, fallbackTitle)`, with `fetched` what `fetchImage`
     * resolved to: a string starting with "data:image/" or null, so a
     * fetched value is never empty and the truthiness test on it is
     * `fetched.Some?`. Returns whether the call threw: when normalising throws,
     * nothing changes; when `raw` is null or undefined it is stored as the
     * recipe and reading its title throws.
     */
    method SelectRecipe(raw: JsValue, fallbackTitle: string, now: int, fetched: Option<string>, later: int)
      returns (threw: bool)
      requires Valid()
      modifies this
      ensures Valid()
      ensures ingredients == old(ingredients) && inputValue == old(inputValue) && isGenerating == old(isGenerating)
      ensures recipeSuggestions == old(recipeSuggestions) && showCookingIngredients == old(showCookingIngredients)
      ensures var n := NormalizeRecipeData(raw, fallbackTitle);
        threw <==> n.Err? || (n.value.None? && JsNullish(raw))
      ensures NormalizeRecipeData(raw, fallbackTitle).Err? ==> (recipe == old(recipe)
        && recipeImage == old(recipeImage) && imageFailed == old(imageFailed) && imageCache == old(imageCache)
        && mealPlan == old(mealPlan) && drinkSuggestion == old(drinkSuggestion) && currentStep == old(currentStep))
      ensures var n := NormalizeRecipeData(raw, fallbackTitle);
        n.Ok? ==> recipe == n.value && currentStep == 0 && mealPlan.None? && drinkSuggestion.None?
      ensures var n := NormalizeRecipeData(raw, fallbackTitle);
        n.Ok? && threw ==> recipeImage.None? && !imageFailed && imageCache == old(imageCache)
      ensures var n := NormalizeRecipeData(raw, fallbackTitle);
        var key := if n.Ok? then CacheKey(n.value) else "";
        n.Ok? && !threw ==>
          if FreshCacheHit(old(imageCache), key, now) then
            recipeImage == Some(old(imageCache)[key].data) && !imageFailed && imageCache == old(imageCache)
          else if fetched.Some? then
            recipeImage == fetched && !imageFailed && imageCache == old(imageCache)[key := CachedImage(fetched.value, later)]
          else
            recipeImage.None? && imageFailed && imageCache == old(imageCache)
    {
      var normalized := NormalizeRecipeData(raw, fallbackTitle);
      if normalized.Err? {
        return true;
      }
      recipe, recipeImage, imageFailed := normalized.value, None, false;
      currentStep, mealPlan, drinkSuggestion := 0, None, None;
      if normalized.value.None? && JsNullish(raw) {
        return true;
      }
      threw := false;
      var key := CacheKey(normalized.value);
      if FreshCacheHit(imageCache, key, now) {
        recipeImage := Some(imageCache[key].data);
        return;
      }
      if fetched.Some? {
        recipeImage := fetched;
        imageCache := imageCache[key := CachedImage(fetched.value, later)];
      } else {
        imageFailed := true;
      }
    }

    /** `resetRecipeView`: clears the recipe, suggestions, meal plan and drinks; the ingredients stay. */
    method ResetRecipeView()
      requires Valid()
      modifies this
      ensures Valid()
      ensures recipe.None? && recipeSuggestions == [] && mealPlan.None? && drinkSuggestion.None?
      ensures ingredients == old(ingredients) && inputValue == old(inputValue) && isGenerating == old(isGenerating)
      ensures recipeImage == old(recipeImage) && imageFailed == old(imageFailed) && imageCache == old(imageCache)
      ensures currentStep == old(currentStep) && showCookingIngredients == old(showCookingIngredients)
    {
      recipe, recipeSuggestions, mealPlan, drinkSuggestion := None, [], None, None;
    }
  }

  /** Adding an ingredient and removing it again leaves the list as it was. */
  method AddThenRemove(store: Store, ing: string)
    requires store.Valid() && Normalize(ing) !in store.ingredients
    modifies store
    ensures store.Valid() && store.ingredients == old(store.ingredients)
  {
    store.AddIngredient(ing);
    store.RemoveIngredient(Normalize(ing));
    RemoveUndoesAdd(old(store.ingredients), ing);
  }

  /** Toggling the cooking ingredients panel twice restores it. */
  method ToggleTwice(store: Store)
    modifies store
    ensures store.showCookingIngredients == old(store.showCookingIngredients)
  {
    store.ToggleCookingIngredients();
    store.ToggleCookingIngredients();
  }
}
