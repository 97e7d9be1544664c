/**
 * `useSuggestions`: the autocomplete list under the ingredient input and
 * whether it is shown.
 *
 * The dictionary of the current language is a parameter (its contents are
 * not part of this model). `localeCompare` is an abstract total preorder
 * `leq` on strings; `Array.prototype.sort` with it is a stable sort.
 */
module Suggestions {
  import opened Text

  /** At most this many suggestions are shown. */
  const MaxSuggestions := 40

  /** `leq` orders every pair of strings one way or the other, as a collation does. */
  ghost predicate Total(leq: (string, string) -> bool) {
    forall a, b :: leq(a, b) || leq(b, a)
  }

  ghost predicate Transitive(leq: (string, string) -> bool) {
    forall a, b, c :: leq(a, b) && leq(b, c) ==> leq(a, c)
  }

  /** Each element comes before or ties with the next. */
  predicate Sorted(s: seq<string>, leq: (string, string) -> bool) {
    forall i :: 0 < i < |s| ==> leq(s[i - 1], s[i])
  }

  /** For a transitive order, adjacent order is order between every pair. */
  lemma {:induction false} SortedPairwise(s: seq<string>, leq: (string, string) -> bool, i: int, j: int)
    requires Transitive(leq) && Sorted(s, leq) && 0 <= i < j < |s|
    ensures leq(s[i], s[j])
    decreases j - i
  {
    if i + 1 < j {
      SortedPairwise(s, leq, i, j - 1);
      assert leq(s[j - 1], s[j]);
    }
  }

  /** `x` placed before the first element it does not come after. */
  function Insert(x: string, s: seq<string>, leq: (string, string) -> bool): (r: seq<string>)
    requires Total(leq)
    ensures multiset(r) == multiset(s) + multiset{x}
    ensures |r| == |s| + 1 && (r[0] == x || (s != [] && r[0] == s[0]))
    ensures Sorted(s, leq) ==> Sorted(r, leq)
  {
    if s == [] then [x]
    else if leq(x, s[0]) then [x] + s
    else
      var rest := Insert(x, s[1..], leq);
      assert s == [s[0]] + s[1..];
      assert leq(s[0], x);
      [s[0]] + rest
  }

  /** Stable insertion sort. */
  function Sort(s: seq<string>, leq: (string, string) -> bool): (r: seq<string>)
    requires Total(leq)
    ensures multiset(r) == multiset(s) && Sorted(r, leq)
  {
    if s == [] then []
    else
      assert s == [s[0]] + s[1..];
      Insert(s[0], Sort(s[1..], leq), leq)
  }

  /** The filter: lower-cased, the item starts with the query, and it is not already an ingredient. */
  predicate Qualifies(item: string, query: string, ingredients: seq<string>) {
    StartsWith(Lower(item), query) && item !in ingredients
  }

  function Filter(items: seq<string>, query: string, ingredients: seq<string>): (r: seq<string>)
    ensures forall x :: x in r <==> x in items && Qualifies(x, query, ingredients)
    ensures |r| <= |items|
  {
    if items == [] then []
    else
      var rest := Filter(items[1..], query, ingredients);
      assert items == [items[0]] + items[1..];
      if Qualifies(items[0], query, ingredients) then [items[0]] + rest else rest
  }

  /** The trimmed, lower-cased query. */
  function Query(inputValue: string): string {
    Lower(Trim(inputValue, IsJsSpace))
  }

  /** `suggestions`: the matching dictionary entries, sorted, first 40; none for a blank input. */
  function Suggestions(inputValue: string, ingredients: seq<string>, dictionary: seq<string>,
                       leq: (string, string) -> bool): (r: seq<string>)
    requires Total(leq)
    ensures Trim(inputValue, IsJsSpace) == [] ==> r == []
    ensures |r| <= MaxSuggestions && Sorted(r, leq)
    ensures forall x :: x in r ==> x in dictionary && x !in ingredients && StartsWith(Lower(x), Query(inputValue))
    ensures var n := |Filter(dictionary, Query(inputValue), ingredients)|;
      Trim(inputValue, IsJsSpace) != [] ==> |r| == if n <= MaxSuggestions then n else MaxSuggestions
  {
    if |Trim(inputValue, IsJsSpace)| == 0 then []
    else
      var filtered := Filter(dictionary, Query(inputValue), ingredients);
      var sorted := Sort(filtered, leq);
      assert |sorted| == |filtered| by {
        assert |multiset(sorted)| == |multiset(filtered)|;
      }
      var r := if |sorted| <= MaxSuggestions then sorted else sorted[..MaxSuggestions];
      forall x | x in r
        ensures x in filtered
      {
        assert x in sorted;
        assert x in multiset(sorted);
        assert x in multiset(filtered);
      }
      r
  }

  /** With 40 or fewer matches, every matching dictionary entry is suggested. */
  lemma SuggestionsComplete(inputValue: string, ingredients: seq<string>, dictionary: seq<string>,
                            leq: (string, string) -> bool, x: string)
    requires Total(leq) && Trim(inputValue, IsJsSpace) != []
    requires |Filter(dictionary, Query(inputValue), ingredients)| <= MaxSuggestions
    requires x in dictionary && Qualifies(x, Query(inputValue), ingredients)
    ensures x in Suggestions(inputValue, ingredients, dictionary, leq)
  {
    var filtered := Filter(dictionary, Query(inputValue), ingredients);
    var sorted := Sort(filtered, leq);
    assert x in multiset(filtered);
    assert |sorted| == |filtered| by {
      assert |multiset(sorted)| == |multiset(filtered)|;
    }
    assert x in multiset(sorted);
  }

  /** The suggestions are the least matches: a matching entry left out comes after every one shown. */
  lemma SuggestionsAreLeast(inputValue: string, ingredients: seq<string>, dictionary: seq<string>,
                            leq: (string, string) -> bool, x: string)
    requires Total(leq) && Transitive(leq) && Trim(inputValue, IsJsSpace) != []
    requires x in dictionary && Qualifies(x, Query(inputValue), ingredients)
    requires x !in Suggestions(inputValue, ingredients, dictionary, leq)
    ensures |Suggestions(inputValue, ingredients, dictionary, leq)| == MaxSuggestions
    ensures forall i :: 0 <= i < |Suggestions(inputValue, ingredients, dictionary, leq)| ==>
      leq(Suggestions(inputValue, ingredients, dictionary, leq)[i], x)
  {
    var filtered := Filter(dictionary, Query(inputValue), ingredients);
    var sorted := Sort(filtered, leq);
    var r := Suggestions(inputValue, ingredients, dictionary, leq);
    assert x in multiset(filtered);
    assert x in multiset(sorted);
    var j :| 0 <= j < |sorted| && sorted[j] == x;
    if |sorted| <= MaxSuggestions {
      assert false;
    }
    assert j >= MaxSuggestions;
    forall i | 0 <= i < |r|
      ensures leq(r[i], x)
    {
      SortedPairwise(sorted, leq, i, j);
    }
  }

  /** The `showSuggestions` flag. */
  class SuggestionBox {
    var showSuggestions: bool

    constructor ()
      ensures !showSuggestions
    {
      showSuggestions := false;
    }

    /** The effect that runs when the input or the suggestions change. */
    method Recompute(inputValue: string, suggestions: seq<string>)
      modifies this
      ensures showSuggestions <==> Trim(inputValue, IsJsSpace) != [] && suggestions != []
    {
      showSuggestions := |Trim(inputValue, IsJsSpace)| > 0 && |suggestions| > 0;
    }

    /** The document `mousedown` listener: a press outside the mounted box hides the list. */
    method MouseDown(boxMounted: bool, insideBox: bool)
      modifies this
      ensures showSuggestions == (if boxMounted && !insideBox then false else old(showSuggestions))
    {
      if boxMounted && !insideBox {
        showSuggestions := false;
      }
    }
  }

  /** Whenever the list is shown after a recompute, the query is non-blank and there is something to show. */
  method RecomputeThenShow(box: SuggestionBox, inputValue: string, ingredients: seq<string>,
                           dictionary: seq<string>, leq: (string, string) -> bool)
    requires Total(leq)
    modifies box
    ensures box.showSuggestions ==> Query(inputValue) != [] && Suggestions(inputValue, ingredients, dictionary, leq) != []
  {
    box.Recompute(inputValue, Suggestions(inputValue, ingredients, dictionary, leq));
  }
}
