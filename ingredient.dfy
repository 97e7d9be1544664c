/**
 * `normalizeIngredient`: how the client turns what the user typed into the
 * spelling kept in the ingredient list.
 */
module Ingredient {
  import opened Text

  /** The first character upper-cased and the others lower-cased. */
  function Capitalize(t: string): (r: string)
    requires t != []
    ensures |r| == |t| && r[0] == UpperChar(t[0])
    ensures forall i :: 1 <= i < |t| ==> r[i] == LowerChar(t[i])
  {
    var tail := Lower(t[1..]);
    assert forall i :: 1 <= i < |t| ==> tail[i - 1] == LowerChar(t[i]);
    [UpperChar(t[0])] + tail
  }

  /** Trimmed, first character upper-cased and the rest lower-cased; '' for blank input. */
  function Normalize(value: string): (r: string)
    ensures |r| == |Trim(value, IsJsSpace)|
    ensures r == [] <==> forall i :: 0 <= i < |value| ==> IsJsSpace(value[i])
    ensures r != [] ==> r[0] == UpperChar(Trim(value, IsJsSpace)[0])
    ensures forall i :: 1 <= i < |r| ==> r[i] == LowerChar(Trim(value, IsJsSpace)[i])
  {
    TrimEmptyIffBlank(value, IsJsSpace);
    var trimmed := Trim(value, IsJsSpace);
    if trimmed == [] then "" else Capitalize(trimmed)
  }

  /** The result has no leading or trailing whitespace. */
  lemma NormalizeIsTrimmed(value: string)
    ensures var r := Normalize(value); r != [] ==> !IsJsSpace(r[0]) && !IsJsSpace(r[|r| - 1])
  {
    var t := Trim(value, IsJsSpace);
    var r := Normalize(value);
    if r != [] {
      CaseMapsFixpoints(t[0]);
      CaseMapsFixpoints(t[|t| - 1]);
    }
  }

  /** Normalising a normalised ingredient changes nothing. */
  lemma NormalizeIdempotent(value: string)
    ensures Normalize(Normalize(value)) == Normalize(value)
  {
    var r := Normalize(value);
    var t := Trim(value, IsJsSpace);
    NormalizeIsTrimmed(value);
    TrimOfTrimmed(r, IsJsSpace);
    var rr := Normalize(r);
    if r != [] {
      CaseMapsFixpoints(t[0]);
      assert rr[0] == r[0];
      forall i | 1 <= i < |r|
        ensures rr[i] == r[i]
      {
        CaseMapsFixpoints(t[i]);
      }
    }
  }
}
