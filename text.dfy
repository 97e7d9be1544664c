/**
 * String primitives shared by both servers and the client: the whitespace
 * sets of Python's `str.strip` and JavaScript's `String.prototype.trim`,
 * trimming, left-to-right removal of every occurrence of a literal,
 * truncation (`s[:n]`) and the case mappings used by the client.
 */
module Text {

  /** An octet. */
  type Byte = b: int | 0 <= b < 256

  /** Characters for which Python's `str.isspace()` holds; `str.strip()` removes them. */
  predicate IsPySpace(c: char) {
    c == ' ' || ('\t' <= c <= '\r') || ('\U{1c}' <= c <= '\U{1f}') || c == '\U{85}' || c == '\U{a0}'
    || c == '\U{1680}' || ('\U{2000}' <= c <= '\U{200a}') || c == '\U{2028}' || c == '\U{2029}'
    || c == '\U{202f}' || c == '\U{205f}' || c == '\U{3000}'
  }

  /** JavaScript WhiteSpace and LineTerminator: what `trim()` removes and what `\s` matches. */
  predicate IsJsSpace(c: char) {
    c == ' ' || ('\t' <= c <= '\r') || c == '\U{a0}' || c == '\U{1680}' || ('\U{2000}' <= c <= '\U{200a}')
    || c == '\U{2028}' || c == '\U{2029}' || c == '\U{202f}' || c == '\U{205f}' || c == '\U{3000}'
    || c == '\U{feff}'
  }

  /** Drops the leading characters that satisfy `ws`. */
  function TrimStart(s: string, ws: char -> bool): (r: string)
    ensures |r| <= |s| && r == s[|s| - |r|..]
    ensures r != [] ==> !ws(r[0])
    ensures forall i :: 0 <= i < |s| - |r| ==> ws(s[i])
  {
    if |s| > 0 && ws(s[0]) then TrimStart(s[1..], ws) else s
  }

  /** Drops the trailing characters that satisfy `ws`. */
  function TrimEnd(s: string, ws: char -> bool): (r: string)
    ensures |r| <= |s| && r == s[..|r|]
    ensures r != [] ==> !ws(r[|r| - 1])
    ensures forall i :: |r| <= i < |s| ==> ws(s[i])
  {
    if |s| > 0 && ws(s[|s| - 1]) then TrimEnd(s[..|s| - 1], ws) else s
  }

  /** Both ends trimmed: the longest infix that neither starts nor ends with a `ws` character. */
  function Trim(s: string, ws: char -> bool): (r: string)
    ensures |r| <= |s|
    ensures r != [] ==> !ws(r[0]) && !ws(r[|r| - 1])
  {
    TrimEnd(TrimStart(s, ws), ws)
  }

  /** Trimming keeps any property every character of `s` has. */
  lemma TrimKeeps(s: string, ws: char -> bool, p: char -> bool)
    requires forall i :: 0 <= i < |s| ==> p(s[i])
    ensures forall i :: 0 <= i < |Trim(s, ws)| ==> p(Trim(s, ws)[i])
  {
    var a := TrimIsInfix(s, ws);
    assert forall i :: 0 <= i < |Trim(s, ws)| ==> Trim(s, ws)[i] == s[a + i];
  }

  /** The trimmed string is the infix of `s` that starts at offset `a`. */
  lemma TrimIsInfix(s: string, ws: char -> bool) returns (a: nat)
    ensures a + |Trim(s, ws)| <= |s| && Trim(s, ws) == s[a..a + |Trim(s, ws)|]
  {
    var t := TrimStart(s, ws);
    var r := TrimEnd(t, ws);
    a := |s| - |t|;
    assert Trim(s, ws) == r;
    assert t == s[a..] && r == t[..|r|];
    assert s[a..][..|r|] == s[a..a + |r|];
  }

  /** The trimmed string occurs in the original. */
  lemma TrimOccursIn(s: string, ws: char -> bool)
    ensures Contains(s, Trim(s, ws))
  {
    var a := TrimIsInfix(s, ws);
    var r := Trim(s, ws);
    assert s[a..][..|r|] == s[a..a + |r|];
    assert StartsWith(s[a..], r);
  }

  /** A string that neither starts nor ends with whitespace is its own trim. */
  lemma TrimOfTrimmed(s: string, ws: char -> bool)
    requires s != [] ==> !ws(s[0]) && !ws(s[|s| - 1])
    ensures Trim(s, ws) == s
  {
    assert TrimStart(s, ws) == s;
  }

  /** Trimming twice is trimming once. */
  lemma TrimIdempotent(s: string, ws: char -> bool)
    ensures Trim(Trim(s, ws), ws) == Trim(s, ws)
  {
    TrimOfTrimmed(Trim(s, ws), ws);
  }

  /** A string is blank when trimming leaves nothing: every character is whitespace. */
  lemma TrimEmptyIffBlank(s: string, ws: char -> bool)
    ensures Trim(s, ws) == [] <==> forall i :: 0 <= i < |s| ==> ws(s[i])
  {
  }

  /** Python's `s[:n]` for n >= 0. */
  function Truncate(s: string, n: nat): (r: string)
    ensures |r| == if |s| <= n then |s| else n
    ensures r == s[..|r|]
  {
    if |s| <= n then s else s[..n]
  }

  predicate StartsWith(s: string, p: string) {
    |p| <= |s| && s[..|p|] == p
  }

  /** `p` occurs in `s` at some position. */
  predicate Contains(s: string, p: string) {
    exists i :: 0 <= i <= |s| - |p| && StartsWith(s[i..], p)
  }

  /** A string put between two others starts after the first and occurs in the whole. */
  lemma InfixOfConcat(a: string, x: string, b: string)
    ensures StartsWith(a + x + b, a) && Contains(a + x + b, x)
  {
    var s := a + x + b;
    assert s[..|a|] == a;
    assert s[|a|..][..|x|] == x;
  }

  /** `p` occurs in the tail of `s` only if it occurs in `s`. */
  lemma ContainsInTail(s: string, p: string)
    requires s != []
    ensures Contains(s[1..], p) ==> Contains(s, p)
  {
    if Contains(s[1..], p) {
      var i :| 0 <= i <= |s[1..]| - |p| && StartsWith(s[1..][i..], p);
      assert s[1..][i..] == s[i + 1..];
    }
  }

  /**
   * Removes every occurrence of `p`, scanning left to right without overlap:
   * Python's `s.replace(p, "")` and JavaScript's `s.replace(/p/g, '')` for a literal `p`.
   */
  function RemoveAll(s: string, p: string): (r: string)
    requires p != []
    ensures |r| <= |s|
    decreases |s|
  {
    if |s| < |p| then s
    else if s[..|p|] == p then RemoveAll(s[|p|..], p)
    else [s[0]] + RemoveAll(s[1..], p)
  }

  /** Text without an occurrence of the literal is returned unchanged. */
  lemma {:induction false} RemoveAllAbsent(s: string, p: string)
    requires p != [] && !Contains(s, p)
    ensures RemoveAll(s, p) == s
    decreases |s|
  {
    if |s| >= |p| {
      assert s[..|p|] != p by { assert s[0..] == s; }
      ContainsInTail(s, p);
      RemoveAllAbsent(s[1..], p);
      assert [s[0]] + s[1..] == s;
    }
  }

  /** An occurrence at the front is removed and the scan goes on after it. */
  lemma RemoveAllSkipsMatch(p: string, s: string)
    requires p != []
    ensures RemoveAll(p + s, p) == RemoveAll(s, p)
  {
    assert (p + s)[..|p|] == p;
    assert (p + s)[|p|..] == s;
  }

  /** A first character that cannot start an occurrence is kept, and the scan goes on after it. */
  lemma RemoveAllKeepsHead(c: char, s: string, p: string)
    requires p != [] && c != p[0]
    ensures RemoveAll([c] + s, p) == [c] + RemoveAll(s, p)
  {
    var cs := [c] + s;
    assert cs[1..] == s;
    if |cs| >= |p| {
      assert cs[..|p|][0] == c;
    }
  }

  /** A front none of whose characters can start an occurrence is kept as it is. */
  lemma {:induction false} RemoveAllKeepsPrefix(s: string, t: string, p: string)
    requires p != [] && forall i :: 0 <= i < |s| ==> s[i] != p[0]
    ensures RemoveAll(s + t, p) == s + RemoveAll(t, p)
    decreases |s|
  {
    if s == [] {
      assert s + t == t;
    } else {
      var rest, u := s[1..], s[1..] + t;
      calc {
        RemoveAll(s + t, p);
        { assert s + t == [s[0]] + u; }
        RemoveAll([s[0]] + u, p);
        { RemoveAllKeepsHead(s[0], u, p); }
        [s[0]] + RemoveAll(u, p);
        { RemoveAllKeepsPrefix(rest, t, p); }
        [s[0]] + (rest + RemoveAll(t, p));
        { assert [s[0]] + rest == s; }
        s + RemoveAll(t, p);
      }
    }
  }

  const Fence: string := "```"

  /** The three characters from position `i` are not all backticks. */
  predicate NoFenceAt(s: string, i: int)
    requires 0 <= i && i + 2 < |s|
  {
    !(s[i] == '`' && s[i + 1] == '`' && s[i + 2] == '`')
  }

  /** No three consecutive backticks. */
  predicate FenceFree(s: string) {
    forall i :: 0 <= i && i + 2 < |s| ==> NoFenceAt(s, i)
  }

  lemma FenceFreeHasNoFence(s: string)
    requires FenceFree(s)
    ensures !Contains(s, Fence)
  {
    forall i | 0 <= i <= |s| - 3
      ensures !StartsWith(s[i..], Fence)
    {
      assert NoFenceAt(s, i);
      assert s[i..][0] == s[i] && s[i..][1] == s[i + 1] && s[i..][2] == s[i + 2];
    }
  }

  /** Putting `c` in front of a fence-free string makes no fence unless it completes a leading "``". */
  lemma ConsKeepsFenceFree(c: char, t: string)
    requires FenceFree(t)
    requires c == '`' && |t| >= 2 ==> t[0] != '`' || t[1] != '`'
    ensures FenceFree([c] + t)
  {
    var r := [c] + t;
    forall i | 0 <= i && i + 2 < |r|
      ensures NoFenceAt(r, i)
    {
      if i > 0 {
        assert NoFenceAt(t, i - 1);
        assert r[i] == t[i - 1] && r[i + 1] == t[i] && r[i + 2] == t[i + 1];
      }
    }
  }

  /**
   * After removing every "```" no "```" is left: a run of n backticks becomes
   * n mod 3 of them and no two runs are joined.
   */
  lemma {:induction false} RemoveFenceLeavesNone(s: string)
    ensures FenceFree(RemoveAll(s, Fence))
    ensures s != [] && s[0] != '`' ==> RemoveAll(s, Fence) != [] && RemoveAll(s, Fence)[0] == s[0]
    decreases |s|
  {
    if |s| < 3 {
    } else if s[..3] == Fence {
      RemoveFenceLeavesNone(s[3..]);
    } else {
      var t := RemoveAll(s[1..], Fence);
      RemoveFenceLeavesNone(s[1..]);
      assert RemoveAll(s, Fence) == [s[0]] + t;
      if s[0] == '`' && s[1] == '`' {
        assert s[2] != '`' by { assert s[..3] == [s[0], s[1], s[2]]; }
        if |s| == 3 {
          assert t == s[1..];
        } else {
          assert s[1..][..3] != Fence by { assert s[1..][..3][1] == s[2]; }
          RemoveFenceLeavesNone(s[2..]);
          assert t == [s[1]] + RemoveAll(s[2..], Fence) by { assert s[1..][1..] == s[2..]; }
        }
      }
      ConsKeepsFenceFree(s[0], t);
    }
  }

  /** Any infix of a fence-free string is fence-free. */
  lemma FenceFreeInfix(s: string, a: nat, b: nat)
    requires FenceFree(s) && a <= b <= |s|
    ensures FenceFree(s[a..b])
  {
    var t := s[a..b];
    forall i | 0 <= i && i + 2 < |t|
      ensures NoFenceAt(t, i)
    {
      assert NoFenceAt(s, a + i);
      assert t[i] == s[a + i] && t[i + 1] == s[a + i + 1] && t[i + 2] == s[a + i + 2];
    }
  }

  /** No character is a backtick. */
  predicate NoBacktick(s: string) {
    forall i :: 0 <= i < |s| ==> s[i] != '`'
  }

  /** Text without a backtick contains neither fence literal, so both removals leave it alone. */
  lemma NoBacktickUnchanged(s: string)
    ensures NoBacktick(s) ==> RemoveAll(s, "```json") == s && RemoveAll(s, Fence) == s
  {
    if NoBacktick(s) {
      RemoveAllKeepsPrefix(s, [], "```json");
      RemoveAllKeepsPrefix(s, [], Fence);
      assert s + [] == s;
    }
  }

  /** A fence-free text has no occurrence of a literal that begins with a fence, so nothing is removed. */
  lemma {:induction false} RemoveAllFenceFree(s: string, p: string)
    requires FenceFree(s) && |p| >= 3 && p[..3] == Fence
    ensures RemoveAll(s, p) == s
    decreases |s|
  {
    if |s| >= |p| {
      assert NoFenceAt(s, 0);
      assert s[..|p|] != p by { assert s[..|p|][..3] == s[..3]; }
      FenceFreeInfix(s, 1, |s|);
      assert s[1..|s|] == s[1..];
      RemoveAllFenceFree(s[1..], p);
      assert [s[0]] + s[1..] == s;
    }
  }

  /** Trimming a fence-free string leaves it fence-free. */
  lemma TrimKeepsFenceFree(s: string, ws: char -> bool)
    requires FenceFree(s)
    ensures FenceFree(Trim(s, ws))
  {
    var a := TrimIsInfix(s, ws);
    FenceFreeInfix(s, a, a + |Trim(s, ws)|);
  }

  /** The two fence removals both servers apply: every "```json", then every remaining "```". */
  function StripFences(raw: string): (r: string)
    ensures |r| <= |raw| && FenceFree(r)
    ensures NoBacktick(raw) ==> r == raw
  {
    RemoveFenceLeavesNone(RemoveAll(raw, "```json"));
    NoBacktickUnchanged(raw);
    RemoveAll(RemoveAll(raw, "```json"), Fence)
  }

  /** A reply wrapped in a "```json" fence comes out as the text inside the fence. */
  lemma StripFencesUnwraps(s: string)
    requires NoBacktick(s)
    ensures StripFences("```json" + s + Fence) == s
  {
    var wrapped := "```json" + s + Fence;
    assert wrapped == "```json" + (s + Fence);
    RemoveAllSkipsMatch("```json", s + Fence);
    RemoveAllKeepsPrefix(s, Fence, "```json");
    assert RemoveAll(wrapped, "```json") == s + Fence;
    RemoveAllKeepsPrefix(s, Fence, Fence);
    assert Fence == Fence + [];
    RemoveAllSkipsMatch(Fence, []);
    assert s + [] == s;
  }

  // ------------------------------------------------------------ case maps

  /**
   * Upper-casing of one character for the scripts the app serves (ASCII and
   * the basic Cyrillic block); every other character is left unchanged.
   */
  function UpperChar(c: char): char {
    if 'a' <= c <= 'z' then (c as int - 32) as char
    else if '\U{430}' <= c <= '\U{44f}' then (c as int - 32) as char
    else if '\U{450}' <= c <= '\U{45f}' then (c as int - 80) as char
    else c
  }

  /** Lower-casing, the inverse mapping of `UpperChar` on the same blocks. */
  function LowerChar(c: char): char {
    if 'A' <= c <= 'Z' then (c as int + 32) as char
    else if '\U{410}' <= c <= '\U{42f}' then (c as int + 32) as char
    else if '\U{400}' <= c <= '\U{40f}' then (c as int + 80) as char
    else c
  }

  function Lower(s: string): (r: string)
    ensures |r| == |s| && forall i :: 0 <= i < |s| ==> r[i] == LowerChar(s[i])
  {
    seq(|s|, i requires 0 <= i < |s| => LowerChar(s[i]))
  }

  lemma CaseMapsFixpoints(c: char)
    ensures UpperChar(UpperChar(c)) == UpperChar(c)
    ensures LowerChar(LowerChar(c)) == LowerChar(c)
    ensures IsJsSpace(UpperChar(c)) <==> IsJsSpace(c)
    ensures IsJsSpace(LowerChar(c)) <==> IsJsSpace(c)
  {
  }
}
