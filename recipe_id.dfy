/**
 * Recipe ids derived from titles (src/utils/recipe.ts): the UTF-8 bytes of
 * the title (RFC 3629) in standard base64 (section 4 of RFC 4648) without
 * its padding, and the URL-safe variant with the alphabet of section 5.
 *
 * Titles are sequences of Unicode scalar values; a title holding a lone
 * UTF-16 surrogate, for which `encodeURIComponent` throws, cannot be written.
 */
module RecipeId {
  import opened Wrappers
  import opened Text

  // ------------------------------------------------------------------ UTF-8

  predicate IsContinuation(b: Byte) {
    0x80 <= b < 0xC0
  }

  /** The UTF-8 encoding of one scalar value: one to four bytes. */
  function Utf8Char(c: char): (r: seq<Byte>)
    ensures 1 <= |r| <= 4
    ensures |r| == 1 <==> r[0] < 0x80
    ensures |r| == 2 <==> 0xC0 <= r[0] < 0xE0
    ensures |r| == 3 <==> 0xE0 <= r[0] < 0xF0
    ensures |r| == 4 <==> 0xF0 <= r[0] < 0xF8
    ensures forall i :: 1 <= i < |r| ==> IsContinuation(r[i])
  {
    var n := c as int;
    if n < 0x80 then [n]
    else if n < 0x800 then [0xC0 + n / 64, 0x80 + n % 64]
    else if n < 0x10000 then [0xE0 + n / 4096, 0x80 + n / 64 % 64, 0x80 + n % 64]
    else [0xF0 + n / 262144, 0x80 + n / 4096 % 64, 0x80 + n / 64 % 64, 0x80 + n % 64]
  }

  /** `unescape(encodeURIComponent(title))`, read as bytes. */
  function Utf8(s: string): (r: seq<Byte>)
    ensures |s| <= |r| <= 4 * |s|
  {
    if s == [] then [] else Utf8Char(s[0]) + Utf8(s[1..])
  }

  predicate IsScalar(n: int) {
    0 <= n < 0xD800 || 0xE000 <= n < 0x110000
  }

  /** The number of bytes a sequence starting with `b` takes, 0 for a byte that cannot start one. */
  function SequenceLength(b: Byte): nat {
    if b < 0x80 then 1
    else if 0xC0 <= b < 0xE0 then 2
    else if 0xE0 <= b < 0xF0 then 3
    else if 0xF0 <= b < 0xF8 then 4
    else 0
  }

  /** The scalar value of one encoded sequence. */
  function SequenceValue(bytes: seq<Byte>): int
    requires 1 <= |bytes| <= 4
  {
    var b0: int, n := bytes[0], |bytes|;
    if n == 1 then b0
    else if n == 2 then (b0 - 0xC0) * 64 + (bytes[1] as int - 0x80)
    else if n == 3 then (b0 - 0xE0) * 4096 + (bytes[1] as int - 0x80) * 64 + (bytes[2] as int - 0x80)
    else (b0 - 0xF0) * 262144 + (bytes[1] as int - 0x80) * 4096 + (bytes[2] as int - 0x80) * 64 + (bytes[3] as int - 0x80)
  }

  /** Decoding UTF-8; None on a malformed sequence or a value that is not a scalar. */
  function Utf8Decode(bytes: seq<Byte>): Option<string>
    decreases |bytes|
  {
    if bytes == [] then Some([])
    else
      var k := SequenceLength(bytes[0]);
      if k == 0 || k > |bytes| || !(forall i :: 1 <= i < k ==> IsContinuation(bytes[i])) then None
      else
        var n := SequenceValue(bytes[..k]);
        if !IsScalar(n) then None
        else match Utf8Decode(bytes[k..])
          case None => None
          case Some(rest) => Some([n as char] + rest)
  }

  /** Splitting a number into 6-bit groups and joining them again. */
  lemma SixBitGroups(n: nat)
    ensures n == n / 64 * 64 + n % 64
    ensures n / 64 == n / 4096 * 64 + n / 64 % 64
    ensures n / 4096 == n / 262144 * 64 + n / 4096 % 64
  {
    assert n / 4096 == n / 64 / 64;
    assert n / 262144 == n / 4096 / 64;
  }

  lemma Utf8CharValue(c: char)
    ensures SequenceLength(Utf8Char(c)[0]) == |Utf8Char(c)|
    ensures SequenceValue(Utf8Char(c)) == c as int
  {
    var n := c as int;
    SixBitGroups(n);
    var e := Utf8Char(c);
    if n < 0x80 {
    } else if n < 0x800 {
      assert SequenceValue(e) == n / 64 * 64 + n % 64;
    } else if n < 0x10000 {
      assert SequenceValue(e) == n / 4096 * 4096 + n / 64 % 64 * 64 + n % 64;
    } else {
      assert SequenceValue(e) == n / 262144 * 262144 + n / 4096 % 64 * 4096 + n / 64 % 64 * 64 + n % 64;
    }
  }

  /** Decoding the encoding gives the title back, so the encoding is injective. */
  lemma {:induction false} Utf8RoundTrip(s: string)
    ensures Utf8Decode(Utf8(s)) == Some(s)
  {
    if s != [] {
      var e := Utf8Char(s[0]);
      var bytes := Utf8(s);
      assert bytes == e + Utf8(s[1..]);
      Utf8CharValue(s[0]);
      assert bytes[..|e|] == e;
      assert bytes[|e|..] == Utf8(s[1..]);
      assert bytes[0] == e[0];
      assert forall i :: 1 <= i < |e| ==> IsContinuation(bytes[i]) by {
        assert forall i :: 1 <= i < |e| ==> bytes[i] == e[i];
      }
      assert IsScalar(s[0] as int);
      assert SequenceLength(bytes[0]) == |e|;
      assert SequenceValue(bytes[..|e|]) == s[0] as int;
      Utf8RoundTrip(s[1..]);
      assert Utf8Decode(bytes[|e|..]) == Some(s[1..]);
      assert [s[0]] + s[1..] == s;
      Utf8RoundTrip(s[1..]);
      assert (s[0] as int) as char == s[0];
    }
  }

  // ----------------------------------------------------------------- base64

  /** The alphabet of section 4 of RFC 4648: A-Z, a-z, 0-9, '+', '/'. */
  function Base64Char(k: nat): (c: char)
    requires k < 64
    ensures c != '='
  {
    if k < 26 then ('A' as int + k) as char
    else if k < 52 then ('a' as int + k - 26) as char
    else if k < 62 then ('0' as int + k - 52) as char
    else if k == 62 then '+'
    else '/'
  }

  /** The value of an alphabet character; 0 for any other character. */
  function Base64Value(c: char): (k: nat)
    ensures k < 64
  {
    if 'A' <= c <= 'Z' then c as int - 'A' as int
    else if 'a' <= c <= 'z' then c as int - 'a' as int + 26
    else if '0' <= c <= '9' then c as int - '0' as int + 52
    else if c == '+' then 62
    else if c == '/' then 63
    else 0
  }

  lemma Base64ValueChar(k: nat)
    requires k < 64
    ensures Base64Value(Base64Char(k)) == k
  {
  }

  /** Base64 without padding: each 3 bytes become 4 characters, a final 1 or 2 bytes become 2 or 3. */
  function Base64Unpadded(b: seq<Byte>): (r: string)
    ensures |r| == (4 * |b| + 2) / 3
    ensures forall i :: 0 <= i < |r| ==> r[i] != '='
    decreases |b|
  {
    if |b| == 0 then []
    else if |b| == 1 then [Base64Char(b[0] / 4), Base64Char(b[0] % 4 * 16)]
    else if |b| == 2 then [Base64Char(b[0] / 4), Base64Char(b[0] % 4 * 16 + b[1] / 16), Base64Char(b[1] % 16 * 4)]
    else
      [Base64Char(b[0] / 4), Base64Char(b[0] % 4 * 16 + b[1] / 16), Base64Char(b[1] % 16 * 4 + b[2] / 64), Base64Char(b[2] % 64)]
      + Base64Unpadded(b[3..])
  }

  /** The padding `btoa` adds brings the unpadded length to a multiple of four. */
  lemma PaddedLength(n: nat)
    ensures ((4 * n + 2) / 3 + if n % 3 == 1 then 2 else if n % 3 == 2 then 1 else 0) % 4 == 0
  {
    var q, m := n / 3, n % 3;
    assert 4 * n + 2 == 3 * (4 * q) + (4 * m + 2);
    if m == 0 {
      assert (4 * n + 2) / 3 == 4 * q;
    } else if m == 1 {
      assert (4 * n + 2) / 3 == 4 * q + 2;
    } else {
      assert (4 * n + 2) / 3 == 4 * q + 3;
    }
  }

  /** `btoa`: the unpadded encoding followed by '=' up to a multiple of four characters. */
  function Btoa(b: seq<Byte>): (r: string)
    ensures |r| % 4 == 0
  {
    PaddedLength(|b|);
    var body := Base64Unpadded(b);
    body + if |b| % 3 == 1 then "==" else if |b| % 3 == 2 then "=" else ""
  }

  /** `s.replace(/=+$/g, '')`: the trailing run of '=' removed. */
  function StripTrailingEquals(s: string): (r: string)
    ensures |r| <= |s| && r == s[..|r|]
    ensures r == [] || r[|r| - 1] != '='
    ensures forall i :: |r| <= i < |s| ==> s[i] == '='
  {
    if s != [] && s[|s| - 1] == '=' then StripTrailingEquals(s[..|s| - 1]) else s
  }

  /** Decoding unpadded base64; None for a length no encoding has. */
  function Base64Decode(s: string): Option<seq<Byte>>
    decreases |s|
  {
    if |s| == 0 then Some([])
    else if |s| == 1 then None
    else
      var v0, v1 := Base64Value(s[0]), Base64Value(s[1]);
      var b0 := v0 * 4 + v1 / 16;
      if |s| == 2 then Some([b0])
      else
        var v2 := Base64Value(s[2]);
        var b1 := v1 % 16 * 16 + v2 / 4;
        if |s| == 3 then Some([b0, b1])
        else
          var b2 := v2 % 4 * 64 + Base64Value(s[3]);
          match Base64Decode(s[4..])
          case None => None
          case Some(rest) => Some([b0, b1, b2] + rest)
  }

  /** Three bytes split into four 6-bit values and joined again. */
  lemma Base64Group(x: Byte, y: Byte, z: Byte)
    ensures (x / 4) * 4 + (x % 4 * 16 + y / 16) / 16 == x
    ensures (x % 4 * 16 + y / 16) % 16 * 16 + (y % 16 * 4 + z / 64) / 4 == y
    ensures (y % 16 * 4 + z / 64) % 4 * 64 + z % 64 == z
  {
  }

  /** One byte: two characters that decode back to it. */
  lemma DecodeOneByte(x: Byte)
    ensures Base64Decode(Base64Unpadded([x])) == Some([x])
  {
    Base64Group(x, 0, 0);
    Base64ValueChar(x / 4);
    Base64ValueChar(x % 4 * 16);
  }

  /** Two bytes: three characters that decode back to them. */
  lemma DecodeTwoBytes(x: Byte, y: Byte)
    ensures Base64Decode(Base64Unpadded([x, y])) == Some([x, y])
  {
    var k0, k1, k2 := x / 4, x % 4 * 16 + y / 16, y % 16 * 4;
    var s := Base64Unpadded([x, y]);
    assert s == [Base64Char(k0), Base64Char(k1), Base64Char(k2)];
    Base64ValueChar(k0);
    Base64ValueChar(k1);
    Base64ValueChar(k2);
    assert Base64Value(s[0]) == k0 && Base64Value(s[1]) == k1 && Base64Value(s[2]) == k2;
    Base64Group(x, y, 0);
    assert k0 * 4 + k1 / 16 == x && k1 % 16 * 16 + k2 / 4 == y;
  }

  /** Decoding a string of four or more characters: one group, then the rest. */
  lemma DecodeGroupUnfold(s: string)
    requires |s| >= 4
    ensures Base64Decode(s) ==
      var v0, v1, v2, v3 := Base64Value(s[0]), Base64Value(s[1]), Base64Value(s[2]), Base64Value(s[3]);
      match Base64Decode(s[4..])
      case None => None
      case Some(rest) => Some([v0 * 4 + v1 / 16, v1 % 16 * 16 + v2 / 4, v2 % 4 * 64 + v3] + rest)
  {
  }

  /** Four characters that encode three bytes decode to those bytes, ahead of whatever follows. */
  lemma DecodeGroupChars(x: Byte, y: Byte, z: Byte, tail: string)
    ensures Base64Decode([Base64Char(x / 4), Base64Char(x % 4 * 16 + y / 16),
                          Base64Char(y % 16 * 4 + z / 64), Base64Char(z % 64)] + tail) ==
      match Base64Decode(tail)
      case None => None
      case Some(rest) => Some([x, y, z] + rest)
  {
    var k0, k1, k2, k3 := x / 4, x % 4 * 16 + y / 16, y % 16 * 4 + z / 64, z % 64;
    var s := [Base64Char(k0), Base64Char(k1), Base64Char(k2), Base64Char(k3)] + tail;
    assert s[4..] == tail;
    Base64ValueChar(k0);
    Base64ValueChar(k1);
    Base64ValueChar(k2);
    Base64ValueChar(k3);
    assert Base64Value(s[0]) == k0 && Base64Value(s[1]) == k1;
    assert Base64Value(s[2]) == k2 && Base64Value(s[3]) == k3;
    Base64Group(x, y, z);
    DecodeGroupUnfold(s);
  }

  /** Decoding the unpadded encoding gives the bytes back. */
  lemma {:induction false} Base64RoundTrip(b: seq<Byte>)
    ensures Base64Decode(Base64Unpadded(b)) == Some(b)
    decreases |b|
  {
    if |b| == 1 {
      assert b == [b[0]];
      DecodeOneByte(b[0]);
    } else if |b| == 2 {
      assert b == [b[0], b[1]];
      DecodeTwoBytes(b[0], b[1]);
    } else if |b| >= 3 {
      Base64RoundTrip(b[3..]);
      RoundTripGroup(b[0], b[1], b[2], b[3..]);
      assert [b[0], b[1], b[2]] + b[3..] == b;
    }
  }

  /** The inductive step: three bytes decode back from their group, ahead of the rest. */
  lemma RoundTripGroup(x: Byte, y: Byte, z: Byte, rest: seq<Byte>)
    requires Base64Decode(Base64Unpadded(rest)) == Some(rest)
    ensures Base64Decode(Base64Unpadded([x, y, z] + rest)) == Some([x, y, z] + rest)
  {
    var b := [x, y, z] + rest;
    assert b[0] == x && b[1] == y && b[2] == z && b[3..] == rest;
    var tail := Base64Unpadded(rest);
    var group := [Base64Char(x / 4), Base64Char(x % 4 * 16 + y / 16),
                  Base64Char(y % 16 * 4 + z / 64), Base64Char(z % 64)];
    assert Base64Unpadded(b) == group + tail;
    DecodeGroupChars(x, y, z, tail);
  }

  // -------------------------------------------------------------------- ids

  /** `legacyRecipeIdFromTitle`. */
  function LegacyId(title: string): (r: string)
    ensures r == Base64Unpadded(Utf8(title))
  {
    var bytes := Utf8(title);
    var padded := Btoa(bytes);
    var body := Base64Unpadded(bytes);
    assert padded[..|body|] == body;
    var r := StripTrailingEquals(padded);
    assert forall i :: |body| <= i < |padded| ==> padded[i] == '=';
    assert forall i :: 0 <= i < |body| ==> padded[i] != '=';
    assert |body| > 0 ==> padded[|body| - 1] != '=';
    assert |r| > 0 ==> r[|r| - 1] == padded[|r| - 1];
    assert |r| == |body|;
    r
  }

  /** Distinct titles have distinct legacy ids. */
  lemma LegacyIdInjective(a: string, b: string)
    requires LegacyId(a) == LegacyId(b)
    ensures a == b
  {
    Base64RoundTrip(Utf8(a));
    Base64RoundTrip(Utf8(b));
    Utf8RoundTrip(a);
    Utf8RoundTrip(b);
  }

  function SafeChar(c: char): char {
    if c == '+' then '-' else if c == '/' then '_' else c
  }

  /** `safeRecipeIdFromTitle`: the legacy id with '+' as '-' and '/' as '_'. */
  function SafeId(title: string): (r: string)
    ensures |r| == |LegacyId(title)|
    ensures forall i :: 0 <= i < |r| ==> r[i] != '+' && r[i] != '/' && r[i] != '='
    ensures forall i :: 0 <= i < |r| ==> r[i] == SafeChar(LegacyId(title)[i])
  {
    var legacy := LegacyId(title);
    seq(|legacy|, i requires 0 <= i < |legacy| => SafeChar(legacy[i]))
  }

  /** The safe id determines the legacy id, hence the title: '-' and '_' are not in the standard alphabet. */
  lemma SafeIdInjective(a: string, b: string)
    requires SafeId(a) == SafeId(b)
    ensures a == b
  {
    var la, lb := LegacyId(a), LegacyId(b);
    forall i | 0 <= i < |la|
      ensures la[i] == lb[i]
    {
      assert SafeChar(la[i]) == SafeChar(lb[i]);
      assert la[i] != '-' && la[i] != '_' && lb[i] != '-' && lb[i] != '_' by {
        Base64Chars(Utf8(a));
        Base64Chars(Utf8(b));
      }
    }
    assert la == lb;
    LegacyIdInjective(a, b);
  }

  /** Every character of the unpadded encoding comes from the standard alphabet. */
  lemma {:induction false} Base64Chars(b: seq<Byte>)
    ensures forall i :: 0 <= i < |Base64Unpadded(b)| ==> Base64Unpadded(b)[i] != '-' && Base64Unpadded(b)[i] != '_'
    decreases |b|
  {
    if |b| >= 3 {
      Base64Chars(b[3..]);
      var r := Base64Unpadded(b);
      assert forall i :: 4 <= i < |r| ==> r[i] == Base64Unpadded(b[3..])[i - 4];
    }
  }

  /** `recipeIdCandidatesFromTitle`: the safe id first, then the legacy id when it differs. */
  function Candidates(title: string): (r: seq<string>)
    ensures 1 <= |r| <= 2 && r[0] == SafeId(title) && LegacyId(title) in r
    ensures |r| == 1 <==> forall i :: 0 <= i < |LegacyId(title)| ==> LegacyId(title)[i] != '+' && LegacyId(title)[i] != '/'
  {
    var legacy := LegacyId(title);
    var safe := SafeId(title);
    if safe == legacy then [safe] else
      assert exists i :: 0 <= i < |legacy| && safe[i] != legacy[i];
      [safe, legacy]
  }

  /** A recipe's id is among its candidates; no other title's candidates contain it. */
  lemma CandidatesSeparateTitles(a: string, b: string, id: string)
    requires id in Candidates(a) && id in Candidates(b)
    ensures a == b
  {
    if id == SafeId(a) && id == SafeId(b) {
      SafeIdInjective(a, b);
    } else if id == LegacyId(a) && id == LegacyId(b) {
      LegacyIdInjective(a, b);
    } else {
      // a safe id has no '+' or '/', a legacy id listed beside a different safe id has one
      assert false;
    }
  }
}
