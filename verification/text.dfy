/**
  String helpers with the meaning JavaScript gives them: `trim`,
  `toLowerCase`/`toUpperCase` (ASCII letters only), `startsWith`,
  `includes`, `join`, and the decimal rendering of an integer.
 */
module Text {

  /** The characters `String.prototype.trim` and the regex class `\s` remove/match. */
  predicate IsSpace(c: char) {
    || c == ' ' || c == '\t' || c == '\n' || c == '\r'
    || c == '\U{000B}' || c == '\U{000C}' || c == '\U{00A0}' || c == '\U{FEFF}'
    || c == '\U{1680}' || ('\U{2000}' <= c <= '\U{200A}')
    || c == '\U{2028}' || c == '\U{2029}' || c == '\U{202F}' || c == '\U{205F}'
    || c == '\U{3000}'
  }

  predicate NoSpace(s: string) {
    forall i :: 0 <= i < |s| ==> !IsSpace(s[i])
  }

  /** Leading whitespace removed: the result is the suffix of `s` after its
      longest all-whitespace prefix. */
  function TrimStart(s: string): (r: string)
    ensures |r| <= |s| && r == s[|s| - |r|..]
    ensures r == [] || !IsSpace(r[0])
    ensures forall i :: 0 <= i < |s| - |r| ==> IsSpace(s[i])
  {
    if |s| > 0 && IsSpace(s[0]) then TrimStart(s[1..]) else s
  }

  /** Trailing whitespace removed: the prefix of `s` before its longest
      all-whitespace suffix. */
  function TrimEnd(s: string): (r: string)
    ensures |r| <= |s| && r == s[..|r|]
    ensures r == [] || !IsSpace(r[|r| - 1])
    ensures forall i :: |r| <= i < |s| ==> IsSpace(s[i])
  {
    if |s| > 0 && IsSpace(s[|s| - 1]) then TrimEnd(s[..|s| - 1]) else s
  }

  /** `s.trim()`. */
  function Trim(s: string): (r: string)
  {
    TrimEnd(TrimStart(s))
  }

  /** The trimmed string neither starts nor ends with whitespace. */
  lemma TrimEdges(s: string)
    ensures Trim(s) == [] || (!IsSpace(Trim(s)[0]) && !IsSpace(Trim(s)[|Trim(s)| - 1]))
  {
    var t := TrimStart(s);
    var r := TrimEnd(t);
    if r != [] {
      assert r[0] == t[0];
    }
  }

  /** The trimmed string is the infix of `s` starting after its leading
      whitespace, and everything cut away on either side is whitespace. */
  lemma TrimSpec(s: string)
    ensures var a := |s| - |TrimStart(s)|;
      && a + |Trim(s)| <= |s|
      && Trim(s) == s[a..a + |Trim(s)|]
      && (forall i :: 0 <= i < a ==> IsSpace(s[i]))
      && (forall i :: a + |Trim(s)| <= i < |s| ==> IsSpace(s[i]))
  {
    var t := TrimStart(s);
    var a := |s| - |t|;
    var r := TrimEnd(t);
    PrefixOfSuffix(s, a, |r|);
    SpacesAfter(s, t, |r|);
  }

  lemma PrefixOfSuffix(s: string, a: nat, n: nat)
    requires a + n <= |s|
    ensures s[a..][..n] == s[a..a + n]
  {
  }

  /** Whitespace at the end of a suffix `t` of `s` is whitespace at the end of `s`. */
  lemma SpacesAfter(s: string, t: string, n: nat)
    requires |t| <= |s| && t == s[|s| - |t|..] && n <= |t|
    requires forall i :: n <= i < |t| ==> IsSpace(t[i])
    ensures forall i :: |s| - |t| + n <= i < |s| ==> IsSpace(s[i])
  {
    var a := |s| - |t|;
    forall i | a + n <= i < |s| ensures IsSpace(s[i]) {
      assert s[i] == t[i - a];
    }
  }

  /** `r` is `s` with whitespace cut from both ends, `r` starting at offset
      `a`: an infix of `s` that neither starts nor ends with whitespace and
      has only whitespace around it. */
  predicate TrimmedAt(r: string, s: string, a: int) {
    && 0 <= a && a + |r| <= |s|
    && r == s[a..a + |r|]
    && (r == [] || (!IsSpace(r[0]) && !IsSpace(r[|r| - 1])))
    && (forall i :: 0 <= i < a ==> IsSpace(s[i]))
    && (forall i :: a + |r| <= i < |s| ==> IsSpace(s[i]))
  }

  /** `r` is what trimming `s` must give, at some offset. */
  ghost predicate IsTrimOf(r: string, s: string) {
    exists a :: TrimmedAt(r, s, a)
  }

  lemma TrimIsTrimOf(s: string)
    ensures IsTrimOf(Trim(s), s)
  {
    TrimSpec(s);
    TrimEdges(s);
    assert TrimmedAt(Trim(s), s, |s| - |TrimStart(s)|);
  }

  /** What the handlers rely on about `trim`, in one place. */
  lemma TrimFacts(s: string)
    ensures IsTrimOf(Trim(s), s)
    ensures var r := Trim(s); r == [] || (!IsSpace(r[0]) && !IsSpace(r[|r| - 1]))
    ensures NoSpace(s) ==> Trim(s) == s
  {
    TrimIsTrimOf(s);
    TrimEdges(s);
    if NoSpace(s) {
      TrimNoSpace(s);
    }
  }

  /** Two whitespace-cut infixes of the same string are the same string. */
  lemma TrimmedAtUnique(r: string, t: string, s: string, a: int, b: int)
    requires TrimmedAt(r, s, a) && TrimmedAt(t, s, b)
    ensures r == t
  {
    // each non-empty infix pins its first and last non-space positions
    if r != [] {
      assert !IsSpace(s[a]) by { assert s[a] == r[0]; }
      assert !IsSpace(s[a + |r| - 1]) by { assert s[a + |r| - 1] == r[|r| - 1]; }
    }
    if t != [] {
      assert !IsSpace(s[b]) by { assert s[b] == t[0]; }
      assert !IsSpace(s[b + |t| - 1]) by { assert s[b + |t| - 1] == t[|t| - 1]; }
    }
  }

  /** The trim is the only whitespace-cut infix: anything that is one is it. */
  lemma TrimUnique(r: string, s: string)
    requires IsTrimOf(r, s)
    ensures r == Trim(s)
  {
    var a :| TrimmedAt(r, s, a);
    TrimIsTrimOf(s);
    var b :| TrimmedAt(Trim(s), s, b);
    TrimmedAtUnique(r, Trim(s), s, a, b);
  }

  /** A string with no whitespace at all is its own trim. */
  lemma {:induction false} TrimNoSpace(s: string)
    requires NoSpace(s)
    ensures Trim(s) == s
  {
    assert TrimStart(s) == s;
    assert TrimEnd(s) == s;
  }

  /** Trimming twice is trimming once. */
  lemma TrimIdempotent(s: string)
    ensures Trim(Trim(s)) == Trim(s)
  {
    TrimEdges(s);
    var r := Trim(s);
    if r != [] {
      assert TrimStart(r) == r;
      assert TrimEnd(r) == r;
    }
  }

  predicate IsUpperAscii(c: char) { 'A' <= c <= 'Z' }
  predicate IsLowerAscii(c: char) { 'a' <= c <= 'z' }

  function LowerChar(c: char): (d: char)
    ensures IsUpperAscii(c) ==> IsLowerAscii(d) && d as int == c as int + 32
    ensures !IsUpperAscii(c) ==> d == c
  {
    if IsUpperAscii(c) then (c as int + 32) as char else c
  }

  function UpperChar(c: char): (d: char)
    ensures IsLowerAscii(c) ==> IsUpperAscii(d) && d as int == c as int - 32
    ensures !IsLowerAscii(c) ==> d == c
  {
    if IsLowerAscii(c) then (c as int - 32) as char else c
  }

  /** `s.toLowerCase()`, restricted to ASCII letters. */
  function ToLower(s: string): (r: string)
    ensures |r| == |s|
    ensures forall i :: 0 <= i < |s| ==> r[i] == LowerChar(s[i])
  {
    seq(|s|, i requires 0 <= i < |s| => LowerChar(s[i]))
  }

  /** `s.toUpperCase()`, restricted to ASCII letters. */
  function ToUpper(s: string): (r: string)
    ensures |r| == |s|
    ensures forall i :: 0 <= i < |s| ==> r[i] == UpperChar(s[i])
  {
    seq(|s|, i requires 0 <= i < |s| => UpperChar(s[i]))
  }

  predicate NoUpper(s: string) {
    forall i :: 0 <= i < |s| ==> !IsUpperAscii(s[i])
  }

  predicate NoLower(s: string) {
    forall i :: 0 <= i < |s| ==> !IsLowerAscii(s[i])
  }

  lemma ToLowerSpec(s: string)
    ensures NoUpper(ToLower(s))
    ensures NoUpper(s) ==> ToLower(s) == s
    ensures ToLower(ToLower(s)) == ToLower(s)
  {
  }

  lemma ToUpperSpec(s: string)
    ensures NoLower(ToUpper(s))
    ensures NoLower(s) ==> ToUpper(s) == s
    ensures ToUpper(ToUpper(s)) == ToUpper(s)
  {
  }

  /** Trimming only cuts characters away, so it makes no upper case. */
  lemma TrimKeepsNoUpper(s: string)
    requires NoUpper(s)
    ensures NoUpper(Trim(s))
  {
    var t := TrimStart(s);
    var r := TrimEnd(t);
    forall i | 0 <= i < |r| ensures !IsUpperAscii(r[i]) {
      assert r[i] == t[i] == s[|s| - |t| + i];
    }
  }

  /** Case mapping neither makes nor removes whitespace. */
  lemma UpperCharSpace(c: char)
    ensures IsSpace(UpperChar(c)) <==> IsSpace(c)
  {
  }

  lemma LowerCharSpace(c: char)
    ensures IsSpace(LowerChar(c)) <==> IsSpace(c)
  {
  }

  /** Case mapping touches no whitespace, so it commutes with trimming. */
  lemma {:induction false} TrimStartToUpper(s: string)
    ensures TrimStart(ToUpper(s)) == ToUpper(TrimStart(s))
    decreases |s|
  {
    if |s| > 0 {
      UpperCharSpace(s[0]);
      assert ToUpper(s)[0] == UpperChar(s[0]);
      if IsSpace(s[0]) {
        assert ToUpper(s)[1..] == ToUpper(s[1..]);
        TrimStartToUpper(s[1..]);
      }
    }
  }

  lemma {:induction false} TrimEndToUpper(s: string)
    ensures TrimEnd(ToUpper(s)) == ToUpper(TrimEnd(s))
    decreases |s|
  {
    if |s| > 0 {
      UpperCharSpace(s[|s| - 1]);
      assert ToUpper(s)[|s| - 1] == UpperChar(s[|s| - 1]);
      if IsSpace(s[|s| - 1]) {
        assert ToUpper(s)[..|s| - 1] == ToUpper(s[..|s| - 1]);
        TrimEndToUpper(s[..|s| - 1]);
      }
    }
  }

  lemma TrimToUpper(s: string)
    ensures Trim(ToUpper(s)) == ToUpper(Trim(s))
  {
    TrimStartToUpper(s);
    TrimEndToUpper(TrimStart(s));
  }

  lemma {:induction false} TrimStartToLower(s: string)
    ensures TrimStart(ToLower(s)) == ToLower(TrimStart(s))
    decreases |s|
  {
    if |s| > 0 {
      LowerCharSpace(s[0]);
      assert ToLower(s)[0] == LowerChar(s[0]);
      if IsSpace(s[0]) {
        assert ToLower(s)[1..] == ToLower(s[1..]);
        TrimStartToLower(s[1..]);
      }
    }
  }

  lemma {:induction false} TrimEndToLower(s: string)
    ensures TrimEnd(ToLower(s)) == ToLower(TrimEnd(s))
    decreases |s|
  {
    if |s| > 0 {
      LowerCharSpace(s[|s| - 1]);
      assert ToLower(s)[|s| - 1] == LowerChar(s[|s| - 1]);
      if IsSpace(s[|s| - 1]) {
        assert ToLower(s)[..|s| - 1] == ToLower(s[..|s| - 1]);
        TrimEndToLower(s[..|s| - 1]);
      }
    }
  }

  lemma TrimToLower(s: string)
    ensures Trim(ToLower(s)) == ToLower(Trim(s))
  {
    TrimStartToLower(s);
    TrimEndToLower(TrimStart(s));
  }

  /** `s.startsWith(prefix)`. */
  predicate StartsWith(s: string, prefix: string) {
    |prefix| <= |s| && s[..|prefix|] == prefix
  }

  /** `needle` occurs in `hay` starting at offset `k`. */
  predicate OccursAt(hay: string, needle: string, k: int) {
    0 <= k && k + |needle| <= |hay| && hay[k..k + |needle|] == needle
  }

  /** `hay.includes(needle)`, scanning from the left. */
  predicate Contains(hay: string, needle: string)
    decreases |hay|
  {
    StartsWith(hay, needle) || (|hay| > 0 && Contains(hay[1..], needle))
  }

  /** `includes` is exactly "occurs at some offset". */
  lemma {:induction false} ContainsSpec(hay: string, needle: string)
    ensures Contains(hay, needle) <==> exists k :: OccursAt(hay, needle, k)
    decreases |hay|
  {
    if |hay| > 0 {
      ContainsSpec(hay[1..], needle);
      forall k | 0 <= k ensures OccursAt(hay[1..], needle, k) <==> OccursAt(hay, needle, k + 1) {
        if 0 <= k && k + |needle| <= |hay| - 1 {
          assert hay[1..][k..k + |needle|] == hay[k + 1..k + 1 + |needle|];
        }
      }
      if exists k :: OccursAt(hay, needle, k) {
        var k :| OccursAt(hay, needle, k);
        if k > 0 {
          assert OccursAt(hay[1..], needle, k - 1);
        }
      }
    }
    if StartsWith(hay, needle) {
      assert OccursAt(hay, needle, 0);
    }
  }

  /** The empty string occurs in every string. */
  lemma ContainsEmpty(hay: string)
    ensures Contains(hay, "")
  {
  }

  /** Joins pieces with a separator, as `Array.prototype.join`. */
  function Join(pieces: seq<string>, sep: string): string
  {
    if |pieces| == 0 then ""
    else if |pieces| == 1 then pieces[0]
    else pieces[0] + sep + Join(pieces[1..], sep)
  }

  function DigitChar(d: nat): (c: char)
    requires d < 10
    ensures '0' <= c <= '9'
  {
    ('0' as int + d) as char
  }

  predicate IsDigit(c: char) { '0' <= c <= '9' }

  /** Decimal digits of a natural number, no leading zeros. */
  function NatToString(n: nat): (r: string)
    ensures |r| > 0
    ensures forall i :: 0 <= i < |r| ==> IsDigit(r[i])
    decreases n
  {
    if n < 10 then [DigitChar(n)] else NatToString(n / 10) + [DigitChar(n % 10)]
  }

  /** `String(n)` for an integer. */
  function IntToString(n: int): (r: string)
    ensures |r| > 0
  {
    if n < 0 then "-" + NatToString(-n) else NatToString(n)
  }

  /** Reads a string of decimal digits back as a number. */
  function ParseDigits(s: string): nat
    requires forall i :: 0 <= i < |s| ==> IsDigit(s[i])
    decreases |s|
  {
    if |s| == 0 then 0
    else assert IsDigit(s[|s| - 1]); ParseDigits(s[..|s| - 1]) * 10 + (s[|s| - 1] as int - '0' as int)
  }

  /** Rendering a number in decimal and reading it back gives the number. */
  lemma {:induction false} NatToStringRoundTrip(n: nat)
    ensures ParseDigits(NatToString(n)) == n
    decreases n
  {
    if n >= 10 {
      NatToStringRoundTrip(n / 10);
      var s := NatToString(n);
      assert s[..|s| - 1] == NatToString(n / 10);
    }
  }
}
