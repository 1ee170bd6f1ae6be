// Character classes and string helpers with the meaning Python's `str`
// methods and `re` character classes give them in the bot's code.

module Text {

  /** Characters for which Python's `str.isspace()` holds; `str.strip()` with
      no argument and the regex class `\s` both use this set. */
  predicate IsSpace(c: char) {
    c == ' ' || ('\t' <= c <= '\r') || ('\U{001C}' <= c <= '\U{001F}')
    || c == '\U{0085}' || c == '\U{00A0}' || c == '\U{1680}'
    || ('\U{2000}' <= c <= '\U{200A}') || c == '\U{2028}' || c == '\U{2029}'
    || c == '\U{202F}' || c == '\U{205F}' || c == '\U{3000}'
  }

  predicate IsDigit(c: char) { '0' <= c <= '9' }

  predicate IsUpper(c: char) { 'A' <= c <= 'Z' }

  predicate IsLower(c: char) { 'a' <= c <= 'z' }

  /** A character of the regex class `\w`, so one that a `\b` boundary separates from a non-word character. */
  predicate IsWordChar(c: char) { IsUpper(c) || IsLower(c) || IsDigit(c) || c == '_' }

  function LowerChar(c: char): (r: char)
    ensures IsUpper(c) ==> IsLower(r) && r as int == c as int + 32
    ensures !IsUpper(c) ==> r == c
  {
    if IsUpper(c) then (c as int + 32) as char else c
  }

  /** Python's `s.lower()`, on the ASCII letters. */
  function Lower(s: string): (r: string)
    ensures |r| == |s|
    ensures forall i :: 0 <= i < |s| ==> r[i] == LowerChar(s[i])
  {
    seq(|s|, i requires 0 <= i < |s| => LowerChar(s[i]))
  }

  /** Number of leading characters of `s` that `drop` accepts. */
  function LeadCount(s: string, drop: char -> bool): (n: nat)
    ensures n <= |s|
    ensures forall i :: 0 <= i < n ==> drop(s[i])
    ensures n < |s| ==> !drop(s[n])
  {
    if s == [] || !drop(s[0]) then 0 else 1 + LeadCount(s[1..], drop)
  }

  /** Number of trailing characters of `s` that `drop` accepts. */
  function TrailCount(s: string, drop: char -> bool): (n: nat)
    ensures n <= |s|
    ensures forall i :: |s| - n <= i < |s| ==> drop(s[i])
    ensures n < |s| ==> !drop(s[|s| - n - 1])
  {
    if s == [] || !drop(s[|s| - 1]) then 0 else 1 + TrailCount(s[..|s| - 1], drop)
  }

  /** Python's `s.strip(chars)`: drop the longest prefix and suffix made of accepted characters. */
  function TrimBy(s: string, drop: char -> bool): (r: string)
    ensures r == [] || (!drop(r[0]) && !drop(r[|r| - 1]))
    ensures forall c :: c in s && !drop(c) ==> c in r
    ensures forall c :: c in r ==> c in s
  {
    var rest := s[LeadCount(s, drop)..];
    rest[..|rest| - TrailCount(rest, drop)]
  }

  /** `s[a..b]` is what is left of `s` once a prefix and a suffix of dropped characters are cut off. */
  predicate TrimmedAt(s: string, drop: char -> bool, a: int, b: int) {
    && 0 <= a <= b <= |s|
    && (forall i :: 0 <= i < a ==> drop(s[i]))
    && (forall i :: b <= i < |s| ==> drop(s[i]))
  }

  /** Python's `s.strip()`. */
  function Strip(s: string): (r: string)
    ensures r == [] || (!IsSpace(r[0]) && !IsSpace(r[|r| - 1]))
  {
    TrimBy(s, IsSpace)
  }

  /** `re.sub(r"\s+", " ", s)`: every maximal run of whitespace becomes one blank. */
  function CollapseSpaces(s: string): (r: string)
    decreases |s|
  {
    if s == [] then []
    else if IsSpace(s[0]) then " " + CollapseSpaces(s[LeadCount(s, IsSpace)..])
    else [s[0]] + CollapseSpaces(s[1..])
  }

  /** No whitespace but the blank, and never two whitespace characters in a row. */
  predicate Collapsed(s: string) {
    (forall i :: 0 <= i < |s| && IsSpace(s[i]) ==> s[i] == ' ')
    && (forall i :: 0 <= i < |s| - 1 ==> !(IsSpace(s[i]) && IsSpace(s[i + 1])))
  }

  /** Starts and ends with a non-whitespace character (or is empty). */
  predicate Trimmed(s: string) {
    s == [] || (!IsSpace(s[0]) && !IsSpace(s[|s| - 1]))
  }

  lemma {:induction false} CollapseFirst(s: string)
    requires s != []
    ensures CollapseSpaces(s) != []
    ensures IsSpace(s[0]) <==> IsSpace(CollapseSpaces(s)[0])
    ensures !IsSpace(s[0]) ==> CollapseSpaces(s)[0] == s[0]
  {
  }

  lemma {:induction false} CollapseLast(s: string)
    requires s != []
    ensures CollapseSpaces(s) != []
    ensures IsSpace(s[|s| - 1]) <==> IsSpace(CollapseSpaces(s)[|CollapseSpaces(s)| - 1])
    decreases |s|
  {
    if IsSpace(s[0]) {
      var k := LeadCount(s, IsSpace);
      var c := CollapseSpaces(s[k..]);
      assert CollapseSpaces(s) == " " + c;
      if k < |s| {
        CollapseLast(s[k..]);
        assert s[k..][|s[k..]| - 1] == s[|s| - 1];
        assert (" " + c)[|c|] == c[|c| - 1];
      } else {
        assert c == [];
        assert IsSpace(s[|s| - 1]);
      }
    } else if |s| > 1 {
      var c := CollapseSpaces(s[1..]);
      assert CollapseSpaces(s) == [s[0]] + c;
      CollapseLast(s[1..]);
      assert s[1..][|s| - 2] == s[|s| - 1];
      assert ([s[0]] + c)[|c|] == c[|c| - 1];
    } else {
      assert CollapseSpaces(s) == [s[0]] + CollapseSpaces(s[1..]);
      assert s[1..] == [];
    }
  }

  /** The result of the `\s+` substitution has no runs of whitespace left. */
  lemma {:induction false} CollapseIsCollapsed(s: string)
    ensures Collapsed(CollapseSpaces(s))
    decreases |s|
  {
    if s == [] {
    } else if IsSpace(s[0]) {
      var k := LeadCount(s, IsSpace);
      var tail := s[k..];
      CollapseIsCollapsed(tail);
      if tail != [] {
        CollapseFirst(tail);
      }
    } else {
      CollapseIsCollapsed(s[1..]);
    }
  }

  /** A string with no whitespace run is left as it is by the substitution. */
  lemma {:induction false} CollapseFixesCollapsed(s: string)
    requires Collapsed(s)
    ensures CollapseSpaces(s) == s
    decreases |s|
  {
    if s == [] {
    } else if IsSpace(s[0]) {
      assert |s| > 1 ==> !IsSpace(s[1]);
      assert LeadCount(s, IsSpace) == 1;
      CollapseFixesCollapsed(s[1..]);
    } else {
      CollapseFixesCollapsed(s[1..]);
    }
  }

  lemma CollapseIdempotent(s: string)
    ensures CollapseSpaces(CollapseSpaces(s)) == CollapseSpaces(s)
  {
    CollapseIsCollapsed(s);
    CollapseFixesCollapsed(CollapseSpaces(s));
  }

  lemma {:induction false} CollapseKeepsTrimmed(s: string)
    requires Trimmed(s)
    ensures Trimmed(CollapseSpaces(s))
  {
    if s != [] {
      CollapseFirst(s);
      CollapseLast(s);
    }
  }

  lemma {:induction false} CollapseKeepsLower(s: string)
    requires forall i :: 0 <= i < |s| ==> !IsUpper(s[i])
    ensures forall i :: 0 <= i < |CollapseSpaces(s)| ==> !IsUpper(CollapseSpaces(s)[i])
    decreases |s|
  {
    if s == [] {
    } else if IsSpace(s[0]) {
      CollapseKeepsLower(s[LeadCount(s, IsSpace)..]);
    } else {
      CollapseKeepsLower(s[1..]);
    }
  }

  /** Collapsing brings in no character but the blank. */
  lemma {:induction false} CollapseChars(s: string)
    ensures forall c :: c in CollapseSpaces(s) ==> c == ' ' || c in s
    decreases |s|
  {
    if s == [] {
    } else if IsSpace(s[0]) {
      var k := LeadCount(s, IsSpace);
      CollapseChars(s[k..]);
      assert forall c :: c in s[k..] ==> c in s;
    } else {
      CollapseChars(s[1..]);
      assert forall c :: c in s[1..] ==> c in s;
    }
  }

  lemma LowerFixesLower(s: string)
    requires forall i :: 0 <= i < |s| ==> !IsUpper(s[i])
    ensures Lower(s) == s
  {
  }

  lemma LowerKeepsSpaces(s: string)
    ensures forall i :: 0 <= i < |s| ==> (IsSpace(Lower(s)[i]) <==> IsSpace(s[i]))
    ensures forall i :: 0 <= i < |s| ==> !IsUpper(Lower(s)[i])
  {
  }

  lemma StripFixesTrimmed(s: string)
    requires Trimmed(s)
    ensures Strip(s) == s
  {
    assert LeadCount(s, IsSpace) == 0;
    assert TrailCount(s, IsSpace) == 0;
  }

  /** Where `strip` cuts `s`: it keeps `s[a..b]`, and only whitespace lies outside. */
  lemma StripCuts(s: string) returns (a: int, b: int)
    ensures TrimmedAt(s, IsSpace, a, b) && Strip(s) == s[a..b]
  {
    a := LeadCount(s, IsSpace);
    var rest := s[a..];
    b := a + |rest| - TrailCount(rest, IsSpace);
    assert forall i :: b <= i < |s| ==> s[i] == rest[i - a];
  }

  /** Lower-casing keeps the whitespace where it was, so it commutes with cutting it off. */
  lemma LowerTrimmedAt(s: string, a: int, b: int)
    requires TrimmedAt(s, IsSpace, a, b)
    ensures TrimmedAt(Lower(s), IsSpace, a, b)
    ensures Lower(s[a..b]) == Lower(s)[a..b]
  {
    LowerKeepsSpaces(s);
  }

  /** The contract pins `strip` down: cutting whitespace off both ends of `s` and
      stopping at a non-whitespace character on each side can only give `Strip(s)`. */
  lemma StripUnique(s: string, a: int, b: int)
    requires TrimmedAt(s, IsSpace, a, b) && Trimmed(s[a..b])
    ensures Strip(s) == s[a..b]
  {
    var r := Strip(s);
    var a', b' := StripCuts(s);
    if a == b {
      assert forall i :: 0 <= i < |s| ==> IsSpace(s[i]);
    } else {
      assert s[a..b][0] == s[a] && s[a..b][b - a - 1] == s[b - 1];
      assert a' < b';
      assert r[0] == s[a'] && r[b' - a' - 1] == s[b' - 1];
      assert a == a' && b == b';
    }
  }

  /** Python's `sep.join(parts)`. */
  function Join(parts: seq<string>, sep: string): (r: string)
    ensures parts == [] ==> r == []
    ensures |parts| == 1 ==> r == parts[0]
  {
    if parts == [] then []
    else if |parts| == 1 then parts[0]
    else Join(parts[..|parts| - 1], sep) + sep + parts[|parts| - 1]
  }

  /** The parts that are not the empty string, in order. */
  function NonEmpty(parts: seq<string>): (r: seq<string>)
    ensures forall p :: p in r ==> p != [] && p in parts
    ensures |r| <= |parts|
  {
    if parts == [] then []
    else NonEmpty(parts[..|parts| - 1]) + (if parts[|parts| - 1] != [] then [parts[|parts| - 1]] else [])
  }

  function DigitValue(c: char): (d: nat)
    requires IsDigit(c)
    ensures d < 10
  {
    c as int - '0' as int
  }

  /** Python's `int(digits)` on a string of ASCII digits. */
  function DigitsValue(ds: string): nat
    requires forall i :: 0 <= i < |ds| ==> IsDigit(ds[i])
  {
    if ds == [] then 0 else DigitsValue(ds[..|ds| - 1]) * 10 + DigitValue(ds[|ds| - 1])
  }

  function DigitChar(d: nat): (c: char)
    requires d < 10
    ensures IsDigit(c) && DigitValue(c) == d
  {
    ('0' as int + d) as char
  }

  /** Python's `str(n)` for a non-negative integer. */
  function NatToString(n: nat): (r: string)
    ensures r != []
    ensures forall i :: 0 <= i < |r| ==> IsDigit(r[i])
  {
    if n < 10 then [DigitChar(n)] else NatToString(n / 10) + [DigitChar(n % 10)]
  }

  /** Reading back the decimal rendering gives the number, and it has no leading zero. */
  lemma {:induction false} NatToStringRoundTrip(n: nat)
    ensures DigitsValue(NatToString(n)) == n
    ensures |NatToString(n)| > 1 ==> NatToString(n)[0] != '0'
  {
    if n >= 10 {
      var r := NatToString(n);
      NatToStringRoundTrip(n / 10);
      assert r[..|r| - 1] == NatToString(n / 10);
      if |NatToString(n / 10)| == 1 {
        assert n / 10 >= 1;
      }
    }
  }

  /** Python's `str(i)` / f-string rendering of an integer. */
  function IntToString(i: int): (r: string)
    ensures r != []
    ensures i >= 0 ==> r == NatToString(i)
    ensures i < 0 ==> r == "-" + NatToString(-i)
  {
    if i < 0 then "-" + NatToString(-i) else NatToString(i)
  }

  /** Python's `a <= b` on strings: code point by code point, a proper prefix first. */
  predicate StrLe(a: string, b: string)
    decreases |a|
  {
    a == [] || (b != [] && (a[0] < b[0] || (a[0] == b[0] && StrLe(a[1..], b[1..]))))
  }

  lemma {:induction false} StrLeTotal(a: string, b: string)
    ensures StrLe(a, b) || StrLe(b, a)
    decreases |a|
  {
    if a != [] && b != [] && a[0] == b[0] {
      StrLeTotal(a[1..], b[1..]);
    }
  }

  lemma {:induction false} StrLeTransitive(a: string, b: string, c: string)
    requires StrLe(a, b) && StrLe(b, c)
    ensures StrLe(a, c)
    decreases |a|
  {
    if a != [] && a[0] == b[0] && b[0] == c[0] {
      StrLeTransitive(a[1..], b[1..], c[1..]);
    }
  }

  lemma {:induction false} StrLeAntisymmetric(a: string, b: string)
    requires StrLe(a, b) && StrLe(b, a)
    ensures a == b
    decreases |a|
  {
    if a != [] {
      StrLeAntisymmetric(a[1..], b[1..]);
      assert a == [a[0]] + a[1..];
      assert b == [b[0]] + b[1..];
    }
  }

  lemma {:induction false} StrLeReflexive(a: string)
    ensures StrLe(a, a)
    decreases |a|
  {
    if a != [] {
      StrLeReflexive(a[1..]);
    }
  }

  /** The larger of two strings in that order (SQL `MAX` over text under code-point collation). */
  function StrMax(a: string, b: string): (r: string)
    ensures r == a || r == b
    ensures StrLe(a, r) && StrLe(b, r)
  {
    StrLeTotal(a, b);
    StrLeReflexive(a);
    StrLeReflexive(b);
    if StrLe(a, b) then b else a
  }
}
