// The free-text workout-entry parser of gym_supervisor/bot.py
// (`_parse_workout_entry`): a label before the first digit, then
// (reps, weight) pairs from an explicit `<weight>[lb]x<reps>` scan or, when
// that finds nothing, from bare numbers paired as weight then reps.

module WorkoutParser {
  import opened Text
  import opened Wrappers

  /** A decimal literal `digits[.digits]`, read exactly: the digits before the
      point, the digits after it as a number, and how many digits follow the point. */
  datatype Decimal = Decimal(whole: nat, frac: nat, scale: nat)

  /** One logged set: repetitions and the weight moved. */
  datatype Pair = Pair(reps: int, weight: real)

  /** The parser's result: the workout-type label and the accepted pairs. */
  datatype Parsed = Parsed(workoutType: string, pairs: seq<Pair>)

  /** A number token of `\d+(?:\.\d+)?`: its value, how many digits precede the point, and where it ends. */
  datatype Number = Number(value: Decimal, intDigits: nat, end: nat)

  /** One match of the explicit pattern: weight, reps and the position after the match. */
  datatype Explicit = Explicit(weight: Decimal, reps: nat, end: nat)

  const MinReps := 1
  const MaxReps := 100
  const MaxWeight := 2000.0

  function Pow10(k: nat): (p: nat)
    ensures p >= 1
  {
    if k == 0 then 1 else 10 * Pow10(k - 1)
  }

  lemma {:induction false} Pow10Le(k: nat, n: nat)
    requires k <= n
    ensures Pow10(k) <= Pow10(n)
    ensures Pow10(3) == 1000 && Pow10(4) == 10000
    decreases n
  {
    if k < n {
      Pow10Le(k, n - 1);
    }
  }

  /** The fraction's digits spell a number below 10^scale. */
  predicate WellFormed(d: Decimal) {
    d.frac < Pow10(d.scale)
  }

  /** Python's `float(literal)`, without the rounding to binary floating point. */
  function Value(d: Decimal): real {
    d.whole as real + d.frac as real / Pow10(d.scale) as real
  }

  /** Python's `int(float(literal))` on the exact literal: truncation toward zero of a
      non-negative value, without the rounding to a binary float before it. */
  function Trunc(d: Decimal): nat {
    d.whole
  }

  /** `int(...)` on the fallback reps truncates: it is the whole part of the value. */
  lemma TruncIsWholePart(d: Decimal)
    requires WellFormed(d)
    ensures Trunc(d) as real <= Value(d) < Trunc(d) as real + 1.0
  {
    DivBounds(d.frac as real, 0.0, Pow10(d.scale) as real);
  }

  /** A run of n digits spells a number below 10^n. */
  lemma {:induction false} DigitsValueBound(ds: string)
    requires forall i :: 0 <= i < |ds| ==> IsDigit(ds[i])
    ensures DigitsValue(ds) < Pow10(|ds|)
  {
    if ds != [] {
      var init := ds[..|ds| - 1];
      DigitsValueBound(init);
      assert DigitsValue(init) + 1 <= Pow10(|init|);
      assert DigitsValue(ds) == DigitsValue(init) * 10 + DigitValue(ds[|ds| - 1]);
      assert DigitsValue(ds) < (DigitsValue(init) + 1) * 10;
    }
  }

  lemma DivBounds(m: real, q: real, p: real)
    requires p > 0.0 && q * p <= m < (q + 1.0) * p
    ensures q <= m / p < q + 1.0
  {
    var z := m / p;
    assert z * p == m;
    if z < q {
      MulLess(z, q, p);
    }
    if z >= q + 1.0 {
      MulLessEq(q + 1.0, z, p);
    }
  }

  lemma MulLess(a: real, b: real, p: real)
    requires a < b && p > 0.0
    ensures a * p < b * p
  {
    assert b * p - a * p == (b - a) * p;
  }

  lemma MulLessEq(a: real, b: real, p: real)
    requires a <= b && p > 0.0
    ensures a * p <= b * p
  {
    assert b * p - a * p == (b - a) * p;
  }

  /** The bounds filter of both branches: 1 <= reps <= 100 and 0 < weight <= 2000. */
  predicate InBounds(p: Pair) {
    MinReps <= p.reps <= MaxReps && 0.0 < p.weight <= MaxWeight
  }

  /** The pairs that pass the bounds filter, in their order. */
  function Keep(cands: seq<Pair>): (r: seq<Pair>)
    ensures |r| <= |cands|
  {
    if cands == [] then []
    else Keep(cands[..|cands| - 1]) + (if InBounds(cands[|cands| - 1]) then [cands[|cands| - 1]] else [])
  }

  lemma KeepStep(cands: seq<Pair>, p: Pair)
    ensures Keep(cands + [p]) == Keep(cands) + (if InBounds(p) then [p] else [])
  {
    assert (cands + [p])[..|cands|] == cands;
  }

  /** `a` is `b` with some elements left out and the rest in their order. */
  predicate IsSubsequence<T(==)>(a: seq<T>, b: seq<T>)
    decreases |b|
  {
    if a == [] then true
    else if b == [] then false
    else if a[|a| - 1] == b[|b| - 1] then IsSubsequence(a[..|a| - 1], b[..|b| - 1])
    else IsSubsequence(a, b[..|b| - 1])
  }

  /** The filter drops candidates and never alters one: the result is an ordered
      sub-list of the candidates, every pair in it is in bounds, and every candidate
      in bounds is in it. */
  lemma {:induction false} KeepDropsNeverClamps(cands: seq<Pair>)
    ensures IsSubsequence(Keep(cands), cands)
    ensures forall p :: p in Keep(cands) ==> InBounds(p) && p in cands
    ensures forall p :: p in cands && InBounds(p) ==> p in Keep(cands)
    decreases |cands|
  {
    if cands != [] {
      var init := cands[..|cands| - 1];
      var last := cands[|cands| - 1];
      KeepDropsNeverClamps(init);
      assert cands == init + [last];
      assert forall p :: p in cands <==> p in init || p == last;
      KeepStep(init, last);
      if InBounds(last) {
        assert Keep(cands)[..|Keep(cands)| - 1] == Keep(init);
        assert forall p :: p in Keep(cands) <==> p in Keep(init) || p == last;
      } else {
        assert Keep(cands) == Keep(init);
        SubsequenceOfLonger(Keep(init), init, last);
      }
    }
  }

  lemma {:induction false} SubsequenceOfLonger<T>(a: seq<T>, b: seq<T>, x: T)
    requires IsSubsequence(a, b)
    ensures IsSubsequence(a, b + [x])
    decreases |b|, 1
  {
    if a != [] {
      assert (b + [x])[..|b|] == b;
      if a[|a| - 1] == x {
        SubsequenceDropLast(a, b);
      }
    }
  }

  lemma {:induction false} SubsequenceDropLast<T>(a: seq<T>, b: seq<T>)
    requires a != [] && IsSubsequence(a, b)
    ensures IsSubsequence(a[..|a| - 1], b)
    decreases |b|, 0
  {
    var b' := b[..|b| - 1];
    assert b == b' + [b[|b| - 1]];
    if a[|a| - 1] == b[|b| - 1] {
      SubsequenceOfLonger(a[..|a| - 1], b', b[|b| - 1]);
    } else {
      SubsequenceDropLast(a, b');
      SubsequenceOfLonger(a[..|a| - 1], b', b[|b| - 1]);
    }
  }

  // ---- scanning helpers ------------------------------------------------------

  /** Length of the run of digits starting at `p`. */
  function DigitRun(s: string, p: nat): (n: nat)
    requires p <= |s|
    ensures p + n <= |s|
    ensures forall i :: p <= i < p + n ==> IsDigit(s[i])
    ensures p + n < |s| ==> !IsDigit(s[p + n])
    decreases |s| - p
  {
    if p < |s| && IsDigit(s[p]) then 1 + DigitRun(s, p + 1) else 0
  }

  /** The position after the run of whitespace (`\s*`) starting at `p`. */
  function SkipSpaces(s: string, p: nat): (q: nat)
    requires p <= |s|
    ensures p <= q <= |s|
    ensures q < |s| ==> !IsSpace(s[q])
    decreases |s| - p
  {
    if p < |s| && IsSpace(s[p]) then SkipSpaces(s, p + 1) else p
  }

  /** The number `\d+(?:\.\d+)?` starting at `p`: all the digits, then a point and
      all the digits after it when at least one follows. */
  function ScanNumber(s: string, p: nat): (n: Number)
    requires p < |s| && IsDigit(s[p])
    ensures p < n.end <= |s|
    ensures n.intDigits == DigitRun(s, p) >= 1
    ensures WellFormed(n.value) && n.value.whole < Pow10(n.intDigits)
    ensures n.value.whole == DigitsValue(s[p..p + n.intDigits])
    ensures n.value.scale == 0 ==> n.end == p + n.intDigits && n.value.frac == 0
    ensures n.value.scale > 0 ==>
              && n.end == p + n.intDigits + 1 + n.value.scale
              && s[p + n.intDigits] == '.'
              && n.value.scale == DigitRun(s, p + n.intDigits + 1)
              && n.value.frac == DigitsValue(s[p + n.intDigits + 1..n.end])
    ensures n.end < |s| ==> !IsDigit(s[n.end])
    ensures n.value.scale == 0 ==> !(n.end + 1 < |s| && s[n.end] == '.' && IsDigit(s[n.end + 1]))
  {
    var j := p + DigitRun(s, p);
    DigitsValueBound(s[p..j]);
    if j + 1 < |s| && s[j] == '.' && IsDigit(s[j + 1]) then
      var k := j + 1 + DigitRun(s, j + 1);
      DigitsValueBound(s[j + 1..k]);
      Number(Decimal(DigitsValue(s[p..j]), DigitsValue(s[j + 1..k]), k - (j + 1)), j - p, k)
    else
      Number(Decimal(DigitsValue(s[p..j]), 0, 0), j - p, j)
  }

  predicate IsSeparator(c: char) { c == 'x' || c == 'X' || c == '@' }

  /** What the pattern lets through: at most four digits before the weight's point
      and at most three digits of reps. */
  predicate Shaped(m: Explicit) {
    m.weight.whole < 10000 && m.reps < 1000 && WellFormed(m.weight)
  }

  /** One attempt of `\b(\d{1,4}(?:\.\d+)?)\s*(?:lb)?\s*[xX@]\s*(\d{1,3})\b`
      (case-insensitive) at position `p`. Backtracking cannot help: a shorter
      digit run would leave a digit where the pattern needs a point, blank, `l`,
      separator or word boundary, so the weight's digits, its fraction and the
      reps' digits are each a whole run. */
  function MatchExplicitAt(s: string, p: nat): (m: Option<Explicit>)
    requires p <= |s|
    ensures m.Some? ==> p < m.value.end <= |s|
    ensures m.Some? ==> Shaped(m.value)
  {
    match WeightAt(s, p)
    case None => None
    case Some(w) =>
      match SeparatorFrom(s, w.end)
      case None => None
      case Some(r) =>
        match RepsAt(s, r)
        case None => None
        case Some(reps) => Some(Explicit(w.value, reps.0, reps.1))
  }

  /** `\b(\d{1,4}(?:\.\d+)?)` at `p`: a number starting on a word boundary with at
      most four digits before its point. */
  function WeightAt(s: string, p: nat): (w: Option<Number>)
    requires p <= |s|
    ensures w.Some? ==> p < w.value.end <= |s|
    ensures w.Some? ==> w.value.value.whole < 10000 && WellFormed(w.value.value)
  {
    if p == |s| || !IsDigit(s[p]) || (p > 0 && IsWordChar(s[p - 1])) then None
    else
      var n := ScanNumber(s, p);
      if n.intDigits > 4 then None
      else
        Pow10Le(n.intDigits, 4);
        Some(n)
  }

  /** `\s*(?:lb)?\s*[xX@]\s*` from `q`: the position after it, if it matches. */
  function SeparatorFrom(s: string, q: nat): (r: Option<nat>)
    requires q <= |s|
    ensures r.Some? ==> q < r.value <= |s|
  {
    var q1 := SkipSpaces(s, q);
    var q2 := if q1 + 1 < |s| && LowerChar(s[q1]) == 'l' && LowerChar(s[q1 + 1]) == 'b'
              then SkipSpaces(s, q1 + 2) else q1;
    if q2 == |s| || !IsSeparator(s[q2]) then None
    else Some(SkipSpaces(s, q2 + 1))
  }

  /** `(\d{1,3})\b` at `r`: the reps and the position after them. */
  function RepsAt(s: string, r: nat): (n: Option<(nat, nat)>)
    requires r <= |s|
    ensures n.Some? ==> r < n.value.1 <= |s| && n.value.0 < 1000
  {
    var k := DigitRun(s, r);
    if k == 0 || k > 3 || (r + k < |s| && IsWordChar(s[r + k])) then None
    else
      DigitsValueBound(s[r..r + k]);
      Pow10Le(k, 3);
      Some((DigitsValue(s[r..r + k]), r + k))
  }

  /** `re.findall` of the explicit pattern from position `p`: try at each position
      left to right, resume after each match. */
  function ExplicitFrom(s: string, p: nat): seq<Explicit>
    requires p <= |s|
    decreases |s| - p
  {
    if p == |s| then []
    else match MatchExplicitAt(s, p)
      case Some(m) => [m] + ExplicitFrom(s, m.end)
      case None => ExplicitFrom(s, p + 1)
  }

  function ExplicitMatches(s: string): seq<Explicit> {
    ExplicitFrom(s, 0)
  }

  /** `re.findall(r"\d+(?:\.\d+)?", ...)` from position `p`. */
  function NumbersFrom(s: string, p: nat): seq<Decimal>
    requires p <= |s|
    decreases |s| - p
  {
    if p == |s| then []
    else if IsDigit(s[p]) then
      var n := ScanNumber(s, p);
      [n.value] + NumbersFrom(s, n.end)
    else NumbersFrom(s, p + 1)
  }

  function NumberTokens(s: string): seq<Decimal> {
    NumbersFrom(s, 0)
  }

  /** `re.search(r"\d", s)`: the index of the first digit, if any. */
  function FirstDigit(s: string): (r: Option<nat>)
    ensures r.None? ==> forall i :: 0 <= i < |s| ==> !IsDigit(s[i])
    ensures r.Some? ==> r.value < |s| && IsDigit(s[r.value])
                        && forall i :: 0 <= i < r.value ==> !IsDigit(s[i])
  {
    if s == [] then None
    else if IsDigit(s[0]) then Some(0)
    else match FirstDigit(s[1..])
      case None => None
      case Some(i) => Some(i + 1)
  }

  predicate IsLabelSeparator(c: char) { c == ' ' || c == ':' || c == '-' || c == ',' }

  /** `re.sub(r"\s+", " ", prefix.strip(" :-,").lower())`. */
  function Label(prefix: string): string {
    CollapseSpaces(Lower(TrimBy(prefix, IsLabelSeparator)))
  }

  // ---- candidates and the parse ----------------------------------------------

  /** Each explicit match as (int(reps), float(weight)). */
  function ExplicitCandidates(ms: seq<Explicit>): (r: seq<Pair>)
    ensures |r| == |ms|
  {
    seq(|ms|, i requires 0 <= i < |ms| => Pair(ms[i].reps, Value(ms[i].weight)))
  }

  /** Numbers taken two at a time as (weight, reps), reps truncated; a trailing odd number pairs with nothing. */
  function PairUp(nums: seq<Decimal>): (r: seq<Pair>)
    ensures |r| == |nums| / 2
  {
    seq(|nums| / 2, k requires 0 <= k < |nums| / 2 => Pair(Trunc(nums[2 * k + 1]), Value(nums[2 * k])))
  }

  /** The bare-number branch: fewer than two numbers give nothing, an odd count loses its last number. */
  function Fallback(nums: seq<Decimal>): seq<Pair> {
    if |nums| < 2 then []
    else Keep(PairUp(if |nums| % 2 != 0 then nums[..|nums| - 1] else nums))
  }

  const NoParse := Parsed("", [])

  /** What `_parse_workout_entry` returns for `text`. */
  function Parse(text: string): Parsed {
    var clean := Strip(text);
    if clean == [] then NoParse
    else match FirstDigit(clean)
      case None => NoParse
      case Some(i) =>
        var kind := Label(clean[..i]);
        if kind == [] then NoParse
        else
          Parsed(kind, SetPairs(clean[i..]))
  }

  /** The pairs read from the text after the label: the explicit matches when
      there are any, else the bare numbers, each kept only when in bounds. */
  function SetPairs(sets: string): seq<Pair> {
    var explicit := ExplicitMatches(sets);
    if explicit != [] then Keep(ExplicitCandidates(explicit))
    else Fallback(NumberTokens(sets))
  }

  /** The part of the trimmed text from its first digit on (empty when there is none). */
  function SetsText(text: string): string {
    var clean := Strip(text);
    match FirstDigit(clean)
    case None => []
    case Some(i) => clean[i..]
  }

  /** The pairs the bounds filter is applied to: the explicit matches when there are
      any, else the bare numbers paired up. */
  function Candidates(text: string): seq<Pair> {
    var sets := SetsText(text);
    if ExplicitMatches(sets) != [] then ExplicitCandidates(ExplicitMatches(sets))
    else PairUp(NumberTokens(sets))
  }

  /** The explicit branch's loop: each match converted and kept when in bounds. */
  method FilterExplicit(ms: seq<Explicit>) returns (pairs: seq<Pair>)
    ensures pairs == Keep(ExplicitCandidates(ms))
  {
    ghost var cands := ExplicitCandidates(ms);
    pairs := [];
    var i := 0;
    while i < |ms|
      invariant 0 <= i <= |ms|
      invariant pairs == Keep(cands[..i])
    {
      var p := Pair(ms[i].reps, Value(ms[i].weight));
      assert cands[..i + 1] == cands[..i] + [p];
      KeepStep(cands[..i], p);
      if MinReps <= p.reps <= MaxReps && 0.0 < p.weight <= MaxWeight {
        pairs := pairs + [p];
      }
      i := i + 1;
    }
    assert cands[..|ms|] == cands;
  }

  /** The fallback branch's loop: numbers walked two at a time as (weight, reps). */
  method PairNumbers(numbers: seq<Decimal>) returns (pairs: seq<Pair>)
    requires |numbers| % 2 == 0
    ensures pairs == Keep(PairUp(numbers))
  {
    ghost var cands := PairUp(numbers);
    var half := |numbers| / 2;
    pairs := [];
    var k := 0;
    while k < half
      invariant 0 <= k <= half
      invariant pairs == Keep(cands[..k])
    {
      var weight := Value(numbers[2 * k]);
      var reps := Trunc(numbers[2 * k + 1]);
      assert cands[..k + 1] == cands[..k] + [Pair(reps, weight)];
      KeepStep(cands[..k], Pair(reps, weight));
      if MinReps <= reps <= MaxReps && 0.0 < weight <= MaxWeight {
        pairs := pairs + [Pair(reps, weight)];
      }
      k := k + 1;
    }
    assert cands[..half] == cands;
  }

  /** The pairs of the text after the label, by the source's two loops. */
  method ParseSets(sets: string) returns (pairs: seq<Pair>)
    ensures pairs == SetPairs(sets)
  {
    var explicit := ExplicitMatches(sets);
    if explicit != [] {
      pairs := FilterExplicit(explicit);
      return;
    }
    var numbers := NumberTokens(sets);
    if |numbers| < 2 {
      return [];
    }
    if |numbers| % 2 != 0 {
      numbers := numbers[..|numbers| - 1];
    }
    pairs := PairNumbers(numbers);
  }

  /** The parser as the source runs it: the label, then the pairs. */
  method ParseWorkoutEntry(text: string) returns (r: Parsed)
    ensures r == Parse(text)
  {
    var clean := Strip(text);
    if clean == [] {
      return NoParse;
    }
    var first := FirstDigit(clean);
    if first.None? {
      return NoParse;
    }
    var kind := Label(clean[..first.value]);
    if kind == [] {
      return NoParse;
    }
    var pairs := ParseSets(clean[first.value..]);
    return Parsed(kind, pairs);
  }

  // ---- properties ------------------------------------------------------------

  /** Text without a digit parses to no label and no pairs. */
  lemma ParseWithoutDigit(text: string)
    requires forall i :: 0 <= i < |text| ==> !IsDigit(text[i])
    ensures Parse(text) == NoParse
  {
    var clean := Strip(text);
    assert forall i :: 0 <= i < |clean| ==> clean[i] in text;
  }

  /** The label holds no digit and no upper-case letter, and no two blanks in a row. */
  lemma LabelShape(prefix: string)
    requires forall i :: 0 <= i < |prefix| ==> !IsDigit(prefix[i])
    ensures forall i :: 0 <= i < |Label(prefix)| ==> !IsDigit(Label(prefix)[i]) && !IsUpper(Label(prefix)[i])
    ensures Collapsed(Label(prefix))
  {
    var trimmed := TrimBy(prefix, IsLabelSeparator);
    var lowered := Lower(trimmed);
    assert forall i :: 0 <= i < |trimmed| ==> trimmed[i] in prefix;
    assert forall i :: 0 <= i < |lowered| ==> !IsDigit(lowered[i]) && !IsUpper(lowered[i]);
    CollapseChars(lowered);
    CollapseKeepsLower(lowered);
    CollapseIsCollapsed(lowered);
    var r := Label(prefix);
    forall i | 0 <= i < |r| ensures !IsDigit(r[i])
    {
      assert r[i] in CollapseSpaces(lowered);
    }
  }

  /** The parsed workout type has the label's shape. */
  lemma ParsedTypeShape(text: string)
    ensures var t := Parse(text).workoutType;
      (forall i :: 0 <= i < |t| ==> !IsDigit(t[i]) && !IsUpper(t[i])) && Collapsed(t)
  {
    var clean := Strip(text);
    if clean != [] && FirstDigit(clean).Some? {
      LabelShape(clean[..FirstDigit(clean).value]);
    }
  }

  /** The guard on fewer than two numbers and the dropping of an odd last number
      change nothing: pairing up already ignores an unpaired last number. */
  lemma FallbackIsPairUp(nums: seq<Decimal>)
    ensures Fallback(nums) == Keep(PairUp(nums))
  {
    if |nums| >= 2 && |nums| % 2 != 0 {
      var even := nums[..|nums| - 1];
      assert PairUp(even) == PairUp(nums);
    }
  }

  /** When the text has a label, its pairs are exactly the candidates within the
      bounds, in the candidates' order. */
  lemma ParsePairsAreKeptCandidates(text: string)
    ensures Parse(text).workoutType != [] ==> Parse(text).pairs == Keep(Candidates(text))
    ensures Parse(text).workoutType == [] ==> Parse(text).pairs == []
  {
    var sets := SetsText(text);
    if ExplicitMatches(sets) == [] {
      FallbackIsPairUp(NumberTokens(sets));
    }
  }

  /** Out-of-range pairs are dropped, never clamped: every returned pair is in
      bounds and is a candidate, the pairs keep the candidates' order, and when the
      text has a label every in-bounds candidate is returned. */
  lemma ParseDropsNeverClamps(text: string)
    ensures forall p :: p in Parse(text).pairs ==> InBounds(p) && p in Candidates(text)
    ensures IsSubsequence(Parse(text).pairs, Candidates(text))
    ensures Parse(text).workoutType != [] ==>
      forall p :: p in Candidates(text) && InBounds(p) ==> p in Parse(text).pairs
  {
    ParsePairsAreKeptCandidates(text);
    KeepDropsNeverClamps(Candidates(text));
  }

  lemma LabelOfBenchPress()
    ensures Label("bench press ") == "bench press"
  {
    var a := "bench";
    var b := "press";
    var w := "bench press";
    assert w == a + " " + b;
    forall i | 0 <= i < |w| ensures !IsUpper(w[i]) && (i != 5 ==> IsLower(w[i])) {
      if i < 5 {
        assert w[i] == a[i] && a[i] in a;
      } else if i > 5 {
        assert w[i] == b[i - 6] && b[i - 6] in b;
      }
    }
    assert "bench press " == w + " ";
    LabelOfTrailingBlank(w);
  }

  /** A lower-case label with single inner blanks, followed by one blank, is its own label. */
  lemma LabelOfTrailingBlank(w: string)
    requires w != [] && !IsLabelSeparator(w[0]) && !IsLabelSeparator(w[|w| - 1])
    requires forall i :: 0 <= i < |w| ==> !IsUpper(w[i])
    requires forall i :: 0 <= i < |w| && w[i] != ' ' ==> !IsSpace(w[i])
    requires forall i :: 0 <= i < |w| - 1 && w[i] == ' ' ==> w[i + 1] != ' '
    ensures Label(w + " ") == w
  {
    var p := w + " ";
    assert LeadCount(p, IsLabelSeparator) == 0 by {
      assert p[0] == w[0];
    }
    assert p[0..] == p;
    assert p[..|p| - 1] == w;
    assert TrailCount(p, IsLabelSeparator) == 1 by {
      assert TrailCount(w, IsLabelSeparator) == 0;
    }
    assert p[..|w|] == w;
    LowerFixesLower(w);
    CollapseFixesCollapsed(w);
  }

  lemma TwentyOfTwoSets()
    ensures ScanNumber("20x8, 30x8", 0) == Number(Decimal(20, 0, 0), 2, 2)
  {
    var s := "20x8, 30x8";
    assert IsDigit(s[1]) && s[2] == 'x';
    assert DigitRun(s, 1) == 1;
    assert s[0..2] == "20" && DigitsValue("20") == 20;
  }

  lemma ThirtyOfTwoSets()
    ensures ScanNumber("20x8, 30x8", 6) == Number(Decimal(30, 0, 0), 2, 8)
  {
    var s := "20x8, 30x8";
    assert IsDigit(s[7]) && s[8] == 'x';
    assert DigitRun(s, 7) == 1;
    assert s[6..8] == "30" && DigitsValue("30") == 30;
  }

  lemma RepsOfTwoSets(p: nat)
    requires p == 2 || p == 8
    ensures SkipSpaces("20x8, 30x8", p) == p
    ensures SkipSpaces("20x8, 30x8", p + 1) == p + 1
    ensures DigitRun("20x8, 30x8", p + 1) == 1
    ensures DigitsValue("20x8, 30x8"[p + 1..p + 2]) == 8
  {
    var s := "20x8, 30x8";
    assert s[p] == 'x' && s[p + 1] == '8';
    assert p + 2 < |s| ==> s[p + 2] == ',';
    assert s[p + 1..p + 2] == "8";
  }

  lemma FirstMatchOfTwoSets()
    ensures MatchExplicitAt("20x8, 30x8", 0) == Some(Explicit(Decimal(20, 0, 0), 8, 4))
  {
    var s := "20x8, 30x8";
    TwentyOfTwoSets();
    RepsOfTwoSets(2);
    assert s[4] == ',';
  }

  lemma SecondMatchOfTwoSets()
    ensures MatchExplicitAt("20x8, 30x8", 6) == Some(Explicit(Decimal(30, 0, 0), 8, 10))
  {
    var s := "20x8, 30x8";
    assert s[5] == ' ';
    ThirtyOfTwoSets();
    RepsOfTwoSets(8);
  }

  lemma GapOfTwoSets()
    ensures ExplicitFrom("20x8, 30x8", 4) == ExplicitFrom("20x8, 30x8", 6)
  {
    var s := "20x8, 30x8";
    assert s[4] == ',' && s[5] == ' ';
    assert MatchExplicitAt(s, 4) == None;
    assert MatchExplicitAt(s, 5) == None;
  }

  lemma MatchesOfTwoSets()
    ensures ExplicitMatches("20x8, 30x8") == [Explicit(Decimal(20, 0, 0), 8, 4), Explicit(Decimal(30, 0, 0), 8, 10)]
  {
    var s := "20x8, 30x8";
    FirstMatchOfTwoSets();
    SecondMatchOfTwoSets();
    GapOfTwoSets();
    assert ExplicitFrom(s, 10) == [];
  }

  lemma CandidatesOfTwoSets()
    ensures ExplicitCandidates([Explicit(Decimal(20, 0, 0), 8, 4), Explicit(Decimal(30, 0, 0), 8, 10)])
         == [Pair(8, 20.0), Pair(8, 30.0)]
  {
    var c := ExplicitCandidates([Explicit(Decimal(20, 0, 0), 8, 4), Explicit(Decimal(30, 0, 0), 8, 10)]);
    assert Value(Decimal(20, 0, 0)) == 20.0;
    assert Value(Decimal(30, 0, 0)) == 30.0;
    assert c[0] == Pair(8, 20.0);
    assert c[1] == Pair(8, 30.0);
  }

  lemma KeepOfTwoSets()
    ensures Keep([Pair(8, 20.0), Pair(8, 30.0)]) == [Pair(8, 20.0), Pair(8, 30.0)]
  {
    var c := [Pair(8, 20.0), Pair(8, 30.0)];
    assert c[..1] == [Pair(8, 20.0)];
    assert Keep(c[..1]) == [Pair(8, 20.0)];
  }

  lemma FirstDigitOfBenchPress()
    ensures FirstDigit("bench press 20x8, 30x8") == Some(12)
  {
    var a := "bench press ";
    var b := "20x8, 30x8";
    assert "bench press 20x8, 30x8" == a + b;
    assert IsDigit(b[0]);
    forall i | 0 <= i < |a| ensures !IsDigit(a[i]) {
      assert a[i] in a;
    }
    FirstDigitAfter(a, b);
  }

  /** The first digit of `a + b` is the head of `b` when `a` has no digit. */
  lemma {:induction false} FirstDigitAfter(a: string, b: string)
    requires forall i :: 0 <= i < |a| ==> !IsDigit(a[i])
    requires b != [] && IsDigit(b[0])
    ensures FirstDigit(a + b) == Some(|a|)
  {
    if a != [] {
      assert (a + b)[1..] == a[1..] + b;
      FirstDigitAfter(a[1..], b);
    }
  }

  lemma SetPairsOfTwoSets()
    ensures SetPairs("20x8, 30x8") == [Pair(8, 20.0), Pair(8, 30.0)]
  {
    MatchesOfTwoSets();
    CandidatesOfTwoSets();
    KeepOfTwoSets();
  }

  /** How `Parse` reads a text that needs no stripping and whose first digit is at `i`. */
  lemma ParseAt(text: string, i: nat)
    requires Strip(text) == text && FirstDigit(text) == Some(i) && Label(text[..i]) != []
    ensures Parse(text) == Parsed(Label(text[..i]), SetPairs(text[i..]))
  {
  }

  lemma StripOfBenchPress()
    ensures Strip("bench press 20x8, 30x8") == "bench press 20x8, 30x8"
  {
    StripFixesTrimmed("bench press 20x8, 30x8");
  }

  lemma PrefixOfBenchPress()
    ensures Label("bench press 20x8, 30x8"[..12]) == "bench press"
  {
    assert "bench press 20x8, 30x8"[..12] == "bench press ";
    LabelOfBenchPress();
  }

  lemma SuffixOfBenchPress()
    ensures SetPairs("bench press 20x8, 30x8"[12..]) == [Pair(8, 20.0), Pair(8, 30.0)]
  {
    assert "bench press 20x8, 30x8"[12..] == "20x8, 30x8";
    SetPairsOfTwoSets();
  }

  /** `bench press 20x8, 30x8` is two sets of 8 at 20 and at 30. */
  lemma ExampleExplicit()
    ensures Parse("bench press 20x8, 30x8") == Parsed("bench press", [Pair(8, 20.0), Pair(8, 30.0)])
  {
    StripOfBenchPress();
    PrefixOfBenchPress();
    SuffixOfBenchPress();
    FirstDigitOfBenchPress();
    ParseAt("bench press 20x8, 30x8", 12);
  }

  lemma LabelOfColonTab()
    ensures Label(":\t") == " "
  {
    var p := ":\t";
    assert LeadCount(p, IsLabelSeparator) == 1 by {
      assert p[1..] == "\t";
      assert LeadCount("\t", IsLabelSeparator) == 0;
    }
    assert TrailCount(p[1..], IsLabelSeparator) == 0;
    assert TrimBy(p, IsLabelSeparator) == "\t";
    assert Lower("\t") == "\t";
    assert LeadCount("\t", IsSpace) == 1;
    assert "\t"[1..] == [];
  }

  lemma MatchOfOneSet()
    ensures MatchExplicitAt("20x8", 0) == Some(Explicit(Decimal(20, 0, 0), 8, 4))
  {
    var s := "20x8";
    assert IsDigit(s[1]) && s[2] == 'x' && s[3] == '8';
    assert DigitRun(s, 1) == 1;
    assert s[0..2] == "20" && DigitsValue("20") == 20;
    assert ScanNumber(s, 0) == Number(Decimal(20, 0, 0), 2, 2);
    assert SkipSpaces(s, 2) == 2 && SkipSpaces(s, 3) == 3;
    assert DigitRun(s, 3) == 1 && s[3..4] == "8" && DigitsValue("8") == 8;
  }

  lemma MatchesOfOneSet()
    ensures ExplicitMatches("20x8") == [Explicit(Decimal(20, 0, 0), 8, 4)]
  {
    MatchOfOneSet();
    assert ExplicitFrom("20x8", 4) == [];
  }

  lemma SetPairsOfOneSet()
    ensures SetPairs("20x8") == [Pair(8, 20.0)]
  {
    MatchesOfOneSet();
    CandidateOfOneSet();
    assert InBounds(Pair(8, 20.0));
    KeepStep([], Pair(8, 20.0));
  }

  lemma CandidateOfOneSet()
    ensures ExplicitCandidates([Explicit(Decimal(20, 0, 0), 8, 4)]) == [Pair(8, 20.0)]
  {
    assert Value(Decimal(20, 0, 0)) == 20.0;
  }

  /** `:\t20x8` passes with the blank label `" "`: the tab survives the trim of
      ` :-,` and collapses to one blank. */
  lemma ExampleBlankLabel()
    ensures Parse(":\t20x8") == Parsed(" ", [Pair(8, 20.0)])
  {
    StripOfBlankLabel();
    FirstDigitOfBlankLabel();
    PartsOfBlankLabel();
    ParseAt(":\t20x8", 2);
  }

  lemma StripOfBlankLabel()
    ensures Strip(":\t20x8") == ":\t20x8"
  {
    StripFixesTrimmed(":\t20x8");
  }

  lemma FirstDigitOfBlankLabel()
    ensures FirstDigit(":\t20x8") == Some(2)
  {
    assert ":\t20x8" == ":\t" + "20x8";
    FirstDigitAfter(":\t", "20x8");
  }

  lemma PartsOfBlankLabel()
    ensures Label(":\t20x8"[..2]) == " " && SetPairs(":\t20x8"[2..]) == [Pair(8, 20.0)]
  {
    assert ":\t20x8"[..2] == ":\t" && ":\t20x8"[2..] == "20x8";
    LabelOfColonTab();
    SetPairsOfOneSet();
  }

  lemma FiveThousand()
    ensures DigitsValue("5000") == 5000
  {
    assert "5000"[..3] == "500" && "500"[..2] == "50" && "50"[..1] == "5";
    assert DigitsValue("5") == 5;
    assert DigitsValue("50") == 50;
    assert DigitsValue("500") == 500;
  }

  lemma HeadOfHeavySet()
    ensures ScanNumber("5000x5, 20 8", 0) == Number(Decimal(5000, 0, 0), 4, 4)
  {
    var s := "5000x5, 20 8";
    assert DigitRun(s, 0) == 4;
    assert s[0..4] == "5000";
    FiveThousand();
  }

  lemma FirstMatchOfHeavySet()
    ensures MatchExplicitAt("5000x5, 20 8", 0) == Some(Explicit(Decimal(5000, 0, 0), 5, 6))
  {
    var s := "5000x5, 20 8";
    HeadOfHeavySet();
    assert WeightAt(s, 0) == Some(Number(Decimal(5000, 0, 0), 4, 4));
    SeparatorOfHeavySet();
    RepsOfHeavySet();
  }

  lemma SeparatorOfHeavySet()
    ensures SeparatorFrom("5000x5, 20 8", 4) == Some(5)
  {
    var s := "5000x5, 20 8";
    assert s[4] == 'x' && s[5] == '5';
    assert SkipSpaces(s, 4) == 4;
    assert SkipSpaces(s, 5) == 5;
  }

  lemma RepsOfHeavySet()
    ensures RepsAt("5000x5, 20 8", 5) == Some((5, 6))
  {
    var s := "5000x5, 20 8";
    assert s[6] == ',';
    assert DigitRun(s, 5) == 1;
    assert s[5..6] == "5" && DigitsValue("5") == 5;
  }

  lemma LaterMatchesOfHeavySet()
    ensures ExplicitFrom("5000x5, 20 8", 6) == []
  {
    var s := "5000x5, 20 8";
    assert !IsDigit(s[6]) && !IsDigit(s[7]);
    assert ExplicitFrom(s, 6) == ExplicitFrom(s, 7);
    assert ExplicitFrom(s, 7) == ExplicitFrom(s, 8);
    LastMatchesOfHeavySet();
  }

  lemma LastMatchesOfHeavySet()
    ensures ExplicitFrom("5000x5, 20 8", 8) == []
  {
    var s := "5000x5, 20 8";
    NoMatchAtTwenty();
    NoMatchAtEight();
    assert MatchExplicitAt(s, 9) == None by {
      assert IsWordChar(s[8]);
    }
    assert MatchExplicitAt(s, 10) == None by {
      assert !IsDigit(s[10]);
    }
    assert ExplicitFrom(s, 12) == [];
  }

  lemma NoMatchAtTwenty()
    ensures MatchExplicitAt("5000x5, 20 8", 8) == None
  {
    var s := "5000x5, 20 8";
    assert s[10] == ' ' && s[11] == '8';
    assert SkipSpaces(s, 10) == 11;
    assert SeparatorFrom(s, 10) == None;
    assert DigitRun(s, 8) == 2;
  }

  lemma NoMatchAtEight()
    ensures MatchExplicitAt("5000x5, 20 8", 11) == None
  {
    var s := "5000x5, 20 8";
    assert s[10] == ' ' && IsDigit(s[11]);
    assert DigitRun(s, 11) == 1;
    assert SeparatorFrom(s, 12) == None;
  }

  lemma MatchesOfHeavySet()
    ensures ExplicitMatches("5000x5, 20 8") == [Explicit(Decimal(5000, 0, 0), 5, 6)]
  {
    FirstMatchOfHeavySet();
    LaterMatchesOfHeavySet();
  }

  lemma NumbersTailOfHeavySet()
    ensures NumbersFrom("5000x5, 20 8", 8) == [Decimal(20, 0, 0), Decimal(8, 0, 0)]
  {
    var s := "5000x5, 20 8";
    TwentyOfHeavySet();
    EightOfHeavySet();
    assert NumbersFrom(s, 12) == [];
    assert NumbersFrom(s, 11) == [Decimal(8, 0, 0)];
  }

  lemma TwentyOfHeavySet()
    ensures ScanNumber("5000x5, 20 8", 8) == Number(Decimal(20, 0, 0), 2, 10)
  {
    var s := "5000x5, 20 8";
    assert s[10] == ' ';
    assert DigitRun(s, 8) == 2;
    assert s[8..10] == "20" && DigitsValue("20") == 20;
  }

  lemma EightOfHeavySet()
    ensures ScanNumber("5000x5, 20 8", 11) == Number(Decimal(8, 0, 0), 1, 12)
  {
    var s := "5000x5, 20 8";
    assert DigitRun(s, 11) == 1;
    assert s[11..12] == "8" && DigitsValue("8") == 8;
  }

  lemma NumbersOfHeavySet()
    ensures NumberTokens("5000x5, 20 8") == [Decimal(5000, 0, 0), Decimal(5, 0, 0), Decimal(20, 0, 0), Decimal(8, 0, 0)]
  {
    HeadOfHeavySet();
    NumbersMiddleOfHeavySet();
  }

  lemma NumbersMiddleOfHeavySet()
    ensures NumbersFrom("5000x5, 20 8", 4) == [Decimal(5, 0, 0), Decimal(20, 0, 0), Decimal(8, 0, 0)]
  {
    var s := "5000x5, 20 8";
    FiveOfHeavySet();
    NumbersTailOfHeavySet();
    assert !IsDigit(s[6]) && !IsDigit(s[7]);
    assert NumbersFrom(s, 6) == NumbersFrom(s, 8);
    assert !IsDigit(s[4]);
  }

  lemma FiveOfHeavySet()
    ensures ScanNumber("5000x5, 20 8", 5) == Number(Decimal(5, 0, 0), 1, 6)
  {
    var s := "5000x5, 20 8";
    assert s[6] == ',';
    assert DigitRun(s, 5) == 1;
    assert s[5..6] == "5" && DigitsValue("5") == 5;
  }

  lemma ValueOfWhole(n: nat)
    ensures Value(Decimal(n, 0, 0)) == n as real
  {
  }

  lemma FallbackOfHeavySet()
    ensures Fallback([Decimal(5000, 0, 0), Decimal(5, 0, 0), Decimal(20, 0, 0), Decimal(8, 0, 0)]) == [Pair(8, 20.0)]
  {
    var nums := [Decimal(5000, 0, 0), Decimal(5, 0, 0), Decimal(20, 0, 0), Decimal(8, 0, 0)];
    var c := PairUp(nums);
    assert Value(Decimal(5000, 0, 0)) == 5000.0 && Value(Decimal(20, 0, 0)) == 20.0;
    assert c[0] == Pair(5, 5000.0) && c[1] == Pair(8, 20.0);
    assert c[..1] == [Pair(5, 5000.0)];
    assert Keep(c[..1]) == [];
  }

  lemma SetPairsOfHeavySet()
    ensures SetPairs("5000x5, 20 8") == []
  {
    MatchesOfHeavySet();
    assert ExplicitCandidates([Explicit(Decimal(5000, 0, 0), 5, 6)]) == [Pair(5, 5000.0)] by {
      ValueOfWhole(5000);
    }
  }

  lemma StripOfHeavySet()
    ensures Strip("bench 5000x5, 20 8") == "bench 5000x5, 20 8"
  {
    StripFixesTrimmed("bench 5000x5, 20 8");
  }

  lemma FirstDigitOfHeavySet()
    ensures FirstDigit("bench 5000x5, 20 8") == Some(6)
  {
    var a := "bench ";
    var b := "5000x5, 20 8";
    assert "bench 5000x5, 20 8" == a + b;
    assert IsDigit(b[0]);
    forall i | 0 <= i < |a| ensures !IsDigit(a[i]) {
      assert a[i] in a;
    }
    FirstDigitAfter(a, b);
  }

  lemma PrefixOfHeavySet()
    ensures Label("bench 5000x5, 20 8"[..6]) == "bench"
  {
    var w := "bench";
    assert "bench 5000x5, 20 8"[..6] == w + " ";
    forall i | 0 <= i < |w| ensures IsLower(w[i]) {
      assert w[i] in w;
    }
    LabelOfTrailingBlank(w);
  }

  lemma SuffixOfHeavySet()
    ensures SetPairs("bench 5000x5, 20 8"[6..]) == []
  {
    assert "bench 5000x5, 20 8"[6..] == "5000x5, 20 8";
    SetPairsOfHeavySet();
  }

  /** An explicit match takes precedence even when its weight is out of bounds:
      `bench 5000x5, 20 8` keeps no set, although the bare numbers alone would
      have given one set of 8 at 20. */
  lemma ExampleExplicitPrecedence()
    ensures Parse("bench 5000x5, 20 8") == Parsed("bench", [])
    ensures Fallback(NumberTokens("5000x5, 20 8")) == [Pair(8, 20.0)]
  {
    StripOfHeavySet();
    FirstDigitOfHeavySet();
    PrefixOfHeavySet();
    SuffixOfHeavySet();
    NumbersOfHeavySet();
    FallbackOfHeavySet();
    ParseAt("bench 5000x5, 20 8", 6);
  }
}
