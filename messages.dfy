// The message builders of gym_supervisor/bot.py that carry logic: the fallback
// quote of the day, the breakdown and body-area formatters, the focus
// suggestion of a weekly nudge and the menu-trigger test.

module Messages {
  import opened Text
  import opened Tally

  // ---- quote of the day -----------------------------------------------------------

  const Quotes: seq<string> := [
    "Small steps, repeated daily, build unstoppable momentum.",
    "Discipline today is strength tomorrow.",
    "Show up for the work, and confidence will follow.",
    "Consistency beats intensity when intensity is inconsistent.",
    "Every set is a vote for the person you are becoming.",
    "Progress is quiet: one rep, one set, one day at a time.",
    "You do not need perfect conditions, only a clear next set."
  ]

  /** `_fallback_quote(today)` for the day of ordinal `ordinal`. */
  function FallbackQuote(ordinal: int): (q: string)
    ensures q in Quotes
    ensures q == Quotes[ordinal % 7]
  {
    Quotes[ordinal % |Quotes|]
  }

  /** The quotes are pairwise different: no two have the same length. */
  lemma QuotesDistinct()
    ensures forall i, j :: 0 <= i < j < |Quotes| ==> Quotes[i] != Quotes[j]
  {
    assert |Quotes[0]| == 56 && |Quotes[1]| == 38 && |Quotes[2]| == 49 && |Quotes[3]| == 59;
    assert |Quotes[4]| == 52 && |Quotes[5]| == 55 && |Quotes[6]| == 58;
  }

  /** The quote repeats every seven days and never on two consecutive days; over
      the seven days from any day on, quote `i` is shown on day `(i - ordinal) % 7`. */
  lemma FallbackQuoteCycle(ordinal: int)
    ensures FallbackQuote(ordinal + 7) == FallbackQuote(ordinal)
    ensures FallbackQuote(ordinal + 1) != FallbackQuote(ordinal)
    ensures forall i :: 0 <= i < 7 ==> FallbackQuote(ordinal + (i - ordinal) % 7) == Quotes[i]
  {
    var r := ordinal % 7;
    assert (ordinal + 7) % 7 == r;
    assert (ordinal + 1) % 7 == (if r == 6 then 0 else r + 1);
    assert Quotes[(ordinal + 1) % 7] != Quotes[r] by {
      QuotesDistinct();
    }
    forall i | 0 <= i < 7 ensures FallbackQuote(ordinal + (i - ordinal) % 7) == Quotes[i] {
      ShiftMod7(ordinal, i);
    }
  }

  lemma ShiftMod7(ordinal: int, i: int)
    requires 0 <= i < 7
    ensures (ordinal + (i - ordinal) % 7) % 7 == i
  {
    var k := (i - ordinal) % 7;
    assert i - ordinal == 7 * ((i - ordinal) / 7) + k;
  }

  // ---- formatters -----------------------------------------------------------------

  /** One `- name: count` line. */
  function BreakdownLine(c: Count): string {
    "- " + c.name + ": " + IntToString(c.count)
  }

  /** `_format_breakdown_lines(title, values)`. */
  function BreakdownLines(title: string, values: Tally): (r: seq<string>)
    ensures |r| >= 2 && r[0] == title
    ensures values == [] ==> r == [title, "- none"]
    ensures values != [] ==> |r| == |values| + 1
    ensures forall i :: 0 <= i < |values| ==> r[i + 1] == BreakdownLine(values[i])
  {
    if values == [] then [title, "- none"]
    else [title] + seq(|values|, i requires 0 <= i < |values| => BreakdownLine(values[i]))
  }

  /** A breakdown line gives back its name and count: the name sits between the
      leading `- ` and the last `: `, and the digits after it read back as the count. */
  lemma BreakdownLineRoundTrip(c: Count)
    requires c.count >= 0
    ensures var line := BreakdownLine(c);
      var n := |NatToString(c.count)|;
      |line| == |c.name| + n + 4
      && line[2..|line| - n - 2] == c.name
      && line[|line| - n - 2..|line| - n] == ": "
      && DigitsValue(line[|line| - n..]) == c.count
  {
    var line := BreakdownLine(c);
    var digits := NatToString(c.count);
    NatToStringRoundTrip(c.count);
    assert line == "- " + c.name + ": " + digits;
    assert line[|line| - |digits|..] == digits;
    assert line[2..|line| - |digits| - 2] == c.name;
  }

  /** One `area count` part of the body-area summary. */
  function AreaPart(c: Count): string {
    c.name + " " + IntToString(c.count)
  }

  function AreaParts(areaSets: Tally): (r: seq<string>)
    ensures |r| == |areaSets|
    ensures forall i :: 0 <= i < |areaSets| ==> r[i] == AreaPart(areaSets[i])
  {
    seq(|areaSets|, i requires 0 <= i < |areaSets| => AreaPart(areaSets[i]))
  }

  const AreaHeader := "Sets by body area: "

  /** `_format_body_area_summary(area_sets)`. */
  function BodyAreaSummary(areaSets: Tally): (r: string)
    ensures areaSets == [] ==> r == "Sets by body area: unmapped 0."
    ensures |r| > |AreaHeader| && r[..|AreaHeader|] == AreaHeader && r[|r| - 1] == '.'
  {
    if areaSets == [] then "Sets by body area: unmapped 0."
    else AreaHeader + Join(AreaParts(areaSets), ", ") + "."
  }

  /** With a single area the summary names that area and its count. */
  lemma BodyAreaSummaryOne(area: string, n: int)
    ensures BodyAreaSummary([Count(area, n)]) == "Sets by body area: " + area + " " + IntToString(n) + "."
  {
    assert AreaParts([Count(area, n)]) == [area + " " + IntToString(n)];
  }

  /** One more area adds `, area count` before the closing full stop. With the
      one-area case this fixes the text for every non-empty summary: the header,
      then each area and its count in the summary's order, joined by `, `. */
  lemma BodyAreaSummaryAppend(areaSets: Tally, c: Count)
    requires areaSets != []
    ensures var before := BodyAreaSummary(areaSets);
      BodyAreaSummary(areaSets + [c]) == before[..|before| - 1] + ", " + AreaPart(c) + "."
  {
    var parts := AreaParts(areaSets + [c]);
    var j := Join(AreaParts(areaSets), ", ");
    assert parts[..|parts| - 1] == AreaParts(areaSets) && parts[|parts| - 1] == AreaPart(c);
    assert Join(parts, ", ") == j + ", " + AreaPart(c);
    var before := BodyAreaSummary(areaSets);
    assert before == AreaHeader + j + ".";
    assert before[..|before| - 1] == AreaHeader + j;
    assert BodyAreaSummary(areaSets + [c]) == AreaHeader + (j + ", " + AreaPart(c)) + ".";
    Regroup(AreaHeader, j, AreaPart(c));
  }

  lemma Regroup(h: string, j: string, p: string)
    ensures h + (j + ", " + p) + "." == (h + j) + ", " + p + "."
  {
  }

  // ---- nudge focus ----------------------------------------------------------------

  /** `NUDGE_PRIORITY`: the order in which untrained areas are suggested. */
  const NudgePriority: seq<string> := ["chest", "back", "shoulders", "legs", "core"]

  /** `TRACKED_BODY_AREAS`. */
  const TrackedAreas: set<string> := {"chest", "shoulders", "back", "legs", "core"}

  /** The area was tracked and trained in the week: it has a positive count. */
  predicate Trained(byArea: Tally, area: string) {
    area in TrackedAreas && exists i :: 0 <= i < |byArea| && byArea[i].name == area && byArea[i].count > 0
  }

  /** The areas of `priority` not trained, in priority order. */
  function Untrained(byArea: Tally, priority: seq<string>): (r: seq<string>)
    ensures |r| <= |priority|
    ensures forall a :: a in r <==> a in priority && !Trained(byArea, a)
  {
    if priority == [] then []
    else
      var init := Untrained(byArea, priority[..|priority| - 1]);
      var a := priority[|priority| - 1];
      assert forall x :: x in priority <==> x in priority[..|priority| - 1] || x == a;
      if Trained(byArea, a) then init else init + [a]
  }

  /** The position of the first `x` in `s`. */
  function IndexOf(s: seq<string>, x: string): (k: nat)
    requires x in s
    ensures k < |s| && s[k] == x && x !in s[..k]
  {
    if s[0] == x then 0 else IndexOf(s[1..], x) + 1
  }

  lemma IndexOfPrefix(s: seq<string>, x: string, n: nat)
    requires n <= |s| && x in s[..n]
    ensures IndexOf(s, x) == IndexOf(s[..n], x)
  {
    var k := IndexOf(s[..n], x);
    assert s[..n][..k] == s[..k];
    assert s[k] == x;
  }

  /** Order is kept: the untrained areas come in the order of the priority list. */
  lemma {:induction false} UntrainedInOrder(byArea: Tally, priority: seq<string>)
    requires forall i, j :: 0 <= i < j < |priority| ==> priority[i] != priority[j]
    ensures forall i, j :: 0 <= i < j < |Untrained(byArea, priority)| ==>
              IndexOf(priority, Untrained(byArea, priority)[i]) < IndexOf(priority, Untrained(byArea, priority)[j])
  {
    if priority != [] {
      var n := |priority| - 1;
      var init := priority[..n];
      UntrainedInOrder(byArea, init);
      var r := Untrained(byArea, priority);
      var u := Untrained(byArea, init);
      var last := priority[n];
      assert r == (if Trained(byArea, last) then u else u + [last]);
      forall i | 0 <= i < |u| ensures IndexOf(priority, u[i]) == IndexOf(init, u[i]) < n {
        assert u[i] in u;
        IndexOfPrefix(priority, u[i], n);
      }
      if !Trained(byArea, last) {
        assert last !in init;
        assert IndexOf(priority, last) == n;
      }
    } else {
      assert Untrained(byArea, priority) == [];
    }
  }

  /** What `_nudge_focus_text` says: every tracked area was trained, one area was
      not, or several were not, in priority order. */
  datatype Focus = AllTrained | FocusOn(area: string) | FocusOrder(areas: seq<string>)

  /** The suggestion for the body-area totals of the past seven days. */
  function FocusOf(byArea: Tally): (f: Focus)
    ensures f.FocusOrder? ==> |f.areas| >= 2
  {
    var missing := Untrained(byArea, NudgePriority);
    if missing == [] then AllTrained
    else if |missing| == 1 then FocusOn(missing[0])
    else FocusOrder(missing)
  }

  /** The sentence for a suggestion. */
  function FocusText(f: Focus): string {
    match f
    case AllTrained => "You've trained chest, back, shoulders, legs, and core in the past 7 days."
    case FocusOn(a) => "Suggested focus: " + a + " (not trained in the past 7 days)."
    case FocusOrder(areas) => "Suggested focus order (not trained in the past 7 days): " + Join(areas, " > ") + "."
  }

  /** `_nudge_focus_text`. */
  function NudgeFocusText(byArea: Tally): string {
    FocusText(FocusOf(byArea))
  }

  /** Every tracked area trained gives the all-trained message, and only then; a
      single untrained area is named alone; several are listed in priority order,
      each once. */
  lemma FocusCases(byArea: Tally)
    ensures FocusOf(byArea) == AllTrained <==> forall a :: a in TrackedAreas ==> Trained(byArea, a)
    ensures forall a :: a in TrackedAreas && !Trained(byArea, a)
              && (forall b :: b in TrackedAreas && b != a ==> Trained(byArea, b))
              ==> FocusOf(byArea) == FocusOn(a)
    ensures FocusOf(byArea).FocusOrder? ==>
              (forall a :: a in FocusOf(byArea).areas <==> a in TrackedAreas && !Trained(byArea, a))
              && (forall i, j :: 0 <= i < j < |FocusOf(byArea).areas| ==> FocusOf(byArea).areas[i] != FocusOf(byArea).areas[j])
  {
    var missing := Untrained(byArea, NudgePriority);
    assert forall a :: a in TrackedAreas <==> a in NudgePriority;
    UntrainedDistinct(byArea, NudgePriority);
    if missing != [] {
      assert missing[0] in missing;
    }
    forall a | a in TrackedAreas && !Trained(byArea, a) && (forall b :: b in TrackedAreas && b != a ==> Trained(byArea, b))
      ensures FocusOf(byArea) == FocusOn(a)
    {
      assert a in missing;
      OnlyElement(missing, a);
    }
  }

  /** A repetition-free sequence holding `a` and nothing else is `[a]`. */
  lemma OnlyElement(s: seq<string>, a: string)
    requires forall i, j :: 0 <= i < j < |s| ==> s[i] != s[j]
    requires a in s && forall x :: x in s ==> x == a
    ensures s == [a]
  {
    if |s| > 1 {
      FirstTwo(s, a);
      assert false;
    }
  }

  lemma FirstTwo(s: seq<string>, a: string)
    requires |s| > 1 && forall x :: x in s ==> x == a
    ensures s[0] == a && s[1] == a
  {
    assert s[0] in s && s[1] in s;
  }

  lemma {:induction false} UntrainedDistinct(byArea: Tally, priority: seq<string>)
    requires forall i, j :: 0 <= i < j < |priority| ==> priority[i] != priority[j]
    ensures forall i, j :: 0 <= i < j < |Untrained(byArea, priority)| ==>
              Untrained(byArea, priority)[i] != Untrained(byArea, priority)[j]
  {
    if priority != [] {
      var init := priority[..|priority| - 1];
      UntrainedDistinct(byArea, init);
      assert priority[|priority| - 1] !in init;
    }
  }

  // ---- menu -----------------------------------------------------------------------

  /** `MENU_TRIGGERS`. */
  const MenuTriggers: set<string> := {"hi", "hello", "hey", "menu", "start"}

  /** `_is_menu_trigger(text)`. */
  predicate IsMenuTrigger(text: string) {
    Lower(Strip(text)) in MenuTriggers
  }

  /** Case and surrounding blanks do not matter: a text and its stripped,
      lower-cased form are triggers together. */
  lemma MenuTriggerNormalized(text: string)
    ensures IsMenuTrigger(text) <==> IsMenuTrigger(Lower(Strip(text)))
  {
    NormalizeTwice(text);
  }

  lemma NormalizeTwice(text: string)
    ensures Lower(Strip(Lower(Strip(text)))) == Lower(Strip(text))
  {
    var t := Strip(text);
    var n := Lower(t);
    LowerKeepsSpaces(t);
    assert Trimmed(n);
    StripFixesTrimmed(n);
    LowerFixesLower(n);
  }
}
