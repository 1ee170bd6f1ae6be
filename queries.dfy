// The rows of gym_supervisor/db.py's tables and the pure parts of its
// queries: half-open time windows, GROUP BY workout_type, the per-type and
// per-body-area summaries, and the normalisation of entries to be logged.
// Timestamps are whole seconds; ISO-8601 strings of one format compare in
// the same order.

module Queries {
  import opened Text
  import opened Wrappers
  import opened Tally
  import opened Taxonomy

  /** A row of `workouts`. */
  datatype Workout = Workout(id: int, loggedAt: int, sets: int, note: string)

  /** A row of `workout_entries`. */
  datatype Entry = Entry(id: int, workoutId: int, workoutType: string, displayName: string,
                         reps: int, weight: real, loggedAt: int, sourceText: string)

  /** A row of `snoozes`. */
  datatype Snooze = Snooze(id: int, loggedAt: int, reason: string)

  /** One `(workout_type, reps, weight)` handed to `log_workout_with_entries`. */
  datatype EntryInput = EntryInput(workoutType: string, reps: int, weight: real)

  /** An input entry after normalisation: its key and display name. */
  datatype NormalizedEntry = NormalizedEntry(key: string, display: string, reps: int, weight: real)

  // ---- windows ---------------------------------------------------------------

  predicate InRange(t: int, start: int, end: int) { start <= t < end }

  /** `SELECT COUNT(*) FROM workouts WHERE logged_at >= start AND logged_at < end`. */
  function CountIn(ws: seq<Workout>, start: int, end: int): (n: nat)
    ensures n <= |ws|
  {
    if ws == [] then 0
    else CountIn(ws[..|ws| - 1], start, end) + (if InRange(ws[|ws| - 1].loggedAt, start, end) then 1 else 0)
  }

  /** Adjacent half-open windows split a count without overlap or gap. */
  lemma {:induction false} CountInSplit(ws: seq<Workout>, a: int, b: int, c: int)
    requires a <= b <= c
    ensures CountIn(ws, a, c) == CountIn(ws, a, b) + CountIn(ws, b, c)
  {
    if ws != [] {
      CountInSplit(ws[..|ws| - 1], a, b, c);
    }
  }

  /** An empty or reversed window counts nothing. */
  lemma {:induction false} CountInEmpty(ws: seq<Workout>, start: int, end: int)
    requires end <= start
    ensures CountIn(ws, start, end) == 0
  {
    if ws != [] {
      CountInEmpty(ws[..|ws| - 1], start, end);
    }
  }

  /** A wider window counts at least as much. */
  lemma {:induction false} CountInMonotone(ws: seq<Workout>, start: int, end: int, end': int)
    requires end <= end'
    ensures CountIn(ws, start, end) <= CountIn(ws, start, end')
  {
    if ws != [] {
      CountInMonotone(ws[..|ws| - 1], start, end, end');
    }
  }

  /** Appending a workout outside the window leaves its count alone; inside, it adds one. */
  lemma CountInAppend(ws: seq<Workout>, w: Workout, start: int, end: int)
    ensures CountIn(ws + [w], start, end) == CountIn(ws, start, end) + (if InRange(w.loggedAt, start, end) then 1 else 0)
  {
    assert (ws + [w])[..|ws|] == ws;
  }

  /** The entries logged in [start, end), in table order. */
  function InWindow(es: seq<Entry>, start: int, end: int): (r: seq<Entry>)
    ensures |r| <= |es|
    ensures forall e :: e in r <==> e in es && InRange(e.loggedAt, start, end)
  {
    if es == [] then []
    else
      var init := InWindow(es[..|es| - 1], start, end);
      var e := es[|es| - 1];
      assert es == es[..|es| - 1] + [e];
      init + (if InRange(e.loggedAt, start, end) then [e] else [])
  }

  /** The entries of one workout, in table order. */
  function OfWorkout(es: seq<Entry>, workoutId: int): (r: seq<Entry>)
    ensures |r| <= |es|
    ensures forall e :: e in r <==> e in es && e.workoutId == workoutId
  {
    if es == [] then []
    else
      var init := OfWorkout(es[..|es| - 1], workoutId);
      var e := es[|es| - 1];
      assert es == es[..|es| - 1] + [e];
      init + (if e.workoutId == workoutId then [e] else [])
  }

  // ---- GROUP BY workout_type -------------------------------------------------

  /** `SELECT workout_type, COUNT(*) ... GROUP BY workout_type`, groups in order of
      first appearance. */
  function GroupCounts(es: seq<Entry>): Tally {
    if es == [] then []
    else Bump(GroupCounts(es[..|es| - 1]), es[|es| - 1].workoutType, 1)
  }

  /** The number of entries of type `ty`. */
  function CountType(es: seq<Entry>, ty: string): nat {
    if es == [] then 0
    else CountType(es[..|es| - 1], ty) + (if es[|es| - 1].workoutType == ty then 1 else 0)
  }

  /** Each type is one group, its count is the number of its entries, and the
      counts add up to the number of entries. */
  lemma {:induction false} GroupCountsFacts(es: seq<Entry>)
    ensures Sum(GroupCounts(es)) == |es|
    ensures DistinctNames(GroupCounts(es)) && NonNegative(GroupCounts(es))
    ensures Names(GroupCounts(es)) == set e | e in es :: e.workoutType
    ensures forall ty :: Get(GroupCounts(es), ty) == CountType(es, ty)
  {
    if es != [] {
      var init := es[..|es| - 1];
      var e := es[|es| - 1];
      GroupCountsFacts(init);
      var g := GroupCounts(init);
      assert GroupCounts(es) == Bump(g, e.workoutType, 1);
      BumpSum(g, e.workoutType, 1);
      BumpKeys(g, e.workoutType, 1);
      forall ty ensures Get(GroupCounts(es), ty) == CountType(es, ty) {
        BumpGet(g, e.workoutType, 1, ty);
      }
      MembersOfSplit(es);
      assert (set x | x in es :: x.workoutType) == (set x | x in init :: x.workoutType) + {e.workoutType};
    }
  }

  /** `MAX(workout_display_name)` over the entries of type `ty`, in code-point order. */
  function MaxDisplay(es: seq<Entry>, ty: string): (r: string)
    ensures forall e :: e in es && e.workoutType == ty ==> StrLe(e.displayName, r)
    ensures (exists e :: e in es && e.workoutType == ty) ==> exists e :: e in es && e.workoutType == ty && r == e.displayName
  {
    if es == [] then []
    else
      var init := es[..|es| - 1];
      var e := es[|es| - 1];
      var m := MaxDisplay(init, ty);
      assert es == init + [e];
      if e.workoutType != ty then m
      else if !(exists x :: x in init && x.workoutType == ty) then
        StrLeReflexive(e.displayName);
        e.displayName
      else
        var r := StrMax(m, e.displayName);
        forall x | x in init && x.workoutType == ty ensures StrLe(x.displayName, r) {
          StrLeTransitive(x.displayName, m, r);
        }
        r
  }

  /** The key of a per-type summary: the stripped display name, or else the stripped type. */
  function SummaryName(display: string, workoutType: string): string {
    if Strip(display) != [] then Strip(display) else Strip(workoutType)
  }

  /** The dictionary comprehension over the groups: one item per group with a
      non-blank type, a later group with the same name replacing an earlier one. */
  function NamedCounts(es: seq<Entry>, groups: Tally): Tally {
    if groups == [] then []
    else
      var d := NamedCounts(es, groups[..|groups| - 1]);
      var g := groups[|groups| - 1];
      if Strip(g.name) == [] then d
      else Put(d, SummaryName(MaxDisplay(es, g.name), g.name), g.count)
  }

  /** The named counts have unique non-negative entries, and add up to at most the
      group counts (a replaced item loses its count). */
  lemma {:induction false} NamedCountsFacts(es: seq<Entry>, groups: Tally)
    requires NonNegative(groups)
    ensures DistinctNames(NamedCounts(es, groups)) && NonNegative(NamedCounts(es, groups))
    ensures 0 <= Sum(NamedCounts(es, groups)) <= Sum(groups)
  {
    if groups != [] {
      var init := groups[..|groups| - 1];
      var g := groups[|groups| - 1];
      assert NonNegative(init) && g.count >= 0;
      NamedCountsFacts(es, init);
      var d := NamedCounts(es, init);
      SumInit(groups);
      if Strip(g.name) != [] {
        var name := SummaryName(MaxDisplay(es, g.name), g.name);
        assert NamedCounts(es, groups) == Put(d, name, g.count);
        PutStep(d, name, g.count);
      } else {
        assert NamedCounts(es, groups) == d;
      }
    }
  }

  lemma PutStep(d: Tally, name: string, n: int)
    requires DistinctNames(d) && NonNegative(d) && 0 <= Sum(d) && n >= 0
    ensures DistinctNames(Put(d, name, n)) && NonNegative(Put(d, name, n))
    ensures 0 <= Sum(Put(d, name, n)) <= Sum(d) + n
  {
    PutSum(d, name, n);
    PutKeys(d, name, n);
    GetNonNegative(d, name);
    SumNonNegative(Put(d, name, n));
  }

  /** The summary key of workout type `ty`: its stripped `MAX` display name, or else the stripped type. */
  function Label(es: seq<Entry>, ty: string): string {
    SummaryName(MaxDisplay(es, ty), ty)
  }

  /** Group `g` is written to key `k` by the comprehension. */
  predicate WritesTo(es: seq<Entry>, g: Count, k: string) {
    Strip(g.name) != [] && Label(es, g.name) == k
  }

  /** The position of the last group written to key `k`, or -1 when none is. */
  function LastWriter(es: seq<Entry>, groups: Tally, k: string): int {
    LastWhere(g => WritesTo(es, g, k), groups)
  }

  /** A later group with the same key overwrites an earlier one: each key holds the
      count of the last group written to it, and a key no group is written to is absent. */
  lemma {:induction false} NamedCountsGet(es: seq<Entry>, groups: Tally, k: string)
    ensures LastWriter(es, groups, k) >= 0 ==>
              k in Names(NamedCounts(es, groups))
              && Get(NamedCounts(es, groups), k) == groups[LastWriter(es, groups, k)].count
    ensures LastWriter(es, groups, k) < 0 ==> k !in Names(NamedCounts(es, groups))
  {
    if groups != [] {
      var init := groups[..|groups| - 1];
      var g := groups[|groups| - 1];
      var d := NamedCounts(es, init);
      NamedCountsGet(es, init, k);
      if Strip(g.name) != [] {
        assert NamedCounts(es, groups) == Put(d, Label(es, g.name), g.count);
        PutGet(d, Label(es, g.name), g.count, k);
        PutNames(d, Label(es, g.name), g.count);
      } else {
        assert NamedCounts(es, groups) == d;
      }
      if !WritesTo(es, g, k) {
        assert LastWriter(es, groups, k) == LastWriter(es, init, k);
      }
    }
  }

  /** `summarize_sets_by_workout_type_between` on the entries of its window. */
  function TypeSummary(es: seq<Entry>): Tally {
    SortByCount(NamedCounts(es, GroupCounts(es)))
  }

  /** The per-type summary is sorted by (-count, name), has unique names, and
      counts no more sets than there are entries. */
  lemma TypeSummaryFacts(es: seq<Entry>)
    ensures SortedByCount(TypeSummary(es)) && DistinctNames(TypeSummary(es))
    ensures 0 <= Sum(TypeSummary(es)) <= |es|
    ensures forall c :: c in TypeSummary(es) ==> c.count >= 0
  {
    GroupCountsFacts(es);
    var d := NamedCounts(es, GroupCounts(es));
    NamedCountsFacts(es, GroupCounts(es));
    SortFacts(d);
    SortKeys(d);
    assert forall c :: c in TypeSummary(es) ==> c in multiset(d);
  }

  /** No other non-blank type present gets the same summary key as `ty`. */
  predicate UniqueLabel(es: seq<Entry>, ty: string) {
    forall x :: x in es && Strip(x.workoutType) != [] && Label(es, x.workoutType) == Label(es, ty) ==> x.workoutType == ty
  }

  /** Every item of the per-type summary is the key and the entry count of a
      non-blank workout type present in the entries. */
  lemma TypeSummaryItem(es: seq<Entry>, c: Count)
    requires c in TypeSummary(es)
    ensures exists e :: e in es && Strip(e.workoutType) != [] && c.name == Label(es, e.workoutType)
                        && c.count == CountType(es, e.workoutType)
  {
    var groups := GroupCounts(es);
    var d := NamedCounts(es, groups);
    GroupCountsFacts(es);
    NamedCountsFacts(es, groups);
    SortFacts(d);
    assert c in multiset(d);
    GetOfMember(d, c);
    var n :| 0 <= n < |d| && d[n] == c;
    assert c.name in Names(d);
    NamedCountsGet(es, groups, c.name);
    var i := LastWriter(es, groups, c.name);
    var g := groups[i];
    assert WritesTo(es, g, c.name);
    GetOfMember(groups, g);
    assert g.name in Names(groups);
    var e :| e in es && e.workoutType == g.name;
  }

  /** Every non-blank workout type present gets its key in the per-type summary, and
      when no other type shares that key, the key carries the type's entry count. */
  lemma TypeSummaryOfType(es: seq<Entry>, e: Entry)
    requires e in es && Strip(e.workoutType) != []
    ensures Label(es, e.workoutType) in Names(TypeSummary(es))
    ensures UniqueLabel(es, e.workoutType) ==> Get(TypeSummary(es), Label(es, e.workoutType)) == CountType(es, e.workoutType)
  {
    var groups := GroupCounts(es);
    var d := NamedCounts(es, groups);
    var k := Label(es, e.workoutType);
    GroupCountsFacts(es);
    NamedCountsFacts(es, groups);
    SortKeys(d);
    SortGet(d, k);
    assert e.workoutType in Names(groups);
    var j :| 0 <= j < |groups| && groups[j].name == e.workoutType;
    assert WritesTo(es, groups[j], k);
    NamedCountsGet(es, groups, k);
    var i := LastWriter(es, groups, k);
    if UniqueLabel(es, e.workoutType) {
      var g := groups[i];
      assert WritesTo(es, g, k);
      assert g.name in Names(groups);
      var x :| x in es && x.workoutType == g.name;
      GetOfMember(groups, g);
    }
  }

  /** `summarize_sets_by_workout_type_between` keys each non-blank type present by
      its display name and counts its entries; every item is such a key and count. */
  lemma TypeSummaryValues(es: seq<Entry>)
    ensures forall c :: c in TypeSummary(es) ==>
              exists e :: e in es && Strip(e.workoutType) != [] && c.name == Label(es, e.workoutType)
                          && c.count == CountType(es, e.workoutType)
    ensures forall e :: e in es && Strip(e.workoutType) != [] ==> Label(es, e.workoutType) in Names(TypeSummary(es))
    ensures forall e :: e in es && Strip(e.workoutType) != [] && UniqueLabel(es, e.workoutType) ==>
              Get(TypeSummary(es), Label(es, e.workoutType)) == CountType(es, e.workoutType)
  {
    forall c | c in TypeSummary(es)
      ensures exists e :: e in es && Strip(e.workoutType) != [] && c.name == Label(es, e.workoutType)
                          && c.count == CountType(es, e.workoutType)
    {
      TypeSummaryItem(es, c);
    }
    forall e | e in es && Strip(e.workoutType) != []
      ensures Label(es, e.workoutType) in Names(TypeSummary(es))
      ensures UniqueLabel(es, e.workoutType) ==> Get(TypeSummary(es), Label(es, e.workoutType)) == CountType(es, e.workoutType)
    {
      TypeSummaryOfType(es, e);
    }
  }

  // ---- body-area totals ------------------------------------------------------

  /** The body area of each workout type, as `_lookup_body_area` gives it. */
  function AreaOf(table: MoveTable): string -> string {
    name => LookupBodyArea(table, name)
  }

  /** The `totals[body_area] = totals.get(body_area, 0) + set_count` loop over the groups. */
  function AreaTotals(table: MoveTable, groups: Tally): Tally {
    RollUp(AreaOf(table), groups)
  }

  /** The loop that accumulates the totals. */
  method TotalsByArea(table: MoveTable, groups: Tally) returns (totals: Tally)
    ensures totals == AreaTotals(table, groups)
  {
    totals := [];
    var i := 0;
    while i < |groups|
      invariant 0 <= i <= |groups|
      invariant totals == AreaTotals(table, groups[..i])
    {
      var area := LookupBodyArea(table, groups[i].name);
      AreaTotalsStep(table, groups, i);
      totals := Bump(totals, area, groups[i].count);
      i := i + 1;
    }
    assert groups[..i] == groups;
  }

  lemma AreaTotalsStep(table: MoveTable, groups: Tally, i: nat)
    requires i < |groups|
    ensures AreaTotals(table, groups[..i + 1])
         == Bump(AreaTotals(table, groups[..i]), LookupBodyArea(table, groups[i].name), groups[i].count)
  {
    assert groups[..i + 1][..i] == groups[..i];
  }

  /** The total of an area is the sum of the counts of the groups whose type maps to it. */
  lemma AreaTotalsGet(table: MoveTable, groups: Tally, a: string)
    ensures Get(AreaTotals(table, groups), a) == SumMapped(AreaOf(table), groups, a)
  {
    RollUpGet(AreaOf(table), groups, a);
  }

  /** Moving the groups' counts to their areas keeps the total, gives each area one
      item, and names only areas the table maps to (or "unmapped"). */
  lemma AreaTotalsFacts(table: MoveTable, groups: Tally)
    requires NonNegative(groups)
    ensures Sum(AreaTotals(table, groups)) == Sum(groups)
    ensures DistinctNames(AreaTotals(table, groups)) && NonNegative(AreaTotals(table, groups))
    ensures forall a :: a in Names(AreaTotals(table, groups)) ==>
              a == Unmapped || exists k :: k in table && table[k].area == a
  {
    RollUpFacts(AreaOf(table), groups);
    ImagesMembers(AreaOf(table), groups);
    forall a | a in Names(AreaTotals(table, groups))
      ensures a == Unmapped || exists k :: k in table && table[k].area == a
    {
      var i :| 0 <= i < |groups| && AreaOf(table)(groups[i].name) == a;
      var key := NormalizeKey(groups[i].name);
      if key in table && key != [] {
        assert table[key].area == a;
      }
    }
  }

  /** `summarize_sets_by_body_area_between` / `_for_workout` on the selected entries. */
  function AreaSummary(table: MoveTable, es: seq<Entry>): Tally {
    SortByCount(AreaTotals(table, GroupCounts(es)))
  }

  /** The body-area summary counts every selected entry exactly once, has one item
      per area, and is sorted by (-count, name). */
  lemma AreaSummaryFacts(table: MoveTable, es: seq<Entry>)
    ensures Sum(AreaSummary(table, es)) == |es|
    ensures SortedByCount(AreaSummary(table, es)) && DistinctNames(AreaSummary(table, es))
    ensures Names(AreaSummary(table, es)) == Names(AreaTotals(table, GroupCounts(es)))
  {
    GroupCountsFacts(es);
    AreaTotalsFacts(table, GroupCounts(es));
    SortFacts(AreaTotals(table, GroupCounts(es)));
    SortKeys(AreaTotals(table, GroupCounts(es)));
  }

  /** The number of entries whose type maps to area `a`. */
  function CountArea(table: MoveTable, es: seq<Entry>, a: string): nat {
    if es == [] then 0
    else CountArea(table, es[..|es| - 1], a) + (if LookupBodyArea(table, es[|es| - 1].workoutType) == a then 1 else 0)
  }

  /** Rolling the per-type groups up by area counts each entry under its own area. */
  lemma {:induction false} GroupsInCounts(table: MoveTable, es: seq<Entry>, a: string)
    ensures SumMapped(AreaOf(table), GroupCounts(es), a) == CountArea(table, es, a)
  {
    if es != [] {
      var e := es[|es| - 1];
      GroupsInCounts(table, es[..|es| - 1], a);
      SumMappedBump(AreaOf(table), GroupCounts(es[..|es| - 1]), e.workoutType, 1, a);
    }
  }

  /** Every area of the body-area summary carries exactly the number of selected
      entries whose type maps to it, and the areas named are those of the entries. */
  lemma AreaSummaryCounts(table: MoveTable, es: seq<Entry>, a: string)
    ensures Get(AreaSummary(table, es), a) == CountArea(table, es, a)
    ensures a in Names(AreaSummary(table, es)) <==> CountArea(table, es, a) > 0
  {
    var groups := GroupCounts(es);
    GroupCountsFacts(es);
    AreaTotalsFacts(table, groups);
    SortGet(AreaTotals(table, groups), a);
    SortKeys(AreaTotals(table, groups));
    RollUpGet(AreaOf(table), groups, a);
    RollUpFacts(AreaOf(table), groups);
    GroupsInCounts(table, es, a);
    if a in Names(AreaSummary(table, es)) {
      ImagesMembers(AreaOf(table), groups);
      var i :| 0 <= i < |groups| && AreaOf(table)(groups[i].name) == a;
      assert groups[i].name in Names(groups);
      var e :| e in es && e.workoutType == groups[i].name;
      CountAreaPositive(table, es, e);
    } else {
      GetAbsent(AreaSummary(table, es), a);
    }
  }

  lemma {:induction false} CountAreaPositive(table: MoveTable, es: seq<Entry>, e: Entry)
    requires e in es
    ensures CountArea(table, es, LookupBodyArea(table, e.workoutType)) > 0
  {
    if es[|es| - 1] != e {
      MembersOfSplit(es);
      CountAreaPositive(table, es[..|es| - 1], e);
    }
  }

  // ---- entries to be logged --------------------------------------------------

  /** One input entry normalised, or None when its key is empty and it is skipped.
      The display name is the table's label for the key, the key itself when the
      table has no row, and only when that is empty the normalised label. */
  function NormalizeInput(table: MoveTable, x: EntryInput): (r: Option<NormalizedEntry>)
    ensures r.None? <==> NormalizeKey(x.workoutType) == []
  {
    var key := NormalizeKey(x.workoutType);
    if key == [] then None
    else
      var display := DisplayLabelForKey(table, key);
      Some(NormalizedEntry(key, if display != [] then display else NormalizeLabel(x.workoutType), x.reps, x.weight))
  }

  /** The normalised entries, in input order. */
  function NormalizedInputs(table: MoveTable, input: seq<EntryInput>): (r: seq<NormalizedEntry>)
    ensures |r| <= |input|
    ensures forall n :: n in r ==> n.key != []
  {
    if input == [] then []
    else
      var init := NormalizedInputs(table, input[..|input| - 1]);
      match NormalizeInput(table, input[|input| - 1])
      case None => init
      case Some(n) => init + [n]
  }

  lemma MembersOfSplit<T>(s: seq<T>)
    requires s != []
    ensures forall y :: y in s <==> y in s[..|s| - 1] || y == s[|s| - 1]
  {
    assert s == s[..|s| - 1] + [s[|s| - 1]];
  }

  /** Nothing is left exactly when no input has a non-empty key. */
  lemma {:induction false} NormalizedInputsEmpty(table: MoveTable, input: seq<EntryInput>)
    ensures NormalizedInputs(table, input) == [] <==> forall x :: x in input ==> NormalizeKey(x.workoutType) == []
  {
    if input != [] {
      var init := input[..|input| - 1];
      var x := input[|input| - 1];
      MembersOfSplit(input);
      NormalizedInputsEmpty(table, init);
      if NormalizeKey(x.workoutType) == [] {
        assert NormalizedInputs(table, input) == NormalizedInputs(table, init);
      } else {
        assert NormalizedInputs(table, input) != [];
      }
    }
  }

  /** The loop of `log_workout_with_entries` that builds `normalized_entries`. */
  method NormalizeEntryInputs(table: MoveTable, input: seq<EntryInput>) returns (rows: seq<NormalizedEntry>)
    ensures rows == NormalizedInputs(table, input)
  {
    rows := [];
    var i := 0;
    while i < |input|
      invariant 0 <= i <= |input|
      invariant rows == NormalizedInputs(table, input[..i])
    {
      NormalizedStep(table, input, i);
      var key := NormalizeKey(input[i].workoutType);
      if key != [] {
        var display := DisplayLabelForKey(table, key);
        if display == [] {
          display := NormalizeLabel(input[i].workoutType);
        }
        rows := rows + [NormalizedEntry(key, display, input[i].reps, input[i].weight)];
      }
      i := i + 1;
    }
    assert input[..i] == input;
  }

  lemma NormalizedStep(table: MoveTable, input: seq<EntryInput>, i: nat)
    requires i < |input|
    ensures NormalizedInputs(table, input[..i + 1])
         == NormalizedInputs(table, input[..i])
            + (if NormalizeKey(input[i].workoutType) == [] then [] else [NormalizeInput(table, input[i]).value])
  {
    assert input[..i + 1][..i] == input[..i];
  }

  /** With every label of the table non-empty, the `or` fallback is never taken: the
      display name is always the table's label for the key, or the key itself. */
  lemma {:induction false} DisplayFallbackUnused(table: MoveTable, input: seq<EntryInput>)
    requires LabelsNonEmpty(table)
    ensures forall n :: n in NormalizedInputs(table, input) ==> n.display == DisplayLabelForKey(table, n.key)
  {
    if input != [] {
      DisplayFallbackUnused(table, input[..|input| - 1]);
    }
  }

  /** Each input with a non-empty key gives one normalised entry carrying that key,
      its reps and weight. */
  lemma {:induction false} NormalizedInputsKeys(table: MoveTable, input: seq<EntryInput>)
    ensures |NormalizedInputs(table, input)| == |KeyedInputs(input)|
    ensures forall i :: 0 <= i < |KeyedInputs(input)| ==>
              Carries(NormalizedInputs(table, input)[i], KeyedInputs(input)[i])
  {
    if input != [] {
      var init := input[..|input| - 1];
      var x := input[|input| - 1];
      NormalizedInputsKeys(table, init);
      var a := NormalizedInputs(table, init);
      var b := KeyedInputs(init);
      if NormalizeKey(x.workoutType) != [] {
        var n := NormalizeInput(table, x).value;
        assert Carries(n, x);
        KeyedAppend(a, b, n, x);
        assert NormalizedInputs(table, input) == a + [n];
        assert KeyedInputs(input) == b + [x];
      } else {
        assert NormalizedInputs(table, input) == a;
        assert KeyedInputs(input) == b;
      }
    }
  }

  /** A normalised entry carries the key, reps and weight of its input. */
  predicate Carries(n: NormalizedEntry, x: EntryInput) {
    n.key == NormalizeKey(x.workoutType) && n.reps == x.reps && n.weight == x.weight
  }

  lemma KeyedAppend(a: seq<NormalizedEntry>, b: seq<EntryInput>, n: NormalizedEntry, x: EntryInput)
    requires |a| == |b| && forall i :: 0 <= i < |b| ==> Carries(a[i], b[i])
    requires Carries(n, x)
    ensures |a + [n]| == |b + [x]| && forall i :: 0 <= i < |b + [x]| ==> Carries((a + [n])[i], (b + [x])[i])
  {
    forall i | 0 <= i < |b + [x]|
      ensures Carries((a + [n])[i], (b + [x])[i])
    {
      if i < |b| {
        assert (a + [n])[i] == a[i] && (b + [x])[i] == b[i];
      }
    }
  }

  /** The inputs whose key is not empty, in order. */
  function KeyedInputs(input: seq<EntryInput>): seq<EntryInput> {
    if input == [] then []
    else KeyedInputs(input[..|input| - 1])
         + (if NormalizeKey(input[|input| - 1].workoutType) != [] then [input[|input| - 1]] else [])
  }

  /** The `workout_entries` rows written for a new workout. */
  function EntryRows(firstId: int, workoutId: int, rows: seq<NormalizedEntry>, now: int, note: string): (r: seq<Entry>)
    ensures |r| == |rows|
    ensures forall i :: 0 <= i < |r| ==> r[i].id == firstId + i && r[i].workoutId == workoutId
    ensures forall i :: 0 <= i < |r| ==> r[i].workoutType == rows[i].key && r[i].displayName == rows[i].display
    ensures forall i :: 0 <= i < |r| ==> r[i].reps == rows[i].reps && r[i].weight == rows[i].weight
    ensures forall i :: 0 <= i < |r| ==> r[i].loggedAt == now && r[i].sourceText == note
  {
    seq(|rows|, i requires 0 <= i < |rows| =>
      Entry(firstId + i, workoutId, rows[i].key, rows[i].display, rows[i].reps, rows[i].weight, now, note))
  }

  // ---- canonicalisation of stored entries ------------------------------------

  /** An entry after `_canonicalize_workout_entry_types`. */
  function CanonicalEntry(table: MoveTable, e: Entry): Entry {
    match CanonicalUpdate(table, e.workoutType, e.displayName)
    case None => e
    case Some((k, l)) => e.(workoutType := k, displayName := l)
  }

  /** Whether the pass writes an update for the entry. */
  predicate NeedsUpdate(table: MoveTable, e: Entry) {
    CanonicalUpdate(table, e.workoutType, e.displayName).Some?
  }

  /** Every entry after the pass, in table order. */
  function CanonicalEntries(table: MoveTable, es: seq<Entry>): (r: seq<Entry>)
    ensures |r| == |es|
    ensures forall i :: 0 <= i < |es| ==> r[i] == CanonicalEntry(table, es[i])
  {
    seq(|es|, i requires 0 <= i < |es| => CanonicalEntry(table, es[i]))
  }

  /** The number of entries the pass updates. */
  function UpdateCount(table: MoveTable, es: seq<Entry>): (n: nat)
    ensures n <= |es|
  {
    if es == [] then 0
    else UpdateCount(table, es[..|es| - 1]) + (if NeedsUpdate(table, es[|es| - 1]) then 1 else 0)
  }

  /** One more entry extends both the pass and its count by that entry. */
  lemma CanonicalStep(table: MoveTable, es: seq<Entry>, e: Entry)
    ensures CanonicalEntries(table, es + [e]) == CanonicalEntries(table, es) + [CanonicalEntry(table, e)]
    ensures UpdateCount(table, es + [e]) == UpdateCount(table, es) + (if NeedsUpdate(table, e) then 1 else 0)
  {
    assert (es + [e])[..|es|] == es;
  }

  /** The pass touches only the type and display name, and after it no entry needs
      an update. */
  lemma CanonicalEntryFacts(table: MoveTable, e: Entry)
    ensures var c := CanonicalEntry(table, e);
      c.id == e.id && c.workoutId == e.workoutId && c.reps == e.reps && c.weight == e.weight
      && c.loggedAt == e.loggedAt && c.sourceText == e.sourceText
    ensures !NeedsUpdate(table, CanonicalEntry(table, e))
  {
    if NeedsUpdate(table, e) {
      CanonicalUpdateStable(table, e.workoutType, e.displayName);
    }
  }

  /** A second pass over the canonicalised entries updates nothing and changes nothing. */
  lemma {:induction false} CanonicalPassStable(table: MoveTable, es: seq<Entry>)
    ensures UpdateCount(table, CanonicalEntries(table, es)) == 0
    ensures CanonicalEntries(table, CanonicalEntries(table, es)) == CanonicalEntries(table, es)
  {
    if es != [] {
      var init := es[..|es| - 1];
      CanonicalPassStable(table, init);
      var all := CanonicalEntries(table, es);
      assert all[..|all| - 1] == CanonicalEntries(table, init);
      CanonicalEntryFacts(table, es[|es| - 1]);
    }
    forall i | 0 <= i < |es|
      ensures CanonicalEntry(table, CanonicalEntry(table, es[i])) == CanonicalEntry(table, es[i])
    {
      CanonicalEntryFacts(table, es[i]);
    }
  }
}
