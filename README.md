# gym-buddy: the workout log and nudge logic, in Dafny

This project models the logic of the gym-buddy Telegram bot that can be stated
as contracts. The model has two parts.

The first part is the bot side, from `gym_supervisor/bot.py`:

- the free-text workout-entry parser (`bench press 20x8, 30x8`);
- the multi-message workout draft (append, undo, cancel, finalise, and the
  gating of incoming text);
- the weekly deadline nudges, with their focus-area suggestion;
- the date helpers: Monday week start, previous-month window, summary window;
- the quote-of-the-day fallback and the breakdown formatters.

The second part is the store, from `gym_supervisor/db.py`:

- the move taxonomy: key and label normalisers, the seeded
  `move_body_areas` table, lookups and re-canonicalisation;
- an in-memory `GymDB` that logs workouts, snoozes and nudge markers, and
  answers the windowed counts, group-by summaries and statistics.

Modules, one per file:

| file | module | what it holds |
|---|---|---|
| wrappers.dfy | Wrappers | `Option` and `Result` |
| text.dfy | Text | Python's `strip`, `lower`, `re.sub(r"\s+", " ", …)`, integer printing, code-point string order |
| tally.dfy | Tally | a `dict[str, int]` as an insertion-ordered list; `d[k] = d.get(k, 0) + n`; the sort by `(-count, name)` |
| parser.dfy | WorkoutParser | `_parse_workout_entry`, with both `re.findall` patterns written as left-to-right scanners |
| taxonomy.dfy | Taxonomy | normalisers, `MOVE_BODY_AREA_SEED`, the upsert, `_display_label_for_key`, `_lookup_body_area`, the canonical rewrite of one entry |
| queries.dfy | Queries | table rows, half-open windows, `GROUP BY workout_type`, the per-type and per-area summaries, the normalisation of entries to log |
| store.dfy | Store | the `GymDB` class over five tables, each write specified by a pure transition on a snapshot |
| calendar.dfy | Calendar | timestamps, weekdays, the Gregorian calendar, the month and summary windows |
| messages.dfy | Messages | fallback quote, formatters, nudge focus, menu triggers |
| draft.dfy | Draft | the `WorkoutSession` class: `awaiting` flag plus batches |
| nudges.dfy | Nudges | `WEEKLY_MILESTONES` and `send_weekly_deadline_nudges_now` over a `GymDB` |

Modelling choices:

- **Time.** A timestamp is a whole number of seconds since 0001-01-01 00:00 of
  the proleptic Gregorian calendar. Under this encoding:
  - day `t / 86400` is Python's `toordinal() - 1`;
  - its remainder modulo 7 is `weekday()`.
  
  `now` is always a parameter. ISO-8601 strings written at one precision
  compare in the same order as these integers.
- **Numbers.** A number literal is an exact decimal (whole part, fraction
  digits, scale), read as a `real`. `int(float(x))` on a fallback reps token
  is modelled as the literal's whole part. That skips the rounding `float`
  does first, as the line on `WorkoutParser.TruncIsWholePart` under
  "## Left out" explains.
- **Tables.** Each table is a sequence in insertion order, with a counter for
  its `BIGSERIAL` id. The taxonomy is a map from key to (label, area). The
  nudge markers are a map from `(week_start day, milestone)` to the time sent.
- **Failures.** A call that raises in the source, and so rolls back its
  transaction, returns a `Failure` and changes no state here. This covers an
  empty or key-less `log_workout_with_entries`, an invalid period, and year 0
  in `_previous_month_window`.
- **Dicts.** A Python `dict` is an association list that keeps first-insertion
  order. `d[k] = …` on an existing key keeps its place.

Behaviours of the source that the model keeps, and proves:

- **The `or` fallback at `db.py:378` is dead code.** For an unmapped key,
  `_display_label_for_key` returns the key itself, never an empty string. Every
  seeded label is non-empty too. So the display name stored is the table's
  label or the key (`Queries.DisplayFallbackUnused`).
- **Seed rows with one key: the last one wins.** `push up` and `pushup` share
  the key `pushup`, and the later row's label and area are the ones kept
  (`Taxonomy.UpsertLastWins`, `Taxonomy.LaterSeedWins`).
- **Explicit matches disable the fallback.** If the explicit `weight x reps`
  scan matches anything, the bare-number fallback is never used, even when
  every explicit match fails the bounds filter.
  - `bench 5000x5, 20 8` parses to `("bench", [])`.
  - The fallback alone would have given `[(8, 20.0)]`.
  - See `WorkoutParser.ExampleExplicitPrecedence`.
- **A blank label passes the parser.** The label is trimmed of ` :-,` only, and
  whitespace runs become one blank. So a prefix such as `:\t` gives the label
  `" "`, which is non-empty.
  - `_draft_set_count` counts that batch's pairs.
  - `_finalize_workout_draft` strips the label and skips them.
  - `WorkoutParser.ExampleBlankLabel` proves that `:\t20x8` parses to
    `(" ", [(8, 20.0)])`.
  - `Draft.BlankLabelCountedNotSaved` proves that appending it raises the draft
    count by one while the entries finalising saves stay the same.
  - `Draft.FinalizeSavesDraftCount` therefore holds only when no label is blank.
  - `Draft.CollectMatchesSetCount` states the same condition.

## Model

| member | source | states |
|---|---|---|
| Text.Lower | gym_supervisor/db.py:287-292 | `str.lower` maps exactly the ASCII capitals to their lower-case letters and keeps every other character and the length |
| Text.StripCuts | gym_supervisor/db.py:287-292 | `str.strip` returns a slice `s[a..b]` of the text with only whitespace before `a` and after `b` (and `Text.Strip` leaves no whitespace at either end of it) |
| Text.StripUnique | gym_supervisor/db.py:287-292 | any slice with only whitespace outside it and none at its own ends is the stripped text |
| Text.StripFixesTrimmed | gym_supervisor/db.py:287-292 | stripping a text with no whitespace at its ends leaves it unchanged |
| Text.CollapseIsCollapsed | gym_supervisor/db.py:287-288 | after `re.sub(r"\s+", " ", …)` every whitespace character is a blank and no two whitespace characters are adjacent |
| Text.CollapseIdempotent | gym_supervisor/db.py:287-288 | collapsing whitespace twice gives the same text as once |
| Text.NatToStringRoundTrip | gym_supervisor/bot.py:299-313 | the decimal digits an f-string prints for a count read back as that count, with no leading zero |
| Text.StrLeTotal | gym_supervisor/db.py:477 | Python's code-point string order compares any two names |
| Text.StrLeTransitive | gym_supervisor/db.py:477 | the string order is transitive |
| Text.StrLeAntisymmetric | gym_supervisor/db.py:477 | two names each at most the other are equal |
| Text.StrMax | gym_supervisor/db.py:459 | `MAX(workout_display_name)` is one of the two names and at least both |
| Tally.BumpSum | gym_supervisor/db.py:494-497 | `totals[a] = totals.get(a, 0) + n` raises the sum of the dict by exactly `n` |
| Tally.BumpKeys | gym_supervisor/db.py:494-497 | that update adds exactly the key `a`, keeps keys unique and keeps counts non-negative |
| Tally.PutSum | gym_supervisor/db.py:469-476 | `d[k] = n` changes the sum by `n` minus the old value of `k` |
| Tally.PutKeys | gym_supervisor/db.py:469-476 | `d[k] = n` adds exactly the key `k` and keeps keys unique |
| Tally.PutGet | gym_supervisor/db.py:469-476 | after `d[k] = n`, `d[k]` is `n` and every other key keeps its value |
| Tally.BumpGet | gym_supervisor/db.py:494-497 | after `totals[a] = totals.get(a, 0) + n`, `totals[a]` has grown by `n` and every other key keeps its value |
| Tally.GetOfMember | gym_supervisor/db.py:469-477 | in a dict with unique keys, looking up an item's key gives the item's count |
| Tally.GetAbsent | gym_supervisor/db.py:494-497 | `totals.get(a, 0)` is 0 for a missing key |
| Tally.InsertMultiset | gym_supervisor/db.py:477 | inserting an item into a sorted list adds exactly that item |
| Tally.InsertSorted | gym_supervisor/db.py:477 | inserting keeps the list ordered by descending count, then ascending name |
| Tally.SortFacts | gym_supervisor/db.py:477 | `sorted(items, key=(-count, name))` is a permutation of the items, keeps their sum and is ordered by descending count, then ascending name |
| Tally.SortKeys | gym_supervisor/db.py:477 | sorting keeps the set of names and their uniqueness |
| Tally.SortGet | gym_supervisor/db.py:477 | sorting a dict with unique keys keeps the value of every key |
| Tally.SumMappedBump | gym_supervisor/db.py:494-497 | one accumulation step adds the group's count to the sum for its area and nothing to the others |
| Tally.RollUpGet | gym_supervisor/db.py:494-497 | after the accumulation loop, the total of each area is the sum of the counts of the groups mapped to it |
| Tally.RollUpFacts | gym_supervisor/db.py:494-497 | the loop keeps the overall sum, gives unique non-negative totals, and its keys are exactly the areas of the groups |
| Taxonomy.NormalizeKeyChars | gym_supervisor/db.py:290-292 | `_normalize_workout_type_key` is the lower-cased text with every character but `a`-`z` and `0`-`9` removed; each of those is kept exactly as often as it occurs |
| Taxonomy.KeyCharsInOrder | gym_supervisor/db.py:292 | the removal keeps the order: the key character at position `i` lands at the number of key characters before it, so two of them keep their relative order |
| Taxonomy.KeyCharsAppend | gym_supervisor/db.py:292 | the key characters of a concatenation are those of each part, one after the other |
| Taxonomy.KeyCharsCounts | gym_supervisor/db.py:292 | every `a`-`z` or `0`-`9` character occurs in the result as often as in the input |
| Taxonomy.NormalizeLabelIdempotent | gym_supervisor/db.py:287-288 | `_normalize_workout_label` applied twice equals applied once |
| Taxonomy.NormalizeKeyIdempotent | gym_supervisor/db.py:290-292 | `_normalize_workout_type_key` applied twice equals applied once |
| Taxonomy.KeyOfLabel | gym_supervisor/db.py:287-292 | the key of a normalised label is the key of the raw name |
| Taxonomy.SeedRows | gym_supervisor/db.py:294-312 | the rows written are exactly the seed moves with a non-empty key, each with a non-empty label |
| Taxonomy.UpsertLastWins | gym_supervisor/db.py:303-312 | after `INSERT … ON CONFLICT DO UPDATE` row by row, a key holds the label and area of the last row written for it; a key no row names keeps its old values |
| Taxonomy.LaterSeedWins | gym_supervisor/db.py:22-23 | of two seed moves sharing a key, as `push up` and `pushup` do, the later one's label and area are kept |
| Taxonomy.UpsertIdempotent | gym_supervisor/db.py:294-312 | upserting the same rows twice gives the same table as once |
| Taxonomy.SeedKeysAndLabels | gym_supervisor/db.py:294-312 | seeding adds no empty key, adds every non-empty key of the seed, and stores a non-empty label taken from one of the seed moves |
| Taxonomy.SeedKeepsLabelsNonEmpty | gym_supervisor/db.py:294-312 | seeding keeps every label of the table non-empty |
| Taxonomy.DisplayLabelForKey | gym_supervisor/db.py:314-321 | the stored label for a known key, and the key itself for an unknown one |
| Taxonomy.LookupBodyArea | gym_supervisor/db.py:349-361 | the stored area of the normalised key, and `"unmapped"` for an empty or unknown key |
| Taxonomy.LookupByKey | gym_supervisor/db.py:349-361 | two names with the same key map to the same body area |
| Taxonomy.CanonicalUpdate | gym_supervisor/db.py:323-339 | an entry is rewritten only when its canonical key is non-empty and type or label differ; the rewrite is to the key and the key's display label |
| Taxonomy.CanonicalUpdateStable | gym_supervisor/db.py:323-339 | a rewritten entry needs no further rewrite |
| Calendar.Weekday | gym_supervisor/bot.py:96-101 | `weekday()` lies in 0 to 6 |
| Calendar.WeekStartBounds | gym_supervisor/bot.py:96-101 | `_week_start(now)` is a Monday midnight no later than `now` and less than a week before it, and its date is `_week_start_date(now)` |
| Calendar.SameWeek | gym_supervisor/bot.py:96-101 | every instant of that week has the same week start and week-start date |
| Calendar.DaysInMonth | gym_supervisor/bot.py:375-384 | a Gregorian month has 28 to 31 days |
| Calendar.YearLength | gym_supervisor/bot.py:375-384 | the day count before January 1 grows by the length of the year, leap years included |
| Calendar.PreviousMonthWindow | gym_supervisor/bot.py:375-384 | the window starts on the first of the previous month (December of the year before for January) and fails only for January of year 1 |
| Calendar.PreviousMonthLength | gym_supervisor/bot.py:375-384 | the window runs from midnight of that first to midnight of the first of the current month, exactly that month's days long |
| Calendar.SummaryWindow | gym_supervisor/bot.py:316-325 | a valid period gives a window that ends at `now` and starts before it |
| Calendar.SummaryWindowCases | gym_supervisor/bot.py:316-325 | exactly `week`, `month` and `quarter` (after strip and lower) are accepted, with windows of 7, 30 and 90 days |
| Messages.FallbackQuote | gym_supervisor/bot.py:145-155 | the quote is one of the seven, chosen by the date's ordinal modulo 7 |
| Messages.QuotesDistinct | gym_supervisor/bot.py:146-154 | the seven quotes are pairwise different |
| Messages.FallbackQuoteCycle | gym_supervisor/bot.py:145-155 | the quote repeats every seven days, changes from one day to the next, and every quote is reached |
| Messages.BreakdownLines | gym_supervisor/bot.py:306-313 | the title, then `- none` for an empty dict or one line per item in dict order |
| Messages.BreakdownLineRoundTrip | gym_supervisor/bot.py:312 | the line `- name: count` gives back the name and the count |
| Messages.BodyAreaSummary | gym_supervisor/bot.py:299-303 | an empty dict prints `unmapped 0`; any other text starts with the header `Sets by body area: ` and ends with a full stop |
| Messages.BodyAreaSummaryOne | gym_supervisor/bot.py:299-303 | a single area prints as `Sets by body area: <area> <count>.` |
| Messages.BodyAreaSummaryAppend | gym_supervisor/bot.py:302-303 | one more area adds `, <area> <count>` before the full stop; with the one-area case this fixes the text of every summary, area by area in dict order |
| Messages.Untrained | gym_supervisor/bot.py:358-363 | the missing areas are exactly the priority areas without a positive count |
| Messages.UntrainedInOrder | gym_supervisor/bot.py:363 | the missing areas keep the priority order |
| Messages.UntrainedDistinct | gym_supervisor/bot.py:363 | each missing area is listed once |
| Messages.FocusOf | gym_supervisor/bot.py:364-372 | a focus order names at least two areas |
| Messages.FocusCases | gym_supervisor/bot.py:355-372 | all-trained exactly when every tracked area is trained; a single untrained area is named alone; otherwise every untrained area is listed once |
| Messages.MenuTriggerNormalized | gym_supervisor/bot.py:232-234 | a text is a menu trigger exactly when its stripped, lower-cased form is |
| WorkoutParser.TruncIsWholePart | gym_supervisor/bot.py:281 | `int(number)` is the whole part of the literal read: at most its value and more than its value minus one (the float rounding before it is left out) |
| WorkoutParser.ScanNumber | gym_supervisor/bot.py:272 | a `\d+(?:\.\d+)?` token takes the whole digit run at its position as the whole part, with that run's decimal value; a fraction is present exactly when a dot and a digit follow, and then spans the whole next digit run with its decimal value; the token is never followed by a digit |
| WorkoutParser.MatchExplicitAt | gym_supervisor/bot.py:258-262 | a match of the explicit pattern has a weight below 10000 and reps below 1000 and ends after its start |
| WorkoutParser.FirstDigit | gym_supervisor/bot.py:242 | `re.search(r"\d", …)` finds the first digit, or reports that there is none |
| WorkoutParser.KeepDropsNeverClamps | gym_supervisor/bot.py:264-268 | the bounds filter returns an order-preserving subsequence of the candidates, exactly the ones with 1 ≤ reps ≤ 100 and 0 < weight ≤ 2000, unchanged |
| WorkoutParser.PairUp | gym_supervisor/bot.py:279-283 | pairing the numbers gives half as many pairs as numbers |
| WorkoutParser.FilterExplicit | gym_supervisor/bot.py:263-269 | the explicit branch's loop keeps the in-bounds matches as (reps, weight), in order |
| WorkoutParser.PairNumbers | gym_supervisor/bot.py:279-283 | the fallback loop pairs numbers as weight then reps and keeps the in-bounds pairs, in order |
| WorkoutParser.ParseSets | gym_supervisor/bot.py:254-285 | the pairs come from the explicit matches when there are any, else from the bare numbers |
| WorkoutParser.ParseWorkoutEntry | gym_supervisor/bot.py:237-285 | the method computes the parse the specification function describes |
| WorkoutParser.ParseWithoutDigit | gym_supervisor/bot.py:238-244 | a text without a digit parses to `("", [])` |
| WorkoutParser.LabelShape | gym_supervisor/bot.py:246-250 | the label holds no digit and no capital, and its whitespace is collapsed |
| WorkoutParser.ParsedTypeShape | gym_supervisor/bot.py:237-252 | the parsed workout type holds no digit and no capital, and its whitespace is collapsed |
| WorkoutParser.FallbackIsPairUp | gym_supervisor/bot.py:273-283 | with an odd count the trailing number is dropped; the fallback is the kept pairs of the numbers in order |
| WorkoutParser.ParsePairsAreKeptCandidates | gym_supervisor/bot.py:251-285 | an empty label gives no pairs; otherwise the pairs are the kept candidates |
| WorkoutParser.ParseDropsNeverClamps | gym_supervisor/bot.py:264-283 | every returned pair is in bounds and is a candidate, in order; no in-bounds candidate is lost |
| WorkoutParser.ExampleExplicit | gym_supervisor/bot.py:257-269 | `bench press 20x8, 30x8` parses to `("bench press", [(8, 20.0), (8, 30.0)])` |
| WorkoutParser.ExampleBlankLabel | gym_supervisor/bot.py:238-252 | `:\t20x8` parses to `(" ", [(8, 20.0)])`: the tab survives the trim of ` :-,` and collapses to a blank label |
| WorkoutParser.ExampleExplicitPrecedence | gym_supervisor/bot.py:258-269 | `bench 5000x5, 20 8` parses to `("bench", [])`, although the fallback would have found `(8, 20.0)` |
| Queries.CountIn | gym_supervisor/db.py:435-448 | the count of workouts in a window is at most the number of workouts |
| Queries.CountInSplit | gym_supervisor/db.py:441 | adjacent half-open windows split the count |
| Queries.CountInEmpty | gym_supervisor/db.py:441 | an empty window counts nothing |
| Queries.CountInMonotone | gym_supervisor/db.py:441 | a later end never lowers the count |
| Queries.CountInAppend | gym_supervisor/db.py:441 | a new workout adds one to the count exactly when `start <= logged_at < end` |
| Queries.InWindow | gym_supervisor/db.py:459-462 | the selected entries are exactly those with `start <= logged_at < end` |
| Queries.OfWorkout | gym_supervisor/db.py:562-566 | the selected entries are exactly those of the workout |
| Queries.GroupCountsFacts | gym_supervisor/db.py:459-462 | `GROUP BY workout_type` with `COUNT(*)` has one group per type present, each counting that type's entries, summing to the number of entries |
| Queries.MaxDisplay | gym_supervisor/db.py:459 | `MAX(workout_display_name)` of a group is one of its names and at least all of them |
| Queries.NamedCountsFacts | gym_supervisor/db.py:469-476 | the comprehension keeps names unique and counts non-negative, and counts no more sets than the groups |
| Queries.NamedCountsGet | gym_supervisor/db.py:469-476 | a key holds the count of the last non-blank group whose label it is (the last write wins), and is absent when no such group exists |
| Queries.TypeSummaryItem | gym_supervisor/db.py:453-477 | every item of the per-type summary is the label and the entry count of some non-blank type present |
| Queries.TypeSummaryOfType | gym_supervisor/db.py:453-477 | every non-blank type present has its label in the summary, with its entry count when no other type shares that label |
| Queries.TypeSummaryValues | gym_supervisor/db.py:453-477 | the two facts above for all items and all entries at once |
| Queries.TypeSummaryFacts | gym_supervisor/db.py:453-477 | the per-type summary is sorted by (-count, name), has unique names and counts no more sets than entries |
| Queries.TotalsByArea | gym_supervisor/db.py:494-497 | the accumulation loop computes the per-area totals |
| Queries.AreaTotalsGet | gym_supervisor/db.py:494-497 | the total of an area is the sum of the counts of the groups whose type maps to it |
| Queries.AreaTotalsFacts | gym_supervisor/db.py:494-497 | the area totals sum to the group counts, have unique names, and name only `unmapped` or an area in the table |
| Queries.AreaSummaryFacts | gym_supervisor/db.py:479-498 | the body-area summary counts every selected entry exactly once and is sorted by (-count, name) |
| Queries.GroupsInCounts | gym_supervisor/db.py:484-497 | summing the `GROUP BY` counts of the types that map to an area gives the number of entries whose type maps to it |
| Queries.AreaSummaryCounts | gym_supervisor/db.py:479-498 | each area's value is the number of selected entries whose type maps to it, and an area is present exactly when that number is positive |
| Queries.NormalizeInput | gym_supervisor/db.py:371-379 | an entry is skipped exactly when its key is empty |
| Queries.NormalizedInputs | gym_supervisor/db.py:370-379 | no normalised entry has an empty key |
| Queries.NormalizedInputsEmpty | gym_supervisor/db.py:370-384 | nothing remains exactly when every input has an empty key |
| Queries.NormalizeEntryInputs | gym_supervisor/db.py:370-379 | the normalisation loop computes the normalised entries |
| Queries.NormalizedInputsKeys | gym_supervisor/db.py:370-379 | the kept entries are the keyed inputs, in order, each with its key, reps and weight |
| Queries.DisplayFallbackUnused | gym_supervisor/db.py:378-380 | with non-empty labels every stored display name is `_display_label_for_key` of the key, so the `or` fallback never applies |
| Queries.EntryRows | gym_supervisor/db.py:392-411 | one row per normalised entry, with consecutive ids, the new workout id, `now` and the stripped note |
| Queries.CanonicalEntries | gym_supervisor/db.py:323-347 | every entry is replaced by its canonical form, in place |
| Queries.CanonicalEntryFacts | gym_supervisor/db.py:341-347 | the update touches only type and label, and leaves an entry that needs no further update |
| Queries.CanonicalPassStable | gym_supervisor/db.py:323-347 | a second canonicalisation pass updates nothing and changes nothing |
| Store.SerialAppend | gym_supervisor/db.py:386-390 | ids handed out in turn keep a `BIGSERIAL` column increasing, and the new id is fresh |
| Store.Average | gym_supervisor/db.py:547-548 | the average is 0 without workouts and otherwise times the count gives the total |
| Store.OpenTablesStable | gym_supervisor/db.py:283-284 | seeding twice equals seeding once; canonicalising an opened database changes nothing |
| Store.SeedWithIdempotent | gym_supervisor/db.py:294-312 | seeding the same moves twice gives the same table as once |
| Store.CanonicalizeKeepsRows | gym_supervisor/db.py:323-347 | canonicalisation keeps the row count and every field but type and label, and the tables stay consistent |
| Store.LogWorkoutFailures | gym_supervisor/db.py:367-385 | an empty list fails with `EmptyEntries`, a list without a valid key with `NoValidType`, and a failure writes nothing |
| Store.LogWorkoutSuccess | gym_supervisor/db.py:386-412 | a success adds one workout with a fresh id and `sets` equal to the kept count, and that many entries with the new id at `now`; the other tables are untouched |
| Store.LogWorkoutValid | gym_supervisor/db.py:363-412 | logging keeps the ids serial and every entry pointing at a stored workout |
| Store.FreshWorkoutId | gym_supervisor/db.py:386-390 | the next workout id is not among the stored ones |
| Store.AppendKeepsValid | gym_supervisor/db.py:386-411 | appending a workout and its entries with the next ids keeps the tables consistent |
| Store.LogWorkoutCounts | gym_supervisor/db.py:386-390 | a logged workout adds one to the count of exactly the windows holding `now` |
| Store.LogSnoozeFacts | gym_supervisor/db.py:414-419 | a snooze adds one row with the stripped reason and a fresh id, adds one to the snooze count and keeps the workout count |
| Store.MarkNudgeFacts | gym_supervisor/db.py:510-536 | after marking, the marker is present; marking again is a no-op; other markers are unchanged |
| Store.StatsFacts | gym_supervisor/db.py:538-556 | the counts are the table sizes; without workouts the averages and the set total are 0; otherwise each average times the count gives its total |
| Store.LogWorkoutTotalSets | gym_supervisor/db.py:386-390 | a logged workout raises `total_sets` by the number of kept entries and the workout count by one |
| Store.GymDB.Open | gym_supervisor/db.py:211-213 | opening a database seeds the taxonomy, then canonicalises the entries |
| Store.GymDB.SeedMoveBodyAreas | gym_supervisor/db.py:294-312 | the taxonomy becomes the seeded table, nothing else changes |
| Store.GymDB.SeedMoves | gym_supervisor/db.py:294-312 | the taxonomy becomes the table seeded with the given moves |
| Store.GymDB.UpsertRows | gym_supervisor/db.py:303-312 | the taxonomy becomes the row-by-row upsert of the rows |
| Store.GymDB.CanonicalizeWorkoutEntryTypes | gym_supervisor/db.py:323-347 | the entries become their canonical forms; the number of updates is returned |
| Store.GymDB.LogWorkoutWithEntries | gym_supervisor/db.py:363-412 | the result and the new tables are those of the logging transition, and the tables stay consistent |
| Store.GymDB.LogSnooze | gym_supervisor/db.py:414-419 | the tables become those after the snooze transition |
| Store.GymDB.CountWorkoutsBetween | gym_supervisor/db.py:435-448 | the count is at most the workouts, and 0 for an empty window |
| Store.GymDB.SummarizeSetsByWorkoutTypeBetween | gym_supervisor/db.py:453-477 | the summary is sorted by (-count, name) and has unique names; every item is the label and entry count of a non-blank type in the window, and every such type's label is present |
| Store.GymDB.SummarizeSetsByBodyAreaBetween | gym_supervisor/db.py:479-498 | each area's value is the number of entries in the window whose type maps to it, an area is present exactly when that is positive, and the summary is sorted |
| Store.GymDB.SummarizeSetsByBodyAreaForWorkout | gym_supervisor/db.py:558-575 | each area's value is the number of the workout's entries whose type maps to it, an area is present exactly when that is positive, and the summary is sorted |
| Store.GymDB.PeriodWorkoutSummary | gym_supervisor/db.py:500-508 | the count, the two summaries and `total_sets` as the per-type sum, which never exceeds the entries in the window |
| Store.GymDB.MarkWeeklyNudgeSent | gym_supervisor/db.py:523-536 | the marker transition is applied and the marker is then present |
| Store.GymDB.StatsSummary | gym_supervisor/db.py:538-556 | the counts are the table sizes and both averages are 0 without workouts |
| Store.CanonicalPass | gym_supervisor/db.py:326-339 | the loop over the rows computes the canonical entries and counts the updates |
| Draft.DraftSetCount | gym_supervisor/bot.py:288-296 | the nested loop counts the pairs with positive reps across all batches |
| Draft.SetCountAppend | gym_supervisor/bot.py:288-296 | the set count of two batch lists is the sum of their counts |
| Draft.PositiveRepsOfBounded | gym_supervisor/bot.py:267-268 | every pair the parser keeps has positive reps, so all of them are counted |
| Draft.PairEntries | gym_supervisor/bot.py:509-513 | collected entries have a non-empty type and positive reps and weight |
| Draft.Collect | gym_supervisor/bot.py:506-513 | every collected entry has a non-empty type and positive reps and weight |
| Draft.Texts | gym_supervisor/bot.py:508 | one stripped text per batch |
| Draft.CollectEntries | gym_supervisor/bot.py:502-518 | the loop computes the collected entries and the note |
| Draft.CollectPairs | gym_supervisor/bot.py:509-513 | the inner loop computes one batch's entries |
| Draft.CollectMatchesSetCount | gym_supervisor/bot.py:288-296 | for parsed batches with non-blank labels, finalise collects exactly as many entries as the draft count |
| Draft.ResetIn | gym_supervisor/bot.py:224-226 | reset clears the flag and leaves an empty draft |
| Draft.SetAwaitingIn | gym_supervisor/bot.py:228-230 | set-awaiting leaves an empty draft with the flag set |
| Draft.AppendFacts | gym_supervisor/bot.py:453-478 | a failed parse changes nothing; a success adds exactly one batch at the end and reports the draft count grown by the new pairs |
| Draft.AppendUndoRoundTrip | gym_supervisor/bot.py:453-495 | undo after a successful append restores the session and reports the pairs removed |
| Draft.UndoEmptyFails | gym_supervisor/bot.py:480-487 | undo without a draft or on an empty draft fails and changes nothing |
| Draft.SessionValidKept | gym_supervisor/bot.py:224-230 | reset, set-awaiting, undo and finalise keep the flag only with a draft, and every batch as parsed |
| Draft.AppendKeepsValid | gym_supervisor/bot.py:453-478 | append and message capture keep that invariant |
| Draft.FinalizeFacts | gym_supervisor/bot.py:497-527 | nothing collected fails and changes nothing; a save logs the collected entries once and resets the draft |
| Draft.BlankLabelCountedNotSaved | gym_supervisor/bot.py:288-296 | appending `:\t20x8` raises the draft count by one set while the entries finalising would save stay the same |
| Draft.FinalizeSavesDraftCount | gym_supervisor/bot.py:497-527 | without blank labels the sets saved equal the draft count |
| Draft.WorkoutSession.constructor | gym_supervisor/bot.py:685 | a new chat has no draft and the flag unset |
| Draft.WorkoutSession.Reset | gym_supervisor/bot.py:224-226 | the session becomes the reset session |
| Draft.WorkoutSession.SetAwaiting | gym_supervisor/bot.py:228-230 | the session becomes an empty draft with the flag set |
| Draft.WorkoutSession.AppendEntry | gym_supervisor/bot.py:453-478 | the session and answer are those of the append transition |
| Draft.WorkoutSession.UndoLastEntry | gym_supervisor/bot.py:480-495 | the session and answer are those of the undo transition |
| Draft.WorkoutSession.FinalizeDraft | gym_supervisor/bot.py:497-527 | session, database and answer are those of the finalise transition, and the database stays consistent |
| Draft.WorkoutSession.CaptureSetsMessage | gym_supervisor/bot.py:677-695 | blank text is ignored; outside a draft only a menu trigger is answered; otherwise the stripped text is appended |
| Nudges.MilestoneFacts | gym_supervisor/bot.py:54-58 | the three deadlines lie inside their week, in order, and milestone `i` asks for `i` workouts |
| Nudges.NudgeFor | gym_supervisor/bot.py:740-747 | a nudge carries the milestone it was sent for |
| Nudges.RunOnlyMarks | gym_supervisor/bot.py:726-750 | the nudge run changes nothing but adding markers, and keeps the old ones |
| Nudges.MarkKeepsDue | gym_supervisor/bot.py:727-750 | marking one milestone does not change whether another is due |
| Nudges.RunSendsDue | gym_supervisor/bot.py:726-750 | the milestones nudged are exactly those that are due: unmarked, past the deadline, with too few workouts since Monday |
| Nudges.RunMarksDue | gym_supervisor/bot.py:750 | every due milestone is marked for the week afterwards |
| Nudges.NoneDueNoneSent | gym_supervisor/bot.py:726-738 | when none is due, nothing is sent |
| Nudges.RerunSendsNothing | gym_supervisor/bot.py:726-750 | running again at the same time sends nothing |
| Nudges.OncePerWeek | gym_supervisor/bot.py:723-750 | a later run in the same week never nudges a milestone again |
| Nudges.SendWeeklyDeadlineNudgesNow | gym_supervisor/bot.py:721-750 | the database and the nudges sent are those of the run over `WEEKLY_MILESTONES` |
| Nudges.NudgeMilestones | gym_supervisor/bot.py:726-750 | the loop over the milestones computes the run |
| Nudges.NudgeMilestone | gym_supervisor/bot.py:727-750 | a nudge is sent exactly when the milestone is due, and then the marker is set; otherwise nothing changes (every send is taken to succeed) |
| Nudges.PastWeekSummary | gym_supervisor/bot.py:356-357 | the body-area totals of the seven days before `now` |

## Left out

- Telegram plumbing is not modelled: handlers, keyboards, replies, callback
  answers, job scheduling and authorisation.
  - The answer texts of the draft operations are modelled as outcome values,
    not strings.
  - `capture_sets_message` is modelled as its gating, without the replies.
- The OpenAI quote request is not modelled, because it is a network call.
  Only `_fallback_quote` is modelled.
- psycopg connections, SQL text, DDL and `ALTER` migrations are replaced by
  in-memory tables. A transaction that raises writes nothing.
- The wall clock and time zones are not modelled. `now` is a parameter, and
  daylight-saving time is ignored. Microseconds are dropped, as
  `isoformat(timespec="seconds")` drops them.
- WorkoutParser.TruncIsWholePart: the fallback reps are the literal's whole
  part, but `gym_supervisor/bot.py:272` first rounds every token to a binary
  float, and `gym_supervisor/bot.py:281` then truncates that float. The model
  of `WorkoutParser.PairUp` and `WorkoutParser.PairNumbers` does not capture
  these consequences, because floating point is not modelled:
  - a token just below a whole number can round up to it, so
    `bench 20 0.99999999999999999` keeps `(1, 20.0)` in Python while the model
    reads reps 0 and drops the pair;
  - for the same reason `100.99999999999999999` reads as 101 and is dropped in
    Python, but reads as 100 and is kept here;
  - a reps token above the largest float (about 1.8 × 10^308, so any token of
    310 or more digits) becomes `inf`, and `int(inf)` raises `OverflowError`,
    so the whole handler fails. The model reads a huge whole part and drops
    the pair by the bounds filter;
  - the same rounding applies to weights near the `2000` bound.
- Nudges.NudgeMilestone: every `bot.send_message` is assumed to succeed. In
  the source the marker is written only after the send returns
  (`gym_supervisor/bot.py:740-750`). A send that raises leaves that milestone
  unmarked and ends the run, so later milestones are skipped that time. The
  run repeats every 5 minutes (`gym_supervisor/bot.py:752-758`) and nudges it
  again, so delivery is at least once. The model marks every due milestone in
  the loop and hands the texts back to be sent. `Nudges.RunMarksDue` and
  `Nudges.OncePerWeek` hold only under that assumption, and the retry after a
  failed send is not modelled.
- Floating-point rounding is not modelled: weights, volumes and averages are
  exact reals. The `:.1f` formatting in `status` is also out.
- Characters beyond ASCII are not classified.
  - Digits, letters and case mapping are ASCII only.
  - Whitespace is the full set `str.isspace` accepts.
  - Python's `\d`, `\w` and `str.lower` on other Unicode characters are not
    modelled.
- The row order of `GROUP BY` is not modelled. It is fixed as first occurrence
  in table order.
- `MAX(workout_display_name)` compares by code point, not by the database
  collation.
- `MOVE_BODY_AREA_SEED` is included in full but is not evaluated symbolically.
  - The seeding lemmas hold for any move list.
  - `Taxonomy.LaterSeedWins` states the `push up`/`pushup` overwrite for any
    two moves with one key. It does not compute those two literal keys.
- `recent_workouts` is not modelled, because no core operation uses it.
- `count_workouts_this_week` is not modelled separately, because it only calls
  `count_workouts_between`.
- `weekly_nudge_sent` is `Store.GymDB.WeeklyNudgeSent`, a predicate on the
  marker map.
- The monthly report is not modelled: `_build_monthly_report_text` and
  `_send_monthly_summary_if_due`.
  - They call `count_snoozes_between`, `workouts_between`,
    `monthly_report_sent` and `mark_monthly_report_sent`, which
    `gym_supervisor/db.py` does not define.
  - Only `_previous_month_window` is modelled. Its `%B %Y` label is left out.
- `_build_period_summary_lines` is not modelled. It reads `summary["skips"]`
  and `summary["total_volume"]` (`gym_supervisor/bot.py:335`, `337`), which
  `period_workout_summary` does not return.
- `log_command` and the button handlers are not modelled. They are thin
  wrappers over modelled operations. `log_command` with arguments parses the
  text and calls `log_workout_with_entries` directly
  (`gym_supervisor/bot.py:552-578`), which is `WorkoutParser.Parse` followed by
  `Store.GymDB.LogWorkoutWithEntries`. The snooze button calls
  `log_snooze("button_snooze")` (`gym_supervisor/bot.py:667`), which is
  `Store.GymDB.LogSnooze`. The other buttons call the draft operations.
- `gym_supervisor/visualize.py`, `api/*`, `gym_supervisor/server.py`, `main.py`
  and `gym_supervisor/config.py` are not part of this model.
- WorkoutParser.MatchExplicitAt: the contract covers one match. It states no
  lemma over the whole list of explicit matches.
- Store.GymDB.CountWorkoutsBetween: the contract states the bounds. The exact
  count is the function `Queries.CountIn`, whose lemmas state the half-open
  window.
