// `GymDB` of gym_supervisor/db.py as an in-memory store: its five tables are
// fields, each SQL statement that writes becomes a method, and each write is
// specified by a pure transition on a snapshot of the tables.

module Store {
  import opened Text
  import opened Wrappers
  import opened Tally
  import opened Taxonomy
  import opened Queries

  /** The contents of the database: the five tables and the next value of each
      `BIGSERIAL` id. A weekly-nudge marker maps `(week_start, milestone)` to the
      time it was sent; `week_start` is a day number. */
  datatype Tables = Tables(
    workouts: seq<Workout>,
    entries: seq<Entry>,
    snoozes: seq<Snooze>,
    moves: MoveTable,
    nudges: map<(int, int), int>,
    nextWorkoutId: int,
    nextEntryId: int,
    nextSnoozeId: int)

  /** Why `log_workout_with_entries` raises. */
  datatype LogError = EmptyEntries | NoValidType

  /** The outcome of a logging call and the tables after it. */
  datatype Logged = Logged(result: Result<int, LogError>, after: Tables)

  /** What `stats_summary` reports; volumes and averages are exact. */
  datatype Stats = Stats(workoutCount: nat, snoozeCount: nat, totalSets: int,
                         avgSets: real, totalVolume: real, avgVolume: real)

  /** What `period_workout_summary` reports. */
  datatype PeriodSummary = PeriodSummary(workouts: nat, totalSets: int, byWorkoutType: Tally, byBodyArea: Tally)

  function WorkoutIds(ws: seq<Workout>): set<int> {
    set w | w in ws :: w.id
  }

  /** The `id` column of a table, in table order. */
  function IdColumn<T>(rows: seq<T>, id: T -> int): (r: seq<int>)
    ensures |r| == |rows| && forall i :: 0 <= i < |rows| ==> r[i] == id(rows[i])
  {
    seq(|rows|, i requires 0 <= i < |rows| => id(rows[i]))
  }

  function WorkoutKey(w: Workout): int { w.id }
  function EntryKey(e: Entry): int { e.id }
  function SnoozeKey(s: Snooze): int { s.id }

  /** A `BIGSERIAL` column: the sequence starts at 1, every id handed out is below
      its next value, and ids increase in table order. */
  predicate SerialIds(ids: seq<int>, next: int) {
    && next >= 1
    && (forall i :: 0 <= i < |ids| ==> 1 <= ids[i] < next)
    && (forall i, j :: 0 <= i < j < |ids| ==> ids[i] < ids[j])
  }

  /** What the schema guarantees: the three id columns are serial, and every entry
      references a stored workout. */
  predicate TablesValid(t: Tables) {
    && SerialIds(IdColumn(t.workouts, WorkoutKey), t.nextWorkoutId)
    && SerialIds(IdColumn(t.entries, EntryKey), t.nextEntryId)
    && SerialIds(IdColumn(t.snoozes, SnoozeKey), t.nextSnoozeId)
    && (forall i :: 0 <= i < |t.entries| ==> t.entries[i].workoutId in WorkoutIds(t.workouts))
  }

  /** Handing out the next ids in turn keeps a column serial, and the first new id
      is not among the old ones. */
  lemma SerialAppend(ids: seq<int>, next: int, more: seq<int>)
    requires SerialIds(ids, next)
    requires forall i :: 0 <= i < |more| ==> more[i] == next + i
    ensures SerialIds(ids + more, next + |more|)
    ensures next !in ids
  {
    var all := ids + more;
    forall i, j | 0 <= i < j < |all| ensures all[i] < all[j] {
      if j < |ids| {
        assert all[i] == ids[i] && all[j] == ids[j];
      } else if i < |ids| {
        assert all[i] == ids[i] && all[j] == more[j - |ids|];
      } else {
        assert all[i] == more[i - |ids|] && all[j] == more[j - |ids|];
      }
    }
    forall i | 0 <= i < |all| ensures 1 <= all[i] < next + |more| {
      if i < |ids| {
        assert all[i] == ids[i];
      } else {
        assert all[i] == more[i - |ids|];
      }
    }
  }

  // ---- transitions -----------------------------------------------------------

  /** `_seed_move_body_areas`. */
  function SeedTables(t: Tables): Tables {
    t.(moves := Seed(t.moves))
  }

  /** `_canonicalize_workout_entry_types`. */
  function CanonicalizeTables(t: Tables): Tables {
    t.(entries := CanonicalEntries(t.moves, t.entries))
  }

  /** The table set-up of `GymDB.__init__` on an existing database. */
  function OpenTables(existing: Tables): Tables {
    CanonicalizeTables(SeedTables(existing))
  }

  /** `log_workout_with_entries(entries, note)` at time `now`. */
  function LogWorkout(t: Tables, input: seq<EntryInput>, note: string, now: int): Logged {
    if input == [] then Logged(Failure(EmptyEntries), t)
    else
      var rows := NormalizedInputs(t.moves, input);
      if rows == [] then Logged(Failure(NoValidType), t)
      else
        var id := t.nextWorkoutId;
        Logged(Success(id), t.(
          workouts := t.workouts + [Workout(id, now, |rows|, Strip(note))],
          entries := t.entries + EntryRows(t.nextEntryId, id, rows, now, Strip(note)),
          nextWorkoutId := id + 1,
          nextEntryId := t.nextEntryId + |rows|))
  }

  /** `log_snooze(reason)` at time `now`. */
  function LogSnoozeIn(t: Tables, reason: string, now: int): Tables {
    t.(snoozes := t.snoozes + [Snooze(t.nextSnoozeId, now, Strip(reason))],
       nextSnoozeId := t.nextSnoozeId + 1)
  }

  /** `mark_weekly_nudge_sent(week_start, milestone)` at time `now`: `ON CONFLICT DO NOTHING`. */
  function MarkNudge(t: Tables, weekStart: int, milestone: int, now: int): Tables {
    if (weekStart, milestone) in t.nudges then t
    else t.(nudges := t.nudges[(weekStart, milestone) := now])
  }

  /** `weekly_nudge_sent(week_start, milestone)`. */
  predicate NudgeSent(t: Tables, weekStart: int, milestone: int) {
    (weekStart, milestone) in t.nudges
  }

  /** `COALESCE(SUM(sets), 0)` over `workouts`. */
  function TotalSets(ws: seq<Workout>): int {
    if ws == [] then 0 else TotalSets(ws[..|ws| - 1]) + ws[|ws| - 1].sets
  }

  /** `COALESCE(SUM(reps * weight), 0)` over `workout_entries`. */
  function TotalVolume(es: seq<Entry>): real {
    if es == [] then 0.0 else TotalVolume(es[..|es| - 1]) + es[|es| - 1].reps as real * es[|es| - 1].weight
  }

  /** `total / count if count else 0.0`. */
  function Average(total: real, count: nat): (r: real)
    ensures count == 0 ==> r == 0.0
    ensures count > 0 ==> r * count as real == total
  {
    if count == 0 then 0.0 else total / count as real
  }

  /** `stats_summary`. */
  function StatsOf(t: Tables): Stats {
    var total := TotalSets(t.workouts);
    var volume := TotalVolume(t.entries);
    Stats(|t.workouts|, |t.snoozes|, total,
          Average(total as real, |t.workouts|), volume, Average(volume, |t.workouts|))
  }

  // ---- properties of the transitions ------------------------------------------

  /** Seeding an open database again changes nothing, and so does a second
      canonicalisation pass. */
  lemma OpenTablesStable(existing: Tables)
    ensures SeedTables(SeedTables(existing)) == SeedTables(existing)
    ensures CanonicalizeTables(OpenTables(existing)) == OpenTables(existing)
    ensures UpdateCount(OpenTables(existing).moves, OpenTables(existing).entries) == 0
  {
    SeedWithIdempotent(existing.moves, MoveBodyAreaSeed);
    var seeded := SeedTables(existing);
    CanonicalPassStable(seeded.moves, seeded.entries);
  }

  lemma SeedWithIdempotent(table: MoveTable, seed: seq<Move>)
    ensures SeedWith(SeedWith(table, seed), seed) == SeedWith(table, seed)
  {
    UpsertIdempotent(table, SeedRows(seed));
  }

  /** Canonicalisation keeps the number of entries and every field but the type and
      display name, so the schema's guarantees still hold. */
  lemma CanonicalizeKeepsRows(t: Tables)
    requires TablesValid(t)
    ensures |CanonicalizeTables(t).entries| == |t.entries|
    ensures forall i :: 0 <= i < |t.entries| ==>
              var (a, b) := (CanonicalizeTables(t).entries[i], t.entries[i]);
              a.id == b.id && a.workoutId == b.workoutId && a.reps == b.reps && a.weight == b.weight
              && a.loggedAt == b.loggedAt && a.sourceText == b.sourceText
    ensures TablesValid(CanonicalizeTables(t))
  {
    forall i | 0 <= i < |t.entries| {
      CanonicalEntryFacts(t.moves, t.entries[i]);
    }
  }

  /** The two failures of `log_workout_with_entries` write nothing; an empty list
      fails first, a list without a valid type second. */
  lemma LogWorkoutFailures(t: Tables, input: seq<EntryInput>, note: string, now: int)
    ensures input == [] ==> LogWorkout(t, input, note, now) == Logged(Failure(EmptyEntries), t)
    ensures input != [] && (forall x :: x in input ==> NormalizeKey(x.workoutType) == []) ==>
              LogWorkout(t, input, note, now) == Logged(Failure(NoValidType), t)
    ensures LogWorkout(t, input, note, now).result.Failure? ==> LogWorkout(t, input, note, now).after == t
  {
    NormalizedInputsEmpty(t.moves, input);
  }

  /** A successful log adds one workout, under a fresh id, whose `sets` is the number
      of inputs with a non-empty key, and one entry per such input carrying that
      workout's id; the schema's guarantees still hold. */
  lemma LogWorkoutSuccess(t: Tables, input: seq<EntryInput>, note: string, now: int)
    requires TablesValid(t)
    requires LogWorkout(t, input, note, now).result.Success?
    ensures var l := LogWorkout(t, input, note, now);
      && l.result.value == t.nextWorkoutId
      && l.result.value !in WorkoutIds(t.workouts)
      && l.after.workouts == t.workouts + [Workout(l.result.value, now, |KeyedInputs(input)|, Strip(note))]
      && |l.after.entries| == |t.entries| + |KeyedInputs(input)|
      && l.after.entries[..|t.entries|] == t.entries
      && (forall i :: |t.entries| <= i < |l.after.entries| ==>
            l.after.entries[i].workoutId == l.result.value && l.after.entries[i].loggedAt == now)
      && l.after.snoozes == t.snoozes && l.after.moves == t.moves && l.after.nudges == t.nudges
      && TablesValid(l.after)
  {
    NormalizedInputsKeys(t.moves, input);
    var rows := NormalizedInputs(t.moves, input);
    var w := Workout(t.nextWorkoutId, now, |rows|, Strip(note));
    var added := EntryRows(t.nextEntryId, t.nextWorkoutId, rows, now, Strip(note));
    AppendKeepsValid(t, w, added);
    FreshWorkoutId(t);
  }

  lemma LogWorkoutValid(t: Tables, input: seq<EntryInput>, note: string, now: int)
    requires TablesValid(t)
    ensures TablesValid(LogWorkout(t, input, note, now).after)
  {
    if LogWorkout(t, input, note, now).result.Success? {
      LogWorkoutSuccess(t, input, note, now);
    }
  }

  /** Every stored workout id is below the next one. */
  lemma FreshWorkoutId(t: Tables)
    requires TablesValid(t)
    ensures t.nextWorkoutId !in WorkoutIds(t.workouts)
  {
    SerialAppend(IdColumn(t.workouts, WorkoutKey), t.nextWorkoutId, []);
  }

  /** Appending a workout under the next id, with entries under the next entry ids
      that reference it, keeps the schema's guarantees. */
  lemma AppendKeepsValid(t: Tables, w: Workout, added: seq<Entry>)
    requires TablesValid(t)
    requires w.id == t.nextWorkoutId
    requires forall i :: 0 <= i < |added| ==> added[i].id == t.nextEntryId + i && added[i].workoutId == w.id
    ensures TablesValid(t.(workouts := t.workouts + [w], entries := t.entries + added,
                           nextWorkoutId := w.id + 1, nextEntryId := t.nextEntryId + |added|))
  {
    var ws := t.workouts + [w];
    var es := t.entries + added;
    SerialAppend(IdColumn(t.workouts, WorkoutKey), t.nextWorkoutId, [w.id]);
    assert IdColumn(ws, WorkoutKey) == IdColumn(t.workouts, WorkoutKey) + [w.id];
    SerialAppend(IdColumn(t.entries, EntryKey), t.nextEntryId, IdColumn(added, EntryKey));
    assert IdColumn(es, EntryKey) == IdColumn(t.entries, EntryKey) + IdColumn(added, EntryKey);
    assert WorkoutIds(ws) == WorkoutIds(t.workouts) + {w.id} by {
      assert forall x :: x in ws <==> x in t.workouts || x == w;
    }
    forall i | 0 <= i < |es| ensures es[i].workoutId in WorkoutIds(ws) {
      if i < |t.entries| {
        assert es[i] == t.entries[i];
      } else {
        assert es[i] == added[i - |t.entries|];
      }
    }
  }

  /** A logged workout is counted by exactly the windows that contain `now`. */
  lemma LogWorkoutCounts(t: Tables, input: seq<EntryInput>, note: string, now: int, start: int, end: int)
    requires LogWorkout(t, input, note, now).result.Success?
    ensures CountIn(LogWorkout(t, input, note, now).after.workouts, start, end)
         == CountIn(t.workouts, start, end) + (if InRange(now, start, end) then 1 else 0)
  {
    var rows := NormalizedInputs(t.moves, input);
    CountInAppend(t.workouts, Workout(t.nextWorkoutId, now, |rows|, Strip(note)), start, end);
  }

  /** A snooze is appended under a fresh id; nothing else changes. */
  lemma LogSnoozeFacts(t: Tables, reason: string, now: int)
    requires TablesValid(t)
    ensures TablesValid(LogSnoozeIn(t, reason, now))
    ensures |LogSnoozeIn(t, reason, now).snoozes| == |t.snoozes| + 1
    ensures LogSnoozeIn(t, reason, now).snoozes[|t.snoozes|].reason == Strip(reason)
    ensures forall s :: s in t.snoozes ==> s.id < LogSnoozeIn(t, reason, now).snoozes[|t.snoozes|].id
    ensures StatsOf(LogSnoozeIn(t, reason, now)).snoozeCount == StatsOf(t).snoozeCount + 1
    ensures StatsOf(LogSnoozeIn(t, reason, now)).workoutCount == StatsOf(t).workoutCount
  {
    var ss := LogSnoozeIn(t, reason, now).snoozes;
    var next := t.nextSnoozeId;
    SerialAppend(IdColumn(t.snoozes, SnoozeKey), next, [next]);
    assert IdColumn(ss, SnoozeKey) == IdColumn(t.snoozes, SnoozeKey) + [next];
    forall s | s in t.snoozes ensures s.id < next {
      var i :| 0 <= i < |t.snoozes| && t.snoozes[i] == s;
      assert IdColumn(t.snoozes, SnoozeKey)[i] == s.id;
    }
  }

  /** After marking, the nudge counts as sent; marking again is a no-op, the first
      time stamp is kept, and markers for other pairs are untouched. */
  lemma MarkNudgeFacts(t: Tables, weekStart: int, milestone: int, now: int, now': int)
    ensures NudgeSent(MarkNudge(t, weekStart, milestone, now), weekStart, milestone)
    ensures MarkNudge(MarkNudge(t, weekStart, milestone, now), weekStart, milestone, now')
         == MarkNudge(t, weekStart, milestone, now)
    ensures forall w, m :: (w, m) != (weekStart, milestone) ==>
              (NudgeSent(MarkNudge(t, weekStart, milestone, now), w, m) <==> NudgeSent(t, w, m))
    ensures NudgeSent(t, weekStart, milestone) ==> MarkNudge(t, weekStart, milestone, now) == t
  {
  }

  /** Both averages are 0 without workouts; otherwise they times the number of
      workouts give back the totals. */
  lemma StatsFacts(t: Tables)
    ensures StatsOf(t).workoutCount == |t.workouts| && StatsOf(t).snoozeCount == |t.snoozes|
    ensures |t.workouts| == 0 ==> StatsOf(t).avgSets == 0.0 && StatsOf(t).avgVolume == 0.0 && StatsOf(t).totalSets == 0
    ensures |t.workouts| > 0 ==> StatsOf(t).avgSets * |t.workouts| as real == StatsOf(t).totalSets as real
    ensures |t.workouts| > 0 ==> StatsOf(t).avgVolume * |t.workouts| as real == StatsOf(t).totalVolume
  {
  }

  /** A successful log raises the total sets by the number of kept entries. */
  lemma LogWorkoutTotalSets(t: Tables, input: seq<EntryInput>, note: string, now: int)
    requires LogWorkout(t, input, note, now).result.Success?
    ensures StatsOf(LogWorkout(t, input, note, now).after).totalSets
         == StatsOf(t).totalSets + |NormalizedInputs(t.moves, input)|
    ensures StatsOf(LogWorkout(t, input, note, now).after).workoutCount == StatsOf(t).workoutCount + 1
  {
    var ws := LogWorkout(t, input, note, now).after.workouts;
    assert ws[..|ws| - 1] == t.workouts;
  }

  // ---- the store -------------------------------------------------------------

  class GymDB {
    var workouts: seq<Workout>
    var entries: seq<Entry>
    var snoozes: seq<Snooze>
    var moves: MoveTable
    var nudges: map<(int, int), int>
    var nextWorkoutId: int
    var nextEntryId: int
    var nextSnoozeId: int

    function Snapshot(): Tables
      reads this
    {
      Tables(workouts, entries, snoozes, moves, nudges, nextWorkoutId, nextEntryId, nextSnoozeId)
    }

    ghost predicate Valid()
      reads this
    {
      TablesValid(Snapshot())
    }

    /** `GymDB.__init__`: open an existing database, seed the move table and
        canonicalise the stored entries. */
    constructor Open(existing: Tables)
      requires TablesValid(existing)
      ensures Valid()
      ensures Snapshot() == OpenTables(existing)
    {
      workouts := existing.workouts;
      entries := existing.entries;
      snoozes := existing.snoozes;
      moves := existing.moves;
      nudges := existing.nudges;
      nextWorkoutId := existing.nextWorkoutId;
      nextEntryId := existing.nextEntryId;
      nextSnoozeId := existing.nextSnoozeId;
      new;
      SeedMoveBodyAreas();
      var _ := CanonicalizeWorkoutEntryTypes();
    }

    /** `_seed_move_body_areas`: upsert every seed row with a non-empty key. */
    method SeedMoveBodyAreas()
      requires Valid()
      modifies this
      ensures Valid()
      ensures Snapshot() == SeedTables(old(Snapshot()))
    {
      SeedMoves(MoveBodyAreaSeed);
    }

    /** Upsert the seed row of every move with a non-empty key. */
    method SeedMoves(seed: seq<Move>)
      requires Valid()
      modifies this
      ensures Valid()
      ensures Snapshot() == old(Snapshot()).(moves := SeedWith(old(moves), seed))
    {
      UpsertRows(SeedRows(seed));
    }

    /** `INSERT ... ON CONFLICT(move_key) DO UPDATE`, one row at a time. */
    method UpsertRows(rows: seq<SeedRow>)
      requires Valid()
      modifies this
      ensures Valid()
      ensures Snapshot() == old(Snapshot()).(moves := Upsert(old(moves), rows))
    {
      var i := 0;
      while i < |rows|
        invariant 0 <= i <= |rows|
        invariant Snapshot() == old(Snapshot()).(moves := Upsert(old(moves), rows[..i]))
      {
        assert rows[..i + 1][..i] == rows[..i];
        moves := moves[rows[i].key := InfoOf(rows[i])];
        i := i + 1;
      }
      assert rows[..i] == rows;
    }

    /** `_canonicalize_workout_entry_types`: rewrite every entry to its canonical key
        and label; returns the number of rows updated. */
    method CanonicalizeWorkoutEntryTypes() returns (updated: nat)
      requires Valid()
      modifies this
      ensures Valid()
      ensures Snapshot() == CanonicalizeTables(old(Snapshot()))
      ensures updated == UpdateCount(old(moves), old(entries))
    {
      CanonicalizeKeepsRows(Snapshot());
      var result;
      result, updated := CanonicalPass(moves, entries);
      entries := result;
    }

    /** `log_workout_with_entries(entries, note)` at time `now`: the new workout's id,
        or the reason it raised. */
    method LogWorkoutWithEntries(input: seq<EntryInput>, note: string, now: int) returns (r: Result<int, LogError>)
      requires Valid()
      modifies this
      ensures Valid()
      ensures Logged(r, Snapshot()) == LogWorkout(old(Snapshot()), input, note, now)
    {
      ghost var before := Snapshot();
      if input == [] {
        assert LogWorkout(before, input, note, now) == Logged(Failure(EmptyEntries), before);
        return Failure(EmptyEntries);
      }
      var rows := NormalizeEntryInputs(moves, input);
      if rows == [] {
        assert LogWorkout(before, input, note, now) == Logged(Failure(NoValidType), before);
        return Failure(NoValidType);
      }
      var id := nextWorkoutId;
      var stripped := Strip(note);
      var newWorkouts := workouts + [Workout(id, now, |rows|, stripped)];
      var newEntries := entries + EntryRows(nextEntryId, id, rows, now, stripped);
      var newEntryId := nextEntryId + |rows|;
      var after := Tables(newWorkouts, newEntries, snoozes, moves, nudges, id + 1, newEntryId, nextSnoozeId);
      assert LogWorkout(before, input, note, now) == Logged(Success(id), after);
      WriteBack(after);
      r := Success(id);
      LogWorkoutValid(before, input, note, now);
    }

    /** Write every table of `t` back to the store. */
    method WriteBack(t: Tables)
      modifies this
      ensures Snapshot() == t
    {
      workouts, entries, snoozes, moves, nudges := t.workouts, t.entries, t.snoozes, t.moves, t.nudges;
      nextWorkoutId, nextEntryId, nextSnoozeId := t.nextWorkoutId, t.nextEntryId, t.nextSnoozeId;
    }

    /** `log_snooze(reason)` at time `now`. */
    method LogSnooze(reason: string, now: int)
      requires Valid()
      modifies this
      ensures Valid()
      ensures Snapshot() == LogSnoozeIn(old(Snapshot()), reason, now)
    {
      LogSnoozeFacts(Snapshot(), reason, now);
      snoozes := snoozes + [Snooze(nextSnoozeId, now, Strip(reason))];
      nextSnoozeId := nextSnoozeId + 1;
    }

    /** `count_workouts_between(start, end)`: workouts with start <= logged_at < end. */
    function CountWorkoutsBetween(start: int, end: int): (n: nat)
      reads this
      ensures n <= |workouts|
      ensures end <= start ==> n == 0
    {
      CountInEmptyIf(workouts, start, end);
      CountIn(workouts, start, end)
    }

    /** `summarize_sets_by_workout_type_between(start, end)`. */
    function SummarizeSetsByWorkoutTypeBetween(start: int, end: int): (r: Tally)
      reads this
      ensures SortedByCount(r) && DistinctNames(r)
      ensures 0 <= Sum(r) <= |InWindow(entries, start, end)|
      ensures var rows := InWindow(entries, start, end);
        forall c :: c in r ==>
          exists e :: e in rows && Strip(e.workoutType) != [] && c.name == Label(rows, e.workoutType)
                      && c.count == CountType(rows, e.workoutType)
      ensures var rows := InWindow(entries, start, end);
        forall e :: e in rows && Strip(e.workoutType) != [] ==> Label(rows, e.workoutType) in Names(r)
    {
      TypeSummaryFacts(InWindow(entries, start, end));
      TypeSummaryValues(InWindow(entries, start, end));
      TypeSummary(InWindow(entries, start, end))
    }

    /** `summarize_sets_by_body_area_between(start, end)`. */
    method SummarizeSetsByBodyAreaBetween(start: int, end: int) returns (r: Tally)
      ensures r == AreaSummary(moves, InWindow(entries, start, end))
      ensures Sum(r) == |InWindow(entries, start, end)|
      ensures SortedByCount(r) && DistinctNames(r)
      ensures forall a :: Get(r, a) == CountArea(moves, InWindow(entries, start, end), a)
      ensures forall a :: a in Names(r) <==> CountArea(moves, InWindow(entries, start, end), a) > 0
    {
      var rows := InWindow(entries, start, end);
      var totals := TotalsByArea(moves, GroupCounts(rows));
      r := SortByCount(totals);
      AreaSummaryFacts(moves, rows);
      forall a
        ensures Get(r, a) == CountArea(moves, rows, a)
        ensures a in Names(r) <==> CountArea(moves, rows, a) > 0
      {
        AreaSummaryCounts(moves, rows, a);
      }
    }

    /** `summarize_sets_by_body_area_for_workout(workout_id)`. */
    method SummarizeSetsByBodyAreaForWorkout(workoutId: int) returns (r: Tally)
      ensures r == AreaSummary(moves, OfWorkout(entries, workoutId))
      ensures Sum(r) == |OfWorkout(entries, workoutId)|
      ensures SortedByCount(r) && DistinctNames(r)
      ensures forall a :: Get(r, a) == CountArea(moves, OfWorkout(entries, workoutId), a)
      ensures forall a :: a in Names(r) <==> CountArea(moves, OfWorkout(entries, workoutId), a) > 0
    {
      var rows := OfWorkout(entries, workoutId);
      var totals := TotalsByArea(moves, GroupCounts(rows));
      r := SortByCount(totals);
      AreaSummaryFacts(moves, rows);
      forall a
        ensures Get(r, a) == CountArea(moves, rows, a)
        ensures a in Names(r) <==> CountArea(moves, rows, a) > 0
      {
        AreaSummaryCounts(moves, rows, a);
      }
    }

    /** `period_workout_summary(start, end)`. */
    method PeriodWorkoutSummary(start: int, end: int) returns (s: PeriodSummary)
      ensures s.workouts == CountIn(workouts, start, end)
      ensures s.byWorkoutType == TypeSummary(InWindow(entries, start, end))
      ensures s.byBodyArea == AreaSummary(moves, InWindow(entries, start, end))
      ensures s.totalSets == Sum(s.byWorkoutType) <= Sum(s.byBodyArea) == |InWindow(entries, start, end)|
    {
      var byType := SummarizeSetsByWorkoutTypeBetween(start, end);
      var byArea := SummarizeSetsByBodyAreaBetween(start, end);
      s := PeriodSummary(CountWorkoutsBetween(start, end), Sum(byType), byType, byArea);
    }

    /** `weekly_nudge_sent(week_start, milestone)`. */
    predicate WeeklyNudgeSent(weekStart: int, milestone: int)
      reads this
    {
      NudgeSent(Snapshot(), weekStart, milestone)
    }

    /** `mark_weekly_nudge_sent(week_start, milestone)` at time `now`. */
    method MarkWeeklyNudgeSent(weekStart: int, milestone: int, now: int)
      requires Valid()
      modifies this
      ensures Valid()
      ensures Snapshot() == MarkNudge(old(Snapshot()), weekStart, milestone, now)
      ensures WeeklyNudgeSent(weekStart, milestone)
    {
      if (weekStart, milestone) !in nudges {
        nudges := nudges[(weekStart, milestone) := now];
      }
    }

    /** `stats_summary()`. */
    function StatsSummary(): (s: Stats)
      reads this
      ensures s.workoutCount == |workouts| && s.snoozeCount == |snoozes|
      ensures |workouts| == 0 ==> s.avgSets == 0.0 && s.avgVolume == 0.0
    {
      StatsOf(Snapshot())
    }
  }

  /** The loop of `_canonicalize_workout_entry_types`: each entry rewritten to its
      canonical key and label, and the number of rows whose update was written. */
  method CanonicalPass(table: MoveTable, rows: seq<Entry>) returns (result: seq<Entry>, updated: nat)
    ensures result == CanonicalEntries(table, rows)
    ensures updated == UpdateCount(table, rows)
  {
    result := [];
    updated := 0;
    var i := 0;
    while i < |rows|
      invariant 0 <= i <= |rows|
      invariant result == CanonicalEntries(table, rows[..i])
      invariant updated == UpdateCount(table, rows[..i])
    {
      var e := rows[i];
      CanonicalPrefixStep(table, rows, i);
      result := result + [CanonicalEntry(table, e)];
      if NeedsUpdate(table, e) {
        updated := updated + 1;
      }
      i := i + 1;
    }
    assert rows[..i] == rows;
  }

  lemma CanonicalPrefixStep(table: MoveTable, rows: seq<Entry>, i: nat)
    requires i < |rows|
    ensures CanonicalEntries(table, rows[..i + 1]) == CanonicalEntries(table, rows[..i]) + [CanonicalEntry(table, rows[i])]
    ensures UpdateCount(table, rows[..i + 1]) == UpdateCount(table, rows[..i]) + (if NeedsUpdate(table, rows[i]) then 1 else 0)
  {
    assert rows[..i + 1] == rows[..i] + [rows[i]];
    CanonicalStep(table, rows[..i], rows[i]);
  }

  lemma CountInEmptyIf(ws: seq<Workout>, start: int, end: int)
    ensures end <= start ==> CountIn(ws, start, end) == 0
  {
    if end <= start {
      CountInEmpty(ws, start, end);
    }
  }
}
