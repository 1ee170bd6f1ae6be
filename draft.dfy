// The multi-message workout draft of gym_supervisor/bot.py: the `awaiting`
// flag and the `{"batches": [...]}` draft kept in the chat's `user_data`, the
// operations that append, undo, cancel and finalise it, and the gating of
// incoming text in `capture_sets_message`.

module Draft {
  import opened Text
  import opened Wrappers
  import opened Tally
  import opened WorkoutParser
  import opened Queries
  import opened Store
  import Messages

  /** One accepted message: its stripped text, the parsed label and the pairs. */
  datatype Batch = Batch(text: string, workoutType: string, pairs: seq<Pair>)

  /** The chat's `user_data`: the `awaiting_workout_log` flag, whether a draft dict
      is present, and its batches. A missing flag reads as false. */
  datatype Session = Session(awaiting: bool, hasDraft: bool, batches: seq<Batch>)

  /** A chat whose `user_data` is still empty. */
  const NewSession := Session(false, false, [])

  /** What the draft operations answer. */
  datatype AppendOutcome = ParseFailed | Added(workoutType: string, sets: nat, draftSets: nat)
  datatype UndoOutcome = UndoWithoutDraft | NothingToUndo | Removed(sets: nat, draftSets: nat)
  datatype FinalizeOutcome =
    | FinalizeWithoutDraft
    | NothingCollected
    | LogRejected(error: LogError)
    | Saved(workoutId: int, sets: nat, totalSets: int, areaSets: Tally)
  datatype CaptureOutcome = Ignored | MenuShown | Appended(outcome: AppendOutcome)

  // ---- counting and collecting ----------------------------------------------------

  /** The pairs with positive reps. */
  function PositiveReps(ps: seq<Pair>): (n: nat)
    ensures n <= |ps|
  {
    if ps == [] then 0 else PositiveReps(ps[..|ps| - 1]) + (if ps[|ps| - 1].reps > 0 then 1 else 0)
  }

  /** `_draft_set_count`: the pairs with positive reps across all batches. */
  function SetCount(bs: seq<Batch>): nat {
    if bs == [] then 0 else SetCount(bs[..|bs| - 1]) + PositiveReps(bs[|bs| - 1].pairs)
  }

  /** The count of a draft is the sum of the counts of its parts. */
  lemma {:induction false} SetCountAppend(a: seq<Batch>, b: seq<Batch>)
    ensures SetCount(a + b) == SetCount(a) + SetCount(b)
  {
    if b != [] {
      var n := |b| - 1;
      assert (a + b)[..|a + b| - 1] == a + b[..n];
      assert (a + b)[|a + b| - 1] == b[n];
      SetCountAppend(a, b[..n]);
    } else {
      assert a + b == a;
    }
  }

  /** Every pair of a batch has positive reps when the parser accepted it. */
  lemma {:induction false} PositiveRepsOfBounded(ps: seq<Pair>)
    requires forall p :: p in ps ==> InBounds(p)
    ensures PositiveReps(ps) == |ps|
  {
    if ps != [] {
      PositiveRepsOfBounded(ps[..|ps| - 1]);
      assert ps[|ps| - 1] in ps;
    }
  }

  /** `_draft_set_count`, loop for loop. */
  method DraftSetCount(bs: seq<Batch>) returns (n: nat)
    ensures n == SetCount(bs)
  {
    n := 0;
    var i := 0;
    while i < |bs|
      invariant 0 <= i <= |bs|
      invariant n == SetCount(bs[..i])
    {
      assert bs[..i + 1][..i] == bs[..i];
      var ps := bs[i].pairs;
      var j := 0;
      var inner: nat := 0;
      while j < |ps|
        invariant 0 <= j <= |ps|
        invariant inner == PositiveReps(ps[..j])
      {
        assert ps[..j + 1][..j] == ps[..j];
        if ps[j].reps > 0 {
          inner := inner + 1;
        }
        j := j + 1;
      }
      assert ps[..j] == ps;
      n := n + inner;
      i := i + 1;
    }
    assert bs[..i] == bs;
  }

  /** The entries a batch contributes to `log_workout_with_entries`. */
  function BatchEntries(b: Batch): (r: seq<EntryInput>)
    ensures |r| <= |b.pairs|
  {
    var t := Strip(b.workoutType);
    PairEntries(t, b.pairs)
  }

  function PairEntries(t: string, ps: seq<Pair>): (r: seq<EntryInput>)
    ensures |r| <= |ps|
    ensures forall e :: e in r ==> e.workoutType == t && t != [] && e.reps > 0 && e.weight > 0.0
  {
    if ps == [] then []
    else
      var p := ps[|ps| - 1];
      PairEntries(t, ps[..|ps| - 1])
      + (if t != [] && p.reps > 0 && p.weight > 0.0 then [EntryInput(t, p.reps, p.weight)] else [])
  }

  /** The entries `_finalize_workout_draft` collects, in order. */
  function Collect(bs: seq<Batch>): (r: seq<EntryInput>)
    ensures forall e :: e in r ==> e.workoutType != [] && e.reps > 0 && e.weight > 0.0
  {
    if bs == [] then [] else Collect(bs[..|bs| - 1]) + BatchEntries(bs[|bs| - 1])
  }

  /** The stripped texts of the batches. */
  function Texts(bs: seq<Batch>): (r: seq<string>)
    ensures |r| == |bs| && forall i :: 0 <= i < |bs| ==> r[i] == Strip(bs[i].text)
  {
    seq(|bs|, i requires 0 <= i < |bs| => Strip(bs[i].text))
  }

  /** `" | ".join(part for part in note_parts if part)`. */
  function NoteOf(bs: seq<Batch>): string {
    Join(NonEmpty(Texts(bs)), " | ")
  }

  /** The collecting loop of `_finalize_workout_draft`. */
  method CollectEntries(bs: seq<Batch>) returns (entries: seq<EntryInput>, note: string)
    ensures entries == Collect(bs)
    ensures note == NoteOf(bs)
  {
    entries := [];
    var parts: seq<string> := [];
    var i := 0;
    while i < |bs|
      invariant 0 <= i <= |bs|
      invariant entries == Collect(bs[..i])
      invariant parts == Texts(bs[..i])
    {
      CollectStep(bs, i);
      var found := CollectPairs(Strip(bs[i].workoutType), bs[i].pairs);
      parts := parts + [Strip(bs[i].text)];
      entries := entries + found;
      i := i + 1;
    }
    assert bs[..i] == bs;
    note := Join(NonEmpty(parts), " | ");
  }

  /** The inner loop: the entries of one batch whose type is `t`. */
  method CollectPairs(t: string, ps: seq<Pair>) returns (found: seq<EntryInput>)
    ensures found == PairEntries(t, ps)
  {
    found := [];
    var j := 0;
    while j < |ps|
      invariant 0 <= j <= |ps|
      invariant found == PairEntries(t, ps[..j])
    {
      assert ps[..j + 1][..j] == ps[..j];
      if t != [] && ps[j].reps > 0 && ps[j].weight > 0.0 {
        found := found + [EntryInput(t, ps[j].reps, ps[j].weight)];
      }
      j := j + 1;
    }
    assert ps[..j] == ps;
  }

  lemma CollectStep(bs: seq<Batch>, i: nat)
    requires i < |bs|
    ensures Collect(bs[..i + 1]) == Collect(bs[..i]) + PairEntries(Strip(bs[i].workoutType), bs[i].pairs)
    ensures Texts(bs[..i + 1]) == Texts(bs[..i]) + [Strip(bs[i].text)]
  {
    assert bs[..i + 1][..i] == bs[..i];
  }

  /** A batch the parser produced: its pairs are within bounds. */
  predicate ParsedBatch(b: Batch) {
    forall p :: p in b.pairs ==> InBounds(p)
  }

  lemma {:induction false} PairEntriesOfBounded(t: string, ps: seq<Pair>)
    requires t != [] && forall p :: p in ps ==> InBounds(p)
    ensures |PairEntries(t, ps)| == |ps|
  {
    if ps != [] {
      PairEntriesOfBounded(t, ps[..|ps| - 1]);
      assert ps[|ps| - 1] in ps;
    }
  }

  /** For batches the parser produced whose labels are not blank, finalising saves
      exactly as many sets as the draft count announced. */
  lemma {:induction false} CollectMatchesSetCount(bs: seq<Batch>)
    requires forall b :: b in bs ==> ParsedBatch(b) && Strip(b.workoutType) != []
    ensures |Collect(bs)| == SetCount(bs)
  {
    if bs != [] {
      var b := bs[|bs| - 1];
      assert b in bs;
      CollectMatchesSetCount(bs[..|bs| - 1]);
      PairEntriesOfBounded(Strip(b.workoutType), b.pairs);
      PositiveRepsOfBounded(b.pairs);
    }
  }

  // ---- transitions ----------------------------------------------------------------

  /** `_reset_workout_draft`. */
  function ResetIn(s: Session): (r: Session)
    ensures !r.awaiting && r.hasDraft && r.batches == []
  {
    Session(false, true, [])
  }

  /** `_set_awaiting_workout_draft`. */
  function SetAwaitingIn(s: Session): (r: Session)
    ensures r.awaiting && r.hasDraft && r.batches == []
  {
    ResetIn(s).(awaiting := true)
  }

  /** `_append_workout_entry(text)`: the session after it and the answer. */
  function AppendIn(s: Session, text: string): (Session, AppendOutcome) {
    var p := Parse(text);
    if p.workoutType == [] || p.pairs == [] then (s, ParseFailed)
    else
      var base := if s.hasDraft then s else ResetIn(s);
      var bs := base.batches + [Batch(Strip(text), p.workoutType, p.pairs)];
      (base.(batches := bs), Added(p.workoutType, |p.pairs|, SetCount(bs)))
  }

  /** `_undo_last_workout_entry`. */
  function UndoIn(s: Session): (Session, UndoOutcome) {
    if !s.hasDraft then (s, UndoWithoutDraft)
    else if s.batches == [] then (s, NothingToUndo)
    else
      var rest := s.batches[..|s.batches| - 1];
      (s.(batches := rest), Removed(|s.batches[|s.batches| - 1].pairs|, SetCount(rest)))
  }

  /** `_finalize_workout_draft` against tables `t` at time `now`. A rejected log
      raises in the source; here the session and the tables stay as they were. */
  function FinalizeIn(s: Session, t: Tables, now: int): (Session, Tables, FinalizeOutcome) {
    if !s.hasDraft then (s, t, FinalizeWithoutDraft)
    else
      var entries := Collect(s.batches);
      if entries == [] then (s, t, NothingCollected)
      else
        var logged := LogWorkout(t, entries, NoteOf(s.batches), now);
        match logged.result
        case Failure(e) => (s, t, LogRejected(e))
        case Success(id) =>
          var after := logged.after;
          (ResetIn(s), after,
           Saved(id, |entries|, StatsOf(after).totalSets, AreaSummary(after.moves, OfWorkout(after.entries, id))))
  }

  /** `capture_sets_message(text)`: blank text is ignored, text outside a draft only
      answers a menu trigger, anything else goes to the draft, stripped. */
  function CaptureIn(s: Session, text: string): (Session, CaptureOutcome) {
    var t := Strip(text);
    if t == [] then (s, Ignored)
    else if !s.awaiting then (s, if Messages.IsMenuTrigger(t) then MenuShown else Ignored)
    else
      var (after, o) := AppendIn(s, t);
      (after, Appended(o))
  }

  // ---- properties -----------------------------------------------------------------

  /** The session invariant the bot keeps: awaiting only with a draft, and every
      batch as the parser produced it. */
  predicate SessionValid(s: Session) {
    (s.awaiting ==> s.hasDraft) && forall b :: b in s.batches ==> ParsedBatch(b)
  }

  /** A failed parse changes nothing; a successful one adds exactly one batch at the
      end, holding the label and pairs of the parse, and the announced draft count
      grows by the number of pairs. */
  lemma AppendFacts(s: Session, text: string)
    ensures AppendIn(s, text).1 == ParseFailed <==> Parse(text).workoutType == [] || Parse(text).pairs == []
    ensures AppendIn(s, text).1 == ParseFailed ==> AppendIn(s, text).0 == s
    ensures AppendIn(s, text).1.Added? ==>
              var r := AppendIn(s, text).0;
              var old_ := if s.hasDraft then s.batches else [];
              r.hasDraft
              && r.batches == old_ + [Batch(Strip(text), Parse(text).workoutType, Parse(text).pairs)]
              && (s.hasDraft ==> r.awaiting == s.awaiting)
              && AppendIn(s, text).1.draftSets == SetCount(old_) + |Parse(text).pairs|
  {
    var p := Parse(text);
    if p.workoutType != [] && p.pairs != [] {
      var old_ := if s.hasDraft then s.batches else [];
      var b := Batch(Strip(text), p.workoutType, p.pairs);
      SetCountAppend(old_, [b]);
      ParseDropsNeverClamps(text);
      PositiveRepsOfBounded(p.pairs);
      assert [b][..0] == [];
    }
  }

  /** Undo after a successful append restores the session, and reports the pairs
      the append added. */
  lemma AppendUndoRoundTrip(s: Session, text: string)
    requires s.hasDraft
    requires AppendIn(s, text).1.Added?
    ensures UndoIn(AppendIn(s, text).0).0 == s
    ensures UndoIn(AppendIn(s, text).0).1 == Removed(|Parse(text).pairs|, SetCount(s.batches))
  {
    var bs := AppendIn(s, text).0.batches;
    assert bs[..|bs| - 1] == s.batches;
  }

  /** Undo on an empty or missing draft fails and changes nothing. */
  lemma UndoEmptyFails(s: Session)
    requires !s.hasDraft || s.batches == []
    ensures UndoIn(s).0 == s
    ensures UndoIn(s).1 == UndoWithoutDraft || UndoIn(s).1 == NothingToUndo
  {
  }

  /** Reset, awaiting, undo and finalise keep the session invariant. */
  lemma SessionValidKept(s: Session, t: Tables, now: int)
    requires SessionValid(s)
    ensures SessionValid(ResetIn(s)) && SessionValid(SetAwaitingIn(s))
    ensures SessionValid(UndoIn(s).0)
    ensures SessionValid(FinalizeIn(s, t, now).0)
  {
    var bs := s.batches;
    if bs != [] {
      assert forall b :: b in bs[..|bs| - 1] ==> b in bs;
    }
  }

  /** Appending keeps the session invariant, and so does capturing a message. */
  lemma AppendKeepsValid(s: Session, text: string)
    requires SessionValid(s)
    ensures SessionValid(AppendIn(s, text).0)
    ensures SessionValid(CaptureIn(s, text).0)
  {
    AppendValid(s, text);
    AppendValid(s, Strip(text));
  }

  lemma AppendValid(s: Session, text: string)
    requires SessionValid(s)
    ensures SessionValid(AppendIn(s, text).0)
  {
    var p := Parse(text);
    if p.workoutType != [] && p.pairs != [] {
      var base := if s.hasDraft then s else ResetIn(s);
      var nb := Batch(Strip(text), p.workoutType, p.pairs);
      ParseKeepsBatch(text);
      assert AppendIn(s, text).0 == base.(batches := base.batches + [nb]);
      forall b | b in base.batches + [nb] ensures ParsedBatch(b) {
        assert b in base.batches || b == nb;
      }
    }
  }

  /** The pairs of a parse are in bounds. */
  lemma ParseKeepsBatch(text: string)
    ensures ParsedBatch(Batch(Strip(text), Parse(text).workoutType, Parse(text).pairs))
  {
    ParseDropsNeverClamps(text);
  }

  /** Finalising: without collected entries nothing changes; a rejected log changes
      nothing; a saved workout resets the draft to not awaiting with no batches and
      logs the collected entries once. */
  lemma FinalizeFacts(s: Session, t: Tables, now: int)
    ensures FinalizeIn(s, t, now).2 == NothingCollected <==> s.hasDraft && Collect(s.batches) == []
    ensures !FinalizeIn(s, t, now).2.Saved? ==> FinalizeIn(s, t, now).0 == s && FinalizeIn(s, t, now).1 == t
    ensures FinalizeIn(s, t, now).2.Saved? ==>
              FinalizeIn(s, t, now).0 == Session(false, true, [])
              && (FinalizeIn(s, t, now).2.workoutId, FinalizeIn(s, t, now).1)
                 == (LogWorkout(t, Collect(s.batches), NoteOf(s.batches), now).result.value,
                     LogWorkout(t, Collect(s.batches), NoteOf(s.batches), now).after)
              && FinalizeIn(s, t, now).2.sets == |Collect(s.batches)|
  {
  }

  /** For a valid session without blank labels, the sets saved are the sets the
      draft announced. */
  lemma FinalizeSavesDraftCount(s: Session, t: Tables, now: int)
    requires SessionValid(s) && forall b :: b in s.batches ==> Strip(b.workoutType) != []
    requires FinalizeIn(s, t, now).2.Saved?
    ensures FinalizeIn(s, t, now).2.sets == SetCount(s.batches)
  {
    CollectMatchesSetCount(s.batches);
  }

  /** A blank label slips through: appending `:\t20x8` raises the announced count
      by one set while the entries finalising would save stay the same. */
  lemma BlankLabelCountedNotSaved(s: Session)
    ensures var (r, out) := AppendIn(s, ":\t20x8");
            var before := if s.hasDraft then s.batches else [];
            && out.Added?
            && SetCount(r.batches) == SetCount(before) + 1
            && Collect(r.batches) == Collect(before)
  {
    ExampleBlankLabel();
    var before := if s.hasDraft then s.batches else [];
    assert AppendIn(s, ":\t20x8").0.batches == before + [Batch(Strip(":\t20x8"), " ", [Pair(8, 20.0)])];
    BlankBatch(before, Strip(":\t20x8"));
  }

  /** A batch under the blank label: counted by the draft, skipped by finalising. */
  lemma BlankBatch(before: seq<Batch>, text: string)
    ensures SetCount(before + [Batch(text, " ", [Pair(8, 20.0)])]) == SetCount(before) + 1
    ensures Collect(before + [Batch(text, " ", [Pair(8, 20.0)])]) == Collect(before)
  {
    var b := Batch(text, " ", [Pair(8, 20.0)]);
    assert (before + [b])[..|before|] == before;
    assert PositiveReps([Pair(8, 20.0)]) == 1;
    assert Strip(" ") == [] by {
      assert LeadCount(" ", IsSpace) == 1;
    }
  }

  // ---- the chat state -------------------------------------------------------------

  class WorkoutSession {
    var awaiting: bool
    var hasDraft: bool
    var batches: seq<Batch>

    function Snapshot(): Session
      reads this
    {
      Session(awaiting, hasDraft, batches)
    }

    /** A chat with empty `user_data`. */
    constructor ()
      ensures Snapshot() == NewSession
    {
      awaiting := false;
      hasDraft := false;
      batches := [];
    }

    /** `_reset_workout_draft`; also the Cancel button. */
    method Reset()
      modifies this
      ensures Snapshot() == ResetIn(old(Snapshot()))
    {
      awaiting := false;
      hasDraft := true;
      batches := [];
    }

    /** `_set_awaiting_workout_draft`; the "I trained" button and a bare `/log`. */
    method SetAwaiting()
      modifies this
      ensures Snapshot() == SetAwaitingIn(old(Snapshot()))
    {
      Reset();
      awaiting := true;
    }

    /** `_append_workout_entry(text)`. */
    method AppendEntry(text: string) returns (outcome: AppendOutcome)
      modifies this
      ensures (Snapshot(), outcome) == AppendIn(old(Snapshot()), text)
    {
      var p := ParseWorkoutEntry(text);
      if p.workoutType == [] || p.pairs == [] {
        return ParseFailed;
      }
      if !hasDraft {
        Reset();
      }
      batches := batches + [Batch(Strip(text), p.workoutType, p.pairs)];
      var total := DraftSetCount(batches);
      outcome := Added(p.workoutType, |p.pairs|, total);
    }

    /** `_undo_last_workout_entry`. */
    method UndoLastEntry() returns (outcome: UndoOutcome)
      modifies this
      ensures (Snapshot(), outcome) == UndoIn(old(Snapshot()))
    {
      if !hasDraft {
        return UndoWithoutDraft;
      }
      if batches == [] {
        return NothingToUndo;
      }
      var removed := batches[|batches| - 1];
      batches := batches[..|batches| - 1];
      var total := DraftSetCount(batches);
      outcome := Removed(|removed.pairs|, total);
    }

    /** `_finalize_workout_draft`, logging into `db` at time `now`. */
    method FinalizeDraft(db: GymDB, now: int) returns (outcome: FinalizeOutcome)
      requires db.Valid()
      modifies this, db
      ensures db.Valid()
      ensures (Snapshot(), db.Snapshot(), outcome) == FinalizeIn(old(Snapshot()), old(db.Snapshot()), now)
    {
      if !hasDraft {
        return FinalizeWithoutDraft;
      }
      var entries, note := CollectEntries(batches);
      if entries == [] {
        return NothingCollected;
      }
      var r := db.LogWorkoutWithEntries(entries, note, now);
      match r {
        case Failure(e) =>
          return LogRejected(e);
        case Success(id) =>
          var areaSets := db.SummarizeSetsByBodyAreaForWorkout(id);
          Reset();
          var stats := db.StatsSummary();
          outcome := Saved(id, |entries|, stats.totalSets, areaSets);
      }
    }

    /** `capture_sets_message(text)`. */
    method CaptureSetsMessage(text: string) returns (outcome: CaptureOutcome)
      modifies this
      ensures (Snapshot(), outcome) == CaptureIn(old(Snapshot()), text)
    {
      var t := Strip(text);
      if t == [] {
        return Ignored;
      }
      if !awaiting {
        return if Messages.IsMenuTrigger(t) then MenuShown else Ignored;
      }
      var o := AppendEntry(t);
      outcome := Appended(o);
    }
  }
}
