// The weekly deadline nudges of gym_supervisor/bot.py: three milestones a week,
// each due once its deadline has passed with too few workouts logged since
// Monday, each sent at most once per week thanks to the store's markers.

module Nudges {
  import opened Text
  import opened Tally
  import opened Calendar
  import opened Queries
  import opened Store
  import opened Wrappers
  import Messages

  /** One entry of `WEEKLY_MILESTONES`: workout number `milestone` is due by
      `weekday` (Monday is 0) at `hour`:`minute`; `display` names that time. */
  datatype Milestone = Milestone(milestone: int, required: nat, weekday: nat, hour: nat, minute: nat, display: string)

  const WeeklyMilestones: seq<Milestone> := [
    Milestone(1, 1, 1, 20, 0, "Tuesday 8:00 PM"),
    Milestone(2, 2, 3, 20, 0, "Thursday 8:00 PM"),
    Milestone(3, 3, 6, 16, 0, "Sunday 4:00 PM")
  ]

  /** The deadline of `m` in the week opening at `weekStart`. */
  function Deadline(weekStart: int, m: Milestone): int {
    weekStart + m.weekday * SecondsPerDay + m.hour * 3600 + m.minute * 60
  }

  /** The three deadlines fall in their week, in milestone order, and each asks for
      as many workouts as its number. */
  lemma MilestoneFacts(weekStart: int)
    ensures forall i :: 0 <= i < |WeeklyMilestones| ==>
              weekStart < Deadline(weekStart, WeeklyMilestones[i]) < weekStart + SecondsPerWeek
              && WeeklyMilestones[i].required == WeeklyMilestones[i].milestone == i + 1
    ensures forall i, j :: 0 <= i < j < |WeeklyMilestones| ==>
              Deadline(weekStart, WeeklyMilestones[i]) < Deadline(weekStart, WeeklyMilestones[j])
  {
  }

  /** Whether `m` is due at `now`: not yet marked this week, its deadline passed, and
      fewer workouts than required logged from Monday to the deadline. */
  predicate Due(t: Tables, now: int, m: Milestone) {
    var ws := WeekStart(now);
    && !NudgeSent(t, WeekStartDate(now), m.milestone)
    && now >= Deadline(ws, m)
    && CountIn(t.workouts, ws, Deadline(ws, m)) < m.required
  }

  /** A nudge as sent: the milestone and the message text. */
  datatype Nudge = Nudge(milestone: int, text: string)

  /** The body-area totals of the seven days before `now`. */
  function PastWeekAreas(t: Tables, now: int): Tally {
    AreaSummary(t.moves, InWindow(t.entries, now - SecondsPerWeek, now))
  }

  /** The message of a nudge for `m`. */
  function NudgeText(m: Milestone, byArea: Tally): string {
    "Nudge: You haven't completed workout #" + IntToString(m.milestone) + " by " + m.display + ".\n"
    + Messages.NudgeFocusText(byArea) + "\nTap I trained and log now."
  }

  /** The nudge sent for a due milestone `m` from the tables `t` at `now`. */
  function NudgeFor(t: Tables, now: int, m: Milestone): (n: Nudge)
    ensures n.milestone == m.milestone
  {
    Nudge(m.milestone, NudgeText(m, PastWeekAreas(t, now)))
  }

  /** The tables once `m` is marked as nudged for the week of `now`. */
  function MarkFor(t: Tables, now: int, m: Milestone): Tables {
    MarkNudge(t, WeekStartDate(now), m.milestone, now)
  }

  /** `send_weekly_deadline_nudges_now` over the milestones `ms`, in order: the tables
      after it and the nudges sent. */
  function RunNudges(t: Tables, now: int, ms: seq<Milestone>): (Tables, seq<Nudge>)
    decreases |ms|
  {
    if ms == [] then (t, [])
    else if Due(t, now, ms[0]) then
      var (after, rest) := RunNudges(MarkFor(t, now, ms[0]), now, ms[1..]);
      (after, [NudgeFor(t, now, ms[0])] + rest)
    else RunNudges(t, now, ms[1..])
  }

  /** Milestone numbers of a list of milestones or of nudges. */
  function Numbers(ms: seq<Milestone>): set<int> {
    set m | m in ms :: m.milestone
  }

  function SentNumbers(ns: seq<Nudge>): set<int> {
    set n | n in ns :: n.milestone
  }

  /** `u` differs from `t` only by markers added: every other table is untouched,
      old markers stay with their times. */
  predicate OnlyMarked(t: Tables, u: Tables) {
    && u.(nudges := t.nudges) == t
    && forall k :: k in t.nudges ==> k in u.nudges && u.nudges[k] == t.nudges[k]
  }

  lemma MarkOnlyMarks(t: Tables, now: int, m: Milestone)
    ensures OnlyMarked(t, MarkFor(t, now, m))
  {
  }

  lemma OnlyMarkedTrans(t: Tables, u: Tables, v: Tables)
    requires OnlyMarked(t, u) && OnlyMarked(u, v)
    ensures OnlyMarked(t, v)
  {
    assert v.(nudges := t.nudges) == u.(nudges := t.nudges);
  }

  /** A run only adds markers. */
  lemma {:induction false} RunOnlyMarks(t: Tables, now: int, ms: seq<Milestone>)
    decreases |ms|
    ensures OnlyMarked(t, RunNudges(t, now, ms).0)
  {
    if ms == [] {
      assert t.(nudges := t.nudges) == t;
    } else if Due(t, now, ms[0]) {
      var marked := MarkFor(t, now, ms[0]);
      RunOnlyMarks(marked, now, ms[1..]);
      MarkOnlyMarks(t, now, ms[0]);
      OnlyMarkedTrans(t, marked, RunNudges(marked, now, ms[1..]).0);
    } else {
      RunOnlyMarks(t, now, ms[1..]);
    }
  }

  /** Marking one milestone leaves whether another is due unchanged. */
  lemma MarkKeepsDue(t: Tables, now: int, k: Milestone, m: Milestone)
    requires m.milestone != k.milestone
    ensures Due(MarkFor(t, now, k), now, m) == Due(t, now, m)
  {
  }

  /** The numbers of the milestones of `ms` due at `now`. */
  function DueNumbers(t: Tables, now: int, ms: seq<Milestone>): set<int> {
    set m | m in ms && Due(t, now, m) :: m.milestone
  }

  /** No milestone after the first shares its number. */
  lemma HeadNumberUnique(ms: seq<Milestone>)
    requires ms != []
    requires forall i, j :: 0 <= i < j < |ms| ==> ms[i].milestone != ms[j].milestone
    ensures forall m :: m in ms[1..] ==> m.milestone != ms[0].milestone
  {
    forall m | m in ms[1..] ensures m.milestone != ms[0].milestone {
      var j :| 0 <= j < |ms[1..]| && ms[1..][j] == m;
      assert ms[j + 1] == m;
    }
  }

  /** Splitting off the first milestone of `ms`, with the tables of the rest of the
      run, which differ from `t` at most by the first milestone's marker. */
  lemma DueNumbersStep(t: Tables, u: Tables, now: int, ms: seq<Milestone>)
    requires ms != []
    requires forall m :: m in ms[1..] ==> m.milestone != ms[0].milestone && Due(u, now, m) == Due(t, now, m)
    ensures DueNumbers(t, now, ms)
            == (if Due(t, now, ms[0]) then {ms[0].milestone} else {}) + DueNumbers(u, now, ms[1..])
  {
    assert forall m :: m in ms <==> m == ms[0] || m in ms[1..];
  }

  lemma SentNumbersCons(n: Nudge, rest: seq<Nudge>)
    ensures SentNumbers([n] + rest) == {n.milestone} + SentNumbers(rest)
  {
    assert forall x :: x in [n] + rest <==> x == n || x in rest;
  }

  /** With distinct milestone numbers, a nudge is sent for exactly the milestones
      due at the start of the run. */
  lemma {:induction false} RunSendsDue(t: Tables, now: int, ms: seq<Milestone>)
    requires forall i, j :: 0 <= i < j < |ms| ==> ms[i].milestone != ms[j].milestone
    ensures SentNumbers(RunNudges(t, now, ms).1) == DueNumbers(t, now, ms)
    decreases |ms|
  {
    if ms != [] {
      var m0 := ms[0];
      var tail := ms[1..];
      HeadNumberUnique(ms);
      if Due(t, now, m0) {
        var marked := MarkFor(t, now, m0);
        RunSendsDue(marked, now, tail);
        forall m | m in tail ensures Due(marked, now, m) == Due(t, now, m) {
          MarkKeepsDue(t, now, m0, m);
        }
        DueNumbersStep(t, marked, now, ms);
        SentNumbersCons(NudgeFor(t, now, m0), RunNudges(marked, now, tail).1);
      } else {
        RunSendsDue(t, now, tail);
        DueNumbersStep(t, t, now, ms);
      }
    } else {
      assert DueNumbers(t, now, ms) == {};
    }
  }

  /** After a run every milestone due at its start is marked for the week. */
  lemma {:induction false} RunMarksDue(t: Tables, now: int, ms: seq<Milestone>)
    ensures forall m :: m in ms && Due(t, now, m) ==> NudgeSent(RunNudges(t, now, ms).0, WeekStartDate(now), m.milestone)
    decreases |ms|
  {
    if ms != [] {
      var m0 := ms[0];
      var tail := ms[1..];
      var u := if Due(t, now, m0) then MarkFor(t, now, m0) else t;
      var after := RunNudges(u, now, tail).0;
      assert RunNudges(t, now, ms).0 == after;
      RunMarksDue(u, now, tail);
      RunOnlyMarks(u, now, tail);
      forall m | m in ms && Due(t, now, m)
        ensures NudgeSent(after, WeekStartDate(now), m.milestone)
      {
        if Due(t, now, m0) && m.milestone == m0.milestone {
          assert NudgeSent(u, WeekStartDate(now), m.milestone);
        } else {
          assert m in tail by {
            assert m == m0 || m in tail;
          }
          if Due(t, now, m0) {
            MarkKeepsDue(t, now, m0, m);
          }
        }
      }
    }
  }

  /** Nothing due, nothing sent. */
  lemma {:induction false} NoneDueNoneSent(t: Tables, now: int, ms: seq<Milestone>)
    requires forall m :: m in ms ==> !Due(t, now, m)
    ensures RunNudges(t, now, ms).1 == []
    decreases |ms|
  {
    if ms != [] {
      assert ms[0] in ms;
      assert forall m :: m in ms[1..] ==> m in ms;
      NoneDueNoneSent(t, now, ms[1..]);
    }
  }

  /** Running the nudges again at the same moment sends nothing. */
  lemma RerunSendsNothing(t: Tables, now: int)
    ensures RunNudges(RunNudges(t, now, WeeklyMilestones).0, now, WeeklyMilestones).1 == []
  {
    var ms := WeeklyMilestones;
    var after := RunNudges(t, now, ms).0;
    RunMarksDue(t, now, ms);
    RunOnlyMarks(t, now, ms);
    assert after.workouts == t.workouts by {
      assert after.(nudges := t.nudges).workouts == after.workouts;
    }
    forall m | m in ms ensures !Due(after, now, m) {
      var key := (WeekStartDate(now), m.milestone);
      if key in t.nudges {
        assert key in after.nudges;
      }
    }
    NoneDueNoneSent(after, now, ms);
  }

  /** Within one week a milestone is nudged at most once: a later run in the same
      week sends nothing for a milestone an earlier run sent. */
  lemma OncePerWeek(t: Tables, now: int, later: int)
    requires WeekStartDate(later) == WeekStartDate(now)
    ensures SentNumbers(RunNudges(t, now, WeeklyMilestones).1)
            !! SentNumbers(RunNudges(RunNudges(t, now, WeeklyMilestones).0, later, WeeklyMilestones).1)
  {
    var ms := WeeklyMilestones;
    var after := RunNudges(t, now, ms).0;
    RunSendsDue(t, now, ms);
    RunSendsDue(after, later, ms);
    RunMarksDue(t, now, ms);
    forall k | k in SentNumbers(RunNudges(t, now, ms).1)
      ensures k !in SentNumbers(RunNudges(after, later, ms).1)
    {
      var m :| m in ms && m.milestone == k && Due(t, now, m);
      assert NudgeSent(after, WeekStartDate(later), k);
    }
  }

  /** One step of a run from the `i`-th milestone on. */
  lemma RunStep(t: Tables, now: int, ms: seq<Milestone>, i: int)
    requires 0 <= i < |ms|
    ensures Due(t, now, ms[i]) ==>
      var marked := MarkFor(t, now, ms[i]);
      RunNudges(t, now, ms[i..]).0 == RunNudges(marked, now, ms[i + 1..]).0
      && RunNudges(t, now, ms[i..]).1 == [NudgeFor(t, now, ms[i])] + RunNudges(marked, now, ms[i + 1..]).1
    ensures !Due(t, now, ms[i]) ==> RunNudges(t, now, ms[i..]) == RunNudges(t, now, ms[i + 1..])
  {
    assert ms[i..][0] == ms[i];
    assert ms[i..][1..] == ms[i + 1..];
  }

  /** The loop's invariant survives a milestone that is not due. */
  lemma SkipKeeps(total: (Tables, seq<Nudge>), sent: seq<Nudge>, t: Tables, now: int, ms: seq<Milestone>, i: int)
    requires 0 <= i < |ms| && !Due(t, now, ms[i])
    requires total.0 == RunNudges(t, now, ms[i..]).0 && total.1 == sent + RunNudges(t, now, ms[i..]).1
    ensures total.0 == RunNudges(t, now, ms[i + 1..]).0 && total.1 == sent + RunNudges(t, now, ms[i + 1..]).1
  {
    RunStep(t, now, ms, i);
  }

  /** The loop's invariant survives sending the nudge of a due milestone and marking it. */
  lemma SendKeeps(total: (Tables, seq<Nudge>), sent: seq<Nudge>, t: Tables, now: int, ms: seq<Milestone>, i: int)
    requires 0 <= i < |ms| && Due(t, now, ms[i])
    requires total.0 == RunNudges(t, now, ms[i..]).0 && total.1 == sent + RunNudges(t, now, ms[i..]).1
    ensures var marked := MarkFor(t, now, ms[i]);
      total.0 == RunNudges(marked, now, ms[i + 1..]).0
      && total.1 == (sent + [NudgeFor(t, now, ms[i])]) + RunNudges(marked, now, ms[i + 1..]).1
  {
    RunStep(t, now, ms, i);
    var marked := MarkFor(t, now, ms[i]);
    var nudge := NudgeFor(t, now, ms[i]);
    var rest := RunNudges(marked, now, ms[i + 1..]).1;
    assert sent + ([nudge] + rest) == (sent + [nudge]) + rest;
  }

  /** `send_weekly_deadline_nudges_now` at time `now`; sending is left to the caller,
      which receives the nudges in order. */
  method SendWeeklyDeadlineNudgesNow(db: GymDB, now: int) returns (sent: seq<Nudge>)
    requires db.Valid()
    modifies db
    ensures db.Valid()
    ensures (db.Snapshot(), sent) == RunNudges(old(db.Snapshot()), now, WeeklyMilestones)
  {
    sent := NudgeMilestones(db, now, WeeklyMilestones);
  }

  /** The loop of `send_weekly_deadline_nudges_now` over the milestones `ms`. */
  method NudgeMilestones(db: GymDB, now: int, ms: seq<Milestone>) returns (sent: seq<Nudge>)
    requires db.Valid()
    modifies db
    ensures db.Valid()
    ensures (db.Snapshot(), sent) == RunNudges(old(db.Snapshot()), now, ms)
  {
    ghost var total := RunNudges(db.Snapshot(), now, ms);
    sent := [];
    var i := 0;
    assert ms[i..] == ms;
    assert sent + total.1 == total.1;
    while i < |ms|
      invariant 0 <= i <= |ms|
      invariant db.Valid()
      invariant total.0 == RunNudges(db.Snapshot(), now, ms[i..]).0
      invariant total.1 == sent + RunNudges(db.Snapshot(), now, ms[i..]).1
    {
      ghost var pre := db.Snapshot();
      var nudge := NudgeMilestone(db, now, ms[i]);
      if nudge.Some? {
        SendKeeps(total, sent, pre, now, ms, i);
        sent := sent + [nudge.value];
      } else {
        SkipKeeps(total, sent, pre, now, ms, i);
      }
      i := i + 1;
    }
    assert ms[i..] == [];
    assert sent + [] == sent;
  }

  /** The body-area totals of the seven days before `now`, read from `db`. */
  method PastWeekSummary(db: GymDB, now: int) returns (byArea: Tally)
    ensures byArea == PastWeekAreas(db.Snapshot(), now)
  {
    byArea := db.SummarizeSetsByBodyAreaBetween(now - SecondsPerWeek, now);
  }

  /** One pass of that loop, for milestone `m`: skip it when already marked, before
      its deadline or when enough workouts were logged; otherwise build its nudge
      and mark it. */
  method NudgeMilestone(db: GymDB, now: int, m: Milestone) returns (nudge: Option<Nudge>)
    requires db.Valid()
    modifies db
    ensures db.Valid()
    ensures nudge.Some? <==> Due(old(db.Snapshot()), now, m)
    ensures nudge.Some? ==> nudge.value == NudgeFor(old(db.Snapshot()), now, m)
    ensures db.Snapshot() == if nudge.Some? then MarkFor(old(db.Snapshot()), now, m) else old(db.Snapshot())
  {
    ghost var pre := db.Snapshot();
    var ws := WeekStart(now);
    var wsd := WeekStartDate(now);
    if db.WeeklyNudgeSent(wsd, m.milestone) {
      assert !Due(pre, now, m);
      return None;
    }
    var deadline := Deadline(ws, m);
    if now < deadline {
      assert !Due(pre, now, m);
      return None;
    }
    var completed := db.CountWorkoutsBetween(ws, deadline);
    if completed >= m.required {
      assert !Due(pre, now, m);
      return None;
    }
    var byArea := PastWeekSummary(db, now);
    assert Due(pre, now, m);
    nudge := Some(Nudge(m.milestone, NudgeText(m, byArea)));
    db.MarkWeeklyNudgeSent(wsd, m.milestone, now);
  }
}
