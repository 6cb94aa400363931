/** The stored progress record, its defaults, the invariant every reachable
    record keeps, and the effect of completing a day on the record, stated
    as a function of the record before. */
module Progress {
  import opened Util
  import opened Curriculum
  import opened Derivations
  import opened Skills
  import opened Awards

  /** The per-day entry of `dailyProgress`. An absent text field is `None`;
      an absent `time` reads as 0 minutes. */
  datatype DayProgress = DayProgress(
    tasks: map<string, bool>,
    understanding: Option<string>,
    challenges: Option<string>,
    notes: Option<string>,
    completed: bool,
    completedDate: Option<string>,
    time: int)

  /** `{ tasks: {} }`, the entry used for a day that has none yet. */
  const FreshDayProgress := DayProgress(map[], None, None, None, false, None, 0)

  /** The reflection inputs read on completion; `None` where the page lacks
      the input element. */
  datatype ReflectionForm = ReflectionForm(
    understanding: Option<string>,
    challenges: Option<string>,
    notes: Option<string>)

  /** The record kept under the storage key. `totalMinutes` stands for
      `totalHours` (hours as a fraction); skill levels are in tenths. */
  datatype ProgressData = ProgressData(
    startDate: string,
    currentDay: int,
    dailyGoal: int,
    totalXP: int,
    level: int,
    streak: int,
    totalMinutes: int,
    theme: string,
    completedDays: seq<int>,
    dailyProgress: map<int, DayProgress>,
    skills: map<SkillName, Skill>,
    milestones: map<int, bool>,
    projects: seq<Project>)

  predicate InDayRange(days: seq<int>) {
    forall i :: 0 <= i < |days| ==> 1 <= days[i] <= 100
  }

  /** What every record the tracker produces satisfies: the stored day is in
      1..100; completed days are distinct, in range and recorded as
      completed; the streak is at most 100; every skill is present and
      within its cap; a milestone is flagged only for a completed day; and
      the total XP is exactly the XP of the flagged milestones, so no
      milestone is paid twice. */
  predicate WellFormed(d: ProgressData) {
    && 1 <= d.currentDay <= 100
    && NoDup(d.completedDays)
    && InDayRange(d.completedDays)
    && (forall k :: k in d.completedDays ==> k in d.dailyProgress && d.dailyProgress[k].completed)
    && 0 <= d.streak <= 100
    && SkillsWellFormed(d.skills)
    && (forall k :: k in d.milestones ==> d.milestones[k] && k in d.completedDays)
    && d.totalXP == EarnedXP(Milestones(), d.milestones)
  }

  /** The record of a first start; `today` is the start date the clock gives. */
  function DefaultData(today: string): (d: ProgressData)
    ensures WellFormed(d)
    ensures d.completedDays == [] && d.totalXP == 0 && d.streak == 0 && d.currentDay == 1
  {
    DefaultSkillsWellFormed();
    EarnedXPNone(Milestones());
    ProgressData(
      startDate := today,
      currentDay := 1,
      dailyGoal := 2,
      totalXP := 0,
      level := 1,
      streak := 0,
      totalMinutes := 0,
      theme := "system",
      completedDays := [],
      dailyProgress := map[],
      skills := DefaultSkills(),
      milestones := map[],
      projects := DefaultProjects())
  }

  /** A record whose XP is that of its flagged milestones is worth at most
      the 7850 XP of the table, hence at most level 8. */
  lemma WellFormedXPBounds(d: ProgressData)
    requires WellFormed(d)
    ensures 0 <= d.totalXP <= 7850
    ensures 1 <= Level(d.totalXP) <= 8
  {
    EarnedXPBounded(Milestones(), d.milestones);
    MilestoneTableFacts();
  }

  // ------------------------------------------------------- completing a day

  const MsPerMinute := 60000

  /** `Math.floor(elapsed / 60000)`: the whole minutes of an elapsed time. */
  function TimerMinutes(elapsed: int): (m: int)
    ensures m * MsPerMinute <= elapsed < (m + 1) * MsPerMinute
  {
    elapsed / MsPerMinute
  }

  function ProgressFor(dailyProgress: map<int, DayProgress>, day: int): DayProgress {
    if day in dailyProgress then dailyProgress[day] else FreshDayProgress
  }

  /** The day's entry after completion: the reflection inputs that exist are
      copied in, it is marked completed at `completedAt`, and the timer's
      whole minutes are added to its time. */
  function Recorded(dp: DayProgress, form: ReflectionForm, completedAt: string, minutes: int): (r: DayProgress)
    ensures r.completed && r.completedDate == Some(completedAt)
    ensures r.tasks == dp.tasks && r.time == dp.time + minutes
  {
    dp.(
      understanding := if form.understanding.Some? then form.understanding else dp.understanding,
      challenges := if form.challenges.Some? then form.challenges else dp.challenges,
      notes := if form.notes.Some? then form.notes else dp.notes,
      completed := true,
      completedDate := Some(completedAt),
      time := dp.time + minutes)
  }

  /** Recording the same form again with no new minutes changes nothing. */
  lemma RecordedAgain(dp: DayProgress, form: ReflectionForm, completedAt: string, minutes: int)
    ensures var once := Recorded(dp, form, completedAt, minutes);
      Recorded(once, form, completedAt, 0) == once
  {
  }

  /** The statistics of a day completed for the first time, whose entry
      holds `minutes`: the day is appended, its minutes added to the total,
      the streak ending at it recomputed, the skills of its bucket bumped and
      the milestone check run. */
  function CountNewDay(d: ProgressData, day: int, minutes: int): (r: ProgressData)
    ensures day in r.completedDays && |r.completedDays| == |d.completedDays| + 1
    ensures day >= 1 ==> r.streak >= 1
    ensures r.totalXP >= d.totalXP
    ensures r.dailyProgress == d.dailyProgress && r.startDate == d.startDate
  {
    var days := d.completedDays + [day];
    var award := MilestonePass(Milestones(), day, Award(d.milestones, d.totalXP));
    d.(
      completedDays := days,
      totalMinutes := d.totalMinutes + minutes,
      streak := Streak(days, day),
      skills := SkillsAfterDay(d.skills, day),
      milestones := award.flags,
      totalXP := award.xp)
  }

  /** The record after completing `day` with `elapsed` milliseconds on the
      timer. The day's entry is always updated; only a day not completed
      before is counted. */
  function CompleteDaySpec(d: ProgressData, day: int, elapsed: int, form: ReflectionForm, completedAt: string): (r: ProgressData)
    ensures forall k :: k in r.completedDays <==> k in d.completedDays || k == day
    ensures day in r.dailyProgress && r.dailyProgress[day].completed
    ensures r.dailyProgress.Keys == d.dailyProgress.Keys + {day}
    ensures r.totalXP >= d.totalXP
  {
    var dp := Recorded(ProgressFor(d.dailyProgress, day), form, completedAt, TimerMinutes(elapsed));
    var logged := d.(dailyProgress := d.dailyProgress[day := dp]);
    if day in d.completedDays then logged else CountNewDay(logged, day, dp.time)
  }

  /** Completing a new day: it is appended once, the streak ending at it is
      at least 1, the day's milestone (if any) is flagged and its XP added,
      and nothing else is added to the XP. */
  lemma CompleteNewDay(d: ProgressData, day: int, elapsed: int, form: ReflectionForm, completedAt: string)
    requires WellFormed(d) && 1 <= day <= 100
    requires day !in d.completedDays
    ensures var r := CompleteDaySpec(d, day, elapsed, form, completedAt);
      && r.completedDays == d.completedDays + [day]
      && NoDup(r.completedDays)
      && 1 <= r.streak <= day
      && r.streak == Streak(r.completedDays, day)
      && r.totalXP == d.totalXP + MilestoneXP(Milestones(), day)
      && r.milestones == (if HasMilestone(Milestones(), day) then d.milestones[day := true] else d.milestones)
      && r.totalMinutes == d.totalMinutes + r.dailyProgress[day].time
  {
    var r := CompleteDaySpec(d, day, elapsed, form, completedAt);
    NoDupAppend(d.completedDays, day);
    StreakCharacterised(r.completedDays, day);
    MilestoneTableFacts();
    MilestonePassResult(Milestones(), day, Award(d.milestones, d.totalXP));
    if !HasMilestone(Milestones(), day) {
      MilestoneXPAbsent(Milestones(), day);
    }
  }

  /** Completing a day again changes only that day's entry, whose time grows
      by the timer's whole minutes. */
  lemma CompleteRepeatedDay(d: ProgressData, day: int, elapsed: int, form: ReflectionForm, completedAt: string)
    requires day in d.completedDays
    ensures var r := CompleteDaySpec(d, day, elapsed, form, completedAt);
      && r == d.(dailyProgress := r.dailyProgress)
      && r.dailyProgress.Keys == d.dailyProgress.Keys + {day}
      && (forall k :: k in d.dailyProgress && k != day ==> r.dailyProgress[k] == d.dailyProgress[k])
      && r.dailyProgress[day].time == ProgressFor(d.dailyProgress, day).time + elapsed / MsPerMinute
      && r.dailyProgress[day].completed
  {
  }

  /** With less than a minute on the timer, completing the same day twice
      gives the same record as completing it once. */
  lemma CompleteDayIdempotent(d: ProgressData, day: int, elapsed: int, form: ReflectionForm, completedAt: string)
    requires 0 <= elapsed < MsPerMinute
    ensures var once := CompleteDaySpec(d, day, elapsed, form, completedAt);
      CompleteDaySpec(once, day, elapsed, form, completedAt) == once
  {
  }

  /** Completing any day of 1..100 keeps the record well formed. */
  lemma CompleteDayKeepsWellFormed(d: ProgressData, day: int, elapsed: int, form: ReflectionForm, completedAt: string)
    requires WellFormed(d) && 1 <= day <= 100
    ensures WellFormed(CompleteDaySpec(d, day, elapsed, form, completedAt))
  {
    var r := CompleteDaySpec(d, day, elapsed, form, completedAt);
    if day !in d.completedDays {
      CompleteNewDay(d, day, elapsed, form, completedAt);
      assert InDayRange(r.completedDays) by {
        forall i | 0 <= i < |r.completedDays| ensures 1 <= r.completedDays[i] <= 100 {
          if i < |d.completedDays| {
            assert r.completedDays[i] == d.completedDays[i];
          }
        }
      }
      assert !Flagged(d.milestones, day);
      if HasMilestone(Milestones(), day) {
        EarnedXPAfterFlag(Milestones(), d.milestones, day);
      } else {
        MilestoneXPAbsent(Milestones(), day);
      }
    }
  }

  // ------------------------------------------------------ day navigation

  const MsPerDay := 86400000

  /** `Math.floor((today - startDate) / 86400000) + 1`: the day of the
      challenge `nowMs` falls on, counting the start day as day 1. */
  function DaysSinceStart(startMs: int, nowMs: int): (n: int)
    ensures (n - 1) * MsPerDay <= nowMs - startMs < n * MsPerDay
  {
    (nowMs - startMs) / MsPerDay + 1
  }

  /** `Math.min(Math.max(daysDiff, 1), 100)` */
  function ClampDay(daysDiff: int): (r: int)
    ensures 1 <= r <= 100
    ensures 1 <= daysDiff <= 100 ==> r == daysDiff
    ensures daysDiff < 1 ==> r == 1
    ensures daysDiff > 100 ==> r == 100
  {
    Min(Max(daysDiff, 1), 100)
  }

  /** The day after a step of `direction`: the step is taken only when it
      lands in 1..100. */
  function NavigatedDay(day: int, direction: int): (r: int)
    ensures 1 <= day <= 100 ==> 1 <= r <= 100
    ensures r == day || r == day + direction
    ensures 1 <= day + direction <= 100 ==> r == day + direction
  {
    var target := day + direction;
    if 1 <= target <= 100 then target else day
  }
}
