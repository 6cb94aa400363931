/** The tracker object: the stored record `data`, the day shown in the
    daily tracker `currentDay`, and the session timer. Its methods change
    these fields in place, as the page's handlers do. */
module App {
  import opened Util
  import opened Curriculum
  import opened Derivations
  import opened Skills
  import opened Awards
  import opened Progress

  /** The timer object. `startTime` is `None` until the first start; times
      are milliseconds of the clock passed in as `now`. */
  datatype TimerState = TimerState(isRunning: bool, startTime: Option<int>, elapsed: int)

  const IdleTimer := TimerState(false, None, 0)

  class CodingChallengeApp {
    var data: ProgressData
    var currentDay: int
    var timer: TimerState

    /** The record is well formed, the shown day is in 1..100, and a running
        timer has a start time. */
    predicate Valid()
      reads this
    {
      && WellFormed(data)
      && 1 <= currentDay <= 100
      && (timer.isRunning ==> timer.startTime.Some?)
    }

    /** A first start with nothing stored: the default record dated `today`,
        day 1 and an idle timer. */
    constructor (today: string)
      ensures Valid()
      ensures data == DefaultData(today) && currentDay == 1 && timer == IdleTimer
    {
      data := DefaultData(today);
      currentDay := 1;
      timer := IdleTimer;
    }

    /** Sets the day from the start date: the whole days elapsed since it,
        counted from 1 and clamped to 1..100, in both the field and the record. */
    method UpdateCurrentDay(startMs: int, nowMs: int)
      requires Valid()
      modifies this
      ensures Valid()
      ensures currentDay == ClampDay(DaysSinceStart(startMs, nowMs))
      ensures data == old(data).(currentDay := currentDay)
      ensures timer == old(timer)
    {
      var daysDiff := (nowMs - startMs) / MsPerDay + 1;
      currentDay := Min(Max(daysDiff, 1), 100);
      data := data.(currentDay := currentDay);
    }

    /** Moves the shown day by `direction` when the target is in 1..100 and
        otherwise leaves everything as it was. */
    method NavigateDay(direction: int)
      requires Valid()
      modifies this
      ensures Valid()
      ensures currentDay == NavigatedDay(old(currentDay), direction)
      ensures data == old(data) && timer == old(timer)
    {
      var newDay := currentDay + direction;
      if newDay >= 1 && newDay <= 100 {
        currentDay := newDay;
      }
    }

    // ------------------------------------------------------------- timer

    method StartTimer(now: int)
      requires Valid()
      modifies this
      ensures Valid()
      ensures old(timer.isRunning) ==> timer == old(timer)
      ensures !old(timer.isRunning) ==>
                timer == TimerState(true, Some(now - old(timer.elapsed)), old(timer.elapsed))
      ensures data == old(data) && currentDay == old(currentDay)
    {
      if !timer.isRunning {
        timer := timer.(isRunning := true, startTime := Some(now - timer.elapsed));
      }
    }

    /** Stops the timer; the elapsed time keeps its value from the last tick. */
    method PauseTimer()
      requires Valid()
      modifies this
      ensures Valid()
      ensures timer == old(timer).(isRunning := false)
      ensures data == old(data) && currentDay == old(currentDay)
    {
      if timer.isRunning {
        timer := timer.(isRunning := false);
      }
    }

    method ResetTimer()
      requires Valid()
      modifies this
      ensures Valid()
      ensures timer == old(timer).(isRunning := false, elapsed := 0)
      ensures data == old(data) && currentDay == old(currentDay)
    {
      timer := timer.(isRunning := false, elapsed := 0);
    }

    /** A tick: while running, the elapsed time is the clock minus the
        start time; a stopped timer is left alone. */
    method UpdateTimer(now: int)
      requires Valid()
      modifies this
      ensures Valid()
      ensures old(timer.isRunning) ==> timer == old(timer).(elapsed := now - old(timer.startTime.value))
      ensures !old(timer.isRunning) ==> timer == old(timer)
      ensures data == old(data) && currentDay == old(currentDay)
    {
      if timer.isRunning {
        timer := timer.(elapsed := now - timer.startTime.value);
      }
    }

    /** Starting resumes from the elapsed time: a tick `d` after a start adds
        exactly `d`, and after a pause further ticks change nothing. */
    method TimedSession(start: int, d: int, later: int)
      requires Valid() && !timer.isRunning
      modifies this
      ensures Valid() && !timer.isRunning
      ensures timer.elapsed == old(timer.elapsed) + d
      ensures data == old(data) && currentDay == old(currentDay)
    {
      StartTimer(start);
      UpdateTimer(start + d);
      PauseTimer();
      UpdateTimer(later);
    }

    // ---------------------------------------------------- completing a day

    /** Records the day shown, counts it if it is new, and moves on to the
        next day unless it was day 100. */
    method CompleteDay(form: ReflectionForm, completedAt: string)
      requires Valid()
      modifies this
      ensures Valid()
      ensures data == CompleteDaySpec(old(data), old(currentDay), old(timer.elapsed), form, completedAt)
      ensures currentDay == if old(currentDay) < 100 then old(currentDay) + 1 else old(currentDay)
      ensures timer == old(timer)
    {
      var dayProgress := SaveReflection(form, completedAt);
      if currentDay !in data.completedDays {
        UpdateStats(dayProgress.time);
      }
      CompleteDayKeepsWellFormed(old(data), old(currentDay), old(timer.elapsed), form, completedAt);
      // saving the record to storage is not part of this model
      if currentDay < 100 {
        currentDay := currentDay + 1;
      }
    }

    /** The shown day's entry takes the form's inputs, the completion mark and
        date, and the timer's whole minutes. */
    method SaveReflection(form: ReflectionForm, completedAt: string) returns (dayProgress: DayProgress)
      modifies this
      ensures dayProgress == Recorded(ProgressFor(old(data.dailyProgress), currentDay), form, completedAt, TimerMinutes(timer.elapsed))
      ensures data == old(data).(dailyProgress := old(data.dailyProgress)[currentDay := dayProgress])
      ensures currentDay == old(currentDay) && timer == old(timer)
    {
      dayProgress := ProgressFor(data.dailyProgress, currentDay);
      if form.understanding.Some? {
        dayProgress := dayProgress.(understanding := form.understanding);
      }
      if form.challenges.Some? {
        dayProgress := dayProgress.(challenges := form.challenges);
      }
      if form.notes.Some? {
        dayProgress := dayProgress.(notes := form.notes);
      }
      dayProgress := dayProgress.(completed := true, completedDate := Some(completedAt));

      var timerMinutes := timer.elapsed / MsPerMinute;
      dayProgress := dayProgress.(time := dayProgress.time + timerMinutes);
      data := data.(dailyProgress := data.dailyProgress[currentDay := dayProgress]);
    }

    /** The statistics of a day completed for the first time. */
    method UpdateStats(minutes: int)
      requires currentDay >= 1
      requires forall n: SkillName :: n in data.skills
      modifies this
      ensures data == CountNewDay(old(data), currentDay, minutes)
      ensures currentDay == old(currentDay) && timer == old(timer)
    {
      data := data.(completedDays := data.completedDays + [currentDay]);
      data := data.(totalMinutes := data.totalMinutes + minutes);
      UpdateStreak();
      UpdateSkills();
      CheckMilestones();
    }

    /** Counts completed days backward from the shown day. */
    method UpdateStreak()
      requires currentDay >= 1
      modifies this
      ensures data == old(data).(streak := Streak(old(data.completedDays), currentDay))
      ensures currentDay == old(currentDay) && timer == old(timer)
    {
      var streak := 0;
      var i := currentDay;
      while i >= 1
        invariant 0 <= i <= currentDay
        invariant streak + Streak(data.completedDays, i) == Streak(data.completedDays, currentDay)
      {
        if i in data.completedDays {
          streak := streak + 1;
        } else {
          break;
        }
        i := i - 1;
      }
      data := data.(streak := streak);
    }

    method BumpSkill(name: SkillName, inc: nat)
      requires name in data.skills
      modifies this
      ensures data == old(data).(skills := old(data.skills)[name := Bumped(old(data.skills)[name], inc)])
      ensures currentDay == old(currentDay) && timer == old(timer)
    {
      var skill := data.skills[name];
      data := data.(skills := data.skills[name := skill.(level := Min(skill.level + inc, skill.maxLevel))]);
    }

    /** Bumps the skills of the shown day's bucket. */
    method UpdateSkills()
      requires forall n: SkillName :: n in data.skills
      modifies this
      ensures data == old(data).(skills := SkillsAfterDay(old(data.skills), currentDay))
      ensures currentDay == old(currentDay) && timer == old(timer)
    {
      if currentDay <= 25 {
        BumpSkill(HTML, 5);
        BumpSkill(CSS, 5);
        BumpSkill(JavaScript, 3);
      } else if currentDay <= 45 {
        BumpSkill(JavaScript, 7);
        BumpSkill(React, 8);
      } else if currentDay <= 70 {
        BumpSkill(NodeJs, 6);
        BumpSkill(ExpressJs, 6);
        BumpSkill(MongoDB, 5);
      } else {
        BumpSkill(FullStack, 8);
      }
      SkillsAfterDayExt(old(data.skills), currentDay, data.skills);
    }

    /** Walks the milestone table; the shown day's milestone, if its flag is
        unset, is flagged and its XP added. */
    method CheckMilestones()
      modifies this
      ensures var a := MilestonePass(Milestones(), currentDay, Award(old(data.milestones), old(data.totalXP)));
              data == old(data).(milestones := a.flags, totalXP := a.xp)
      ensures currentDay == old(currentDay) && timer == old(timer)
    {
      var table := Milestones();
      var i := 0;
      while i < |table|
        invariant 0 <= i <= |table|
        invariant currentDay == old(currentDay) && timer == old(timer)
        invariant var a := MilestonePass(table[..i], currentDay, Award(old(data.milestones), old(data.totalXP)));
                  data == old(data).(milestones := a.flags, totalXP := a.xp)
      {
        var milestone := table[i];
        if milestone.day == currentDay && !Flagged(data.milestones, milestone.day) {
          data := data.(milestones := data.milestones[milestone.day := true],
                        totalXP := data.totalXP + milestone.xp);
        }
        assert table[..i + 1][..i] == table[..i];
        i := i + 1;
      }
      assert table[..i] == table;
    }

    /** The confirmed reset: the default record dated `today` and day 1; the
        timer is not touched. */
    method ResetProgress(today: string)
      requires Valid()
      modifies this
      ensures Valid()
      ensures data == DefaultData(today) && currentDay == 1
      ensures timer == old(timer)
    {
      data := DefaultData(today);
      currentDay := 1;
    }
  }
}
