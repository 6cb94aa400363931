# 100 Days of Code tracker — progress-state model

This project models the progress logic of the browser tracker for a fixed
100-day coding curriculum, the `CodingChallengeApp` class of `app.js`, with
the page rendering removed. The tracker keeps three pieces of state:

- a stored record `data`, holding:
  - the completed days and per-day entries;
  - the streak;
  - the skill levels;
  - the milestone flags;
  - the total XP and the total time;
- the day shown in the daily tracker, `currentDay`;
- a session timer.

Its handlers change this state in place:

- completing a day;
- moving between days;
- setting the day from the start date;
- starting, pausing, resetting and ticking the timer;
- resetting all progress.

The dashboard and progress views derive these values from the state:

- the current phase;
- the level and the XP inside it;
- the streak;
- the per-phase completed counts;
- the calendar cells.

Module layout:

- `Util` (util.dfy): `Option`, duplicate-freedom, `Min`/`Max`, and the decimal rendering of an integer (used in day texts), with its parse-back.
- `Curriculum` (curriculum.dfy): the constant tables. These are the five phases, the phase table of the progress view, the milestone table, the sample day entries with their fallback, and the default projects.
- `Derivations` (derivations.dfy): the derived values. These are the level math, the streak, the per-phase counts and the calendar classification.
- `Skills` (skills.dfy): skill levels and the per-completion bump.
- `Awards` (awards.dfy): the milestone check as a fold over the milestone table, and the XP earned by a set of flags.
- `Progress` (progress.dfy): the record and its defaults. Also:
  - the invariant `WellFormed` that every reachable record keeps;
  - completing a day, stated as a function `CompleteDaySpec` of the record before;
  - the day clamp and the navigation step.
- `App` (app.dfy): the class `CodingChallengeApp`, whose fields `data`, `currentDay` and `timer` its methods update in place. Each method is proved against the functions above.

Units are chosen to keep every quantity an integer:

- `totalHours` becomes `totalMinutes`: the day's whole minutes are added instead of their fraction of an hour.
- Skill levels are in tenths of a level. The increments 0.3, 0.5, 0.6, 0.7 and 0.8 become 3, 5, 6, 7 and 8, and the cap of 10 becomes 100.
- The clock is an explicit millisecond parameter (`now`, `startMs`, `nowMs`).
- Date strings (`today`, `completedAt`) are parameters.

The record invariant `WellFormed` contains `totalXP == EarnedXP(Milestones(), milestones)`. The total XP is exactly the sum over the flagged milestones, so a milestone's XP cannot be paid twice.

The handlers keep `Valid()`, which includes `WellFormed`. These are the constructor, `UpdateCurrentDay`, `NavigateDay`, the four timer methods, `TimedSession`, `CompleteDay` and `ResetProgress`.

Six methods are internal steps of `CompleteDay`: `SaveReflection`, `UpdateStats`, `UpdateStreak`, `BumpSkill`, `UpdateSkills` and `CheckMilestones`. They neither require nor ensure the invariant, and between them the record may briefly break it. Only the state `CompleteDay` ends in is required to satisfy it.

How the code behaves:

- Completing a day rewrites its entry, adds the timer's whole minutes to the entry's time, and advances the shown day below day 100. This happens even when the day was already completed. In that case the counted statistics stay unchanged (`CompleteRepeatedDay`). Completing the same day twice gives the same record as completing it once when the timer holds less than a minute (`CompleteDayIdempotent`).
- XP comes only from milestones. Nothing is awarded per completed day, per task or per timer session.
- The milestone check looks only at the day being completed.
- The streak is counted backward from the shown day and stops at the first day that is not completed.
- The phases are 25, 20, 25, 20 and 10 days long.
- `getDayData` gives an unlisted day a generic placeholder that names the day.
- The stored record is parsed with `JSON.parse` and no fallback, so malformed stored data throws. Loading is not part of this model.

## Model

| member | source | states |
|---|---|---|
| Util.NatToStringRoundTrip | app.js:372 | reading back the digits of a day number gives the number |
| Util.IntToStringRoundTrip | app.js:372 | reading back the decimal text of any integer, with its minus sign, gives the integer |
| Util.IntToStringInjective | app.js:372 | two integers with the same decimal text are equal |
| Curriculum.CurrentPhase | app.js:287-293 | duration is end − start + 1 ≥ 1; for a day in 1..100 the phase contains the day and the day's position in it is in 1..duration |
| Curriculum.PhaseTableTiles | app.js:632-638 | the five rows of the progress table tile 1..100 left to right, each row starting the day after the previous one ends |
| Curriculum.TilesOrdered | app.js:632-638 | in a tiling, a later row starts after an earlier row ends |
| Curriculum.TilesCover | app.js:632-638 | every day of a tiled range lies in some row |
| Curriculum.TilesPartition | app.js:632-638 | every day of a tiled range lies in exactly one row: no gap and no overlap |
| Curriculum.PhaseLookupAgrees | app.js:287-293 | for every day of 1..100, the dashboard's phase lookup returns the start, end and name of the one progress-table row containing the day |
| Curriculum.MilestoneTableFacts | app.js:571-584 | the milestone days are distinct and in 1..100, and the table's XP adds up to 7850 |
| Curriculum.DayData | app.js:357-378 | a listed day or the placeholder: three subtopics, 2..5 estimated hours, and one of the four difficulty labels |
| Curriculum.FramedDayInjective | app.js:372 | a day number between fixed texts determines the day |
| Curriculum.DayDataFallbackDistinct | app.js:371-377 | two distinct unlisted days get placeholders whose topics differ and whose projects differ |
| Derivations.Level | app.js:251 | the level is at least 1 for non-negative XP, and XP lies in [(level − 1)·1000, level·1000) |
| Derivations.XpInLevel | app.js:252 | for non-negative XP, the remainder is in 0..999 and (level − 1)·1000 + remainder = XP; for negative XP it follows JavaScript's sign-of-dividend rule, lying in (−1000, 0] |
| Derivations.Streak | app.js:528-539 | the backward scan: never above the day, and positive only when the day itself is completed; `StreakCharacterised` and `StreakUnique` pin it down exactly |
| Derivations.StreakCharacterised | app.js:528-539 | streak ≤ day; every day of the run ending at `day` is completed; the day before the run is day 0 or not completed; the streak is 0 exactly when the day is 0 or not completed |
| Derivations.StreakUnique | app.js:528-539 | any count meeting that characterisation is the streak |
| Derivations.StreakOfSameDays | app.js:532 | the streak depends only on which days are completed, not on their order or repeats |
| Derivations.CompletedInPhase | app.js:644 | the filter count is at most the number of completed entries |
| Derivations.DayRange | app.js:645 | the set of days start..end has end − start + 1 members |
| Derivations.CountIsDistinctDays | app.js:644 | without duplicates, the filter count equals the number of distinct completed days in the range |
| Derivations.CompletedInPhaseBound | app.js:644-645 | with duplicate-free days, completedInPhase ≤ totalInPhase |
| Derivations.CompletedInPhaseSplit | app.js:644 | counting over two adjacent ranges is counting over their union |
| Derivations.CompletedInPhaseAll | app.js:644 | when every completed day is in the range, all of them are counted |
| Derivations.CountsOverTiling | app.js:643-644 | over rows that tile lo..hi, the per-row counts add up to the count over lo..hi |
| Derivations.PhaseCountsSum | app.js:631-646 | with every completed day in 1..100, the five phase counts add up to the number of completed days |
| Derivations.CellClass | app.js:618-623 | a cell is completed exactly when its day is completed, and current exactly when it is the shown day and not completed |
| Derivations.Calendar | app.js:617-626 | 100 cells; cell d is completed exactly when day d is completed, and current exactly when d is the shown day and not completed |
| Derivations.CalendarPrefix | app.js:617-626 | the first n cells hold one current cell exactly when the shown day is among them and not completed, and hold one completed cell per distinct completed day in 1..n |
| Derivations.CalendarCounts | app.js:617-626 | at most one cell is current; the completed cells number the distinct completed days in 1..100, which is all completed days when they are duplicate-free and in range |
| Skills.DefaultSkillsWellFormed | app.js:54-63 | all eight skills are present at level 0 with a cap of 10 levels (100 tenths), so the defaults are well formed |
| Skills.SkillIncrements | app.js:543-557 | every increment of a day's bucket is positive |
| Skills.Bumped | app.js:545 | the cap is kept; a skill within its cap does not decrease; the new level is at most level + increment and at most the cap, and equals one of them: min(level + increment, cap) |
| Skills.SkillsAfterDay | app.js:541-558 | same skills; skills outside the day's bucket unchanged; bucket skills at min(level + increment, cap); well-formedness kept; no level decreases |
| Skills.SkillsAfterDayExt | app.js:541-558 | a map that bumps exactly the day's skills is the map after the day |
| Skills.BumpedTimesSaturates | app.js:545 | after k completions a skill is at min(level + k·increment, cap) |
| Awards.MilestonePass | app.js:560-569 | the forEach never lowers the XP and never removes a flag; it adds at most the flag of `day`; it changes nothing once `day` is flagged; and it raises the XP only when it sets that flag; `MilestonePassResult` gives its exact result |
| Awards.MilestoneXPAbsent | app.js:563 | a day with no milestone carries no milestone XP |
| Awards.MilestonePassResult | app.js:560-569 | with distinct milestone days, the pass sets the day's flag and adds its milestone's XP if it has a milestone and the flag is unset; otherwise it changes nothing |
| Awards.MilestonePassOnce | app.js:560-569 | a second pass for the same day awards nothing, and a pass never lowers the XP |
| Awards.EarnedXPNone | app.js:64 | no flags earn no XP |
| Awards.EarnedXPBounded | app.js:571-584 | the XP of the flagged milestones never exceeds the table's XP |
| Awards.EarnedXPAfterFlag | app.js:564-565 | setting an unset flag adds exactly that day's milestone XP |
| Progress.DefaultData | app.js:42-107 | the default record is well formed, with no completed days, zero XP, zero streak and day 1 |
| Progress.WellFormedXPBounds | app.js:251 | a well-formed record has XP in 0..7850 and level in 1..8 |
| Progress.TimerMinutes | app.js:503 | the whole minutes m of the elapsed time satisfy m·60000 ≤ elapsed < (m + 1)·60000 |
| Progress.Recorded | app.js:488-504 | the entry is marked completed at the given date, keeps its tasks, and its time grows by the minutes |
| Progress.RecordedAgain | app.js:488-504 | recording the same form again with no new minutes leaves the entry unchanged |
| Progress.CountNewDay | app.js:509-515 | the day is added, the list grows by one, the streak of a day ≥ 1 is at least 1, the XP does not drop, and the day entries are untouched |
| Progress.CompleteDaySpec | app.js:487-515 | afterwards the completed days are the old ones plus `day`; the day's entry exists and is completed; the entries' keys gain only `day`; the XP does not drop; `CompleteNewDay`, `CompleteRepeatedDay` and `CompleteDayKeepsWellFormed` give the rest |
| Progress.CompleteNewDay | app.js:509-515 | for a new day: it is appended, the days stay duplicate-free, the streak is in 1..day, the XP grows by exactly the day's milestone XP, only that flag is set, and the total time grows by the day's time |
| Progress.CompleteRepeatedDay | app.js:487-515 | for a completed day: only the day's entry changes; it is marked completed and its time grows by elapsed / 60000 |
| Progress.CompleteDayIdempotent | app.js:503-515 | with under a minute on the timer, completing the same day twice equals completing it once |
| Progress.CompleteDayKeepsWellFormed | app.js:487-515 | completing any day of 1..100 keeps the record invariant, including total XP = XP of the flagged milestones |
| Progress.DaysSinceStart | app.js:117 | n is the day the instant falls on: (n − 1) days ≤ now − start < n days |
| Progress.ClampDay | app.js:118 | the result is in 1..100 and equals the day when the day is already in range, 1 below, 100 above |
| Progress.NavigatedDay | app.js:380-386 | the result stays in 1..100, and is either the old day or old day + direction; it is the latter whenever that is in range |
| App.CodingChallengeApp.constructor | app.js:3-14 | a fresh tracker: the default record, day 1, an idle timer |
| App.CodingChallengeApp.UpdateCurrentDay | app.js:114-120 | the shown day becomes the clamped day since the start, copied into the record; nothing else changes |
| App.CodingChallengeApp.NavigateDay | app.js:380-386 | the shown day moves only when the target is in 1..100; record and timer unchanged |
| App.CodingChallengeApp.StartTimer | app.js:424-435 | starting a running timer changes nothing; otherwise it runs from now − elapsed |
| App.CodingChallengeApp.PauseTimer | app.js:437-447 | the timer stops, keeping its elapsed time; pausing a stopped timer changes nothing |
| App.CodingChallengeApp.ResetTimer | app.js:449-461 | the timer is stopped with zero elapsed |
| App.CodingChallengeApp.UpdateTimer | app.js:463-476 | a tick sets the elapsed time to now − start only while running |
| App.CodingChallengeApp.TimedSession | app.js:424-476 | start, a tick d later, pause and any further tick add exactly d to the elapsed time |
| App.CodingChallengeApp.CompleteDay | app.js:487-526 | the record becomes `CompleteDaySpec` of the old record, day and elapsed time; the invariant is kept; the day advances unless it is 100; the timer is untouched |
| App.CodingChallengeApp.SaveReflection | app.js:488-506 | the day's entry takes the form's fields, the completion mark and date, and the timer's whole minutes |
| App.CodingChallengeApp.UpdateStats | app.js:509-515 | a new day's statistics become `CountNewDay` of the record |
| App.CodingChallengeApp.UpdateStreak | app.js:528-539 | the backward-scan loop stores `Streak` of the completed days at the shown day |
| App.CodingChallengeApp.BumpSkill | app.js:545 | one skill is raised by the increment up to its cap |
| App.CodingChallengeApp.UpdateSkills | app.js:541-558 | the skills become `SkillsAfterDay` of the shown day |
| App.CodingChallengeApp.CheckMilestones | app.js:560-569 | the forEach over the milestone table leaves flags and XP as `MilestonePass` gives them |
| App.CodingChallengeApp.ResetProgress | app.js:835-844 | the confirmed reset: the default record and day 1; the timer is untouched |

## Left out

- Page rendering and event wiring are not modelled. This covers the `render*` methods, `switchView`, `showToast`, `showAchievement`, `applyTheme`, `setupEventListeners`, `setupSettings` and the form filling of `loadDailyProgress`.
- `updateTaskProgress` is not modelled. It copies checkbox states read from the page into the day's `tasks` map.
- Persistence is not modelled. `loadData` and `saveData` read and write browser storage through JSON, and saving is treated as a no-op. The stored-data branch of `loadData` is not modelled: the tracker starts from the default record.
- `exportData` is not modelled, because it is browser file download.
- The `setInterval`/`setTimeout` scheduling is not modelled. Ticks are explicit `UpdateTimer(now)` calls, and the interval handle is not a field of `TimerState`.
- Date handling is not modelled. The start date string, `new Date()` and `toISOString()` become millisecond and string parameters.
- The radar chart drawn with Chart.js is not modelled.
- The timer display text is not modelled.
- Floating point is replaced by integers:
  - `totalHours` is kept as whole minutes;
  - skill levels are kept in tenths;
  - the progress-bar percentages and ring offsets are not modelled.
- `confirm()` in `resetProgress` is not modelled: only the confirmed branch is.
- `currentView` is not modelled, because it only selects what is displayed.
- App.CodingChallengeApp.CompleteDay: the day entry is rebuilt as a new value, so the aliasing between the edited object and the stored entry is not captured. Persisting it afterwards would store the same value.
- An invalid start date is not modelled. `startMs` and `nowMs` are integers. In the source, a start date that does not parse (such as the empty value left by clearing the date input at app.js:167-168) makes `daysDiff` NaN at app.js:117. `Math.max`/`Math.min` pass NaN through, so `currentDay` and `data.currentDay` become NaN, outside 1..100. The model excludes this case.
