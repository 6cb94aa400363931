/** The milestone check run when a new day is completed: walk the milestone
    table in order and, for the entry whose day is the completed day and
    whose flag is not yet set, set the flag and add its XP. */
module Awards {
  import opened Curriculum

  /** `data.milestones[day]` is truthy. */
  predicate Flagged(flags: map<int, bool>, day: int) {
    day in flags && flags[day]
  }

  /** The two fields the check changes: the flags and the total XP. */
  datatype Award = Award(flags: map<int, bool>, xp: int)

  /** One step of the `forEach`. */
  function AwardStep(a: Award, m: Milestone, day: int): Award {
    if m.day == day && !Flagged(a.flags, m.day) then Award(a.flags[m.day := true], a.xp + m.xp)
    else a
  }

  /** The whole `forEach` over `t`, first entry first. */
  function MilestonePass(t: seq<Milestone>, day: int, a: Award): (r: Award)
    ensures a.xp <= r.xp
    ensures a.flags.Keys <= r.flags.Keys
    ensures forall k :: k in r.flags && k !in a.flags ==> k == day && r.flags[k]
    ensures Flagged(a.flags, day) ==> r == a
    ensures r.xp != a.xp ==> Flagged(r.flags, day) && !Flagged(a.flags, day)
  {
    if t == [] then a else AwardStep(MilestonePass(t[..|t| - 1], day, a), t[|t| - 1], day)
  }

  predicate HasMilestone(t: seq<Milestone>, day: int) {
    exists i :: 0 <= i < |t| && t[i].day == day
  }

  /** The XP of the entries of `t` on `day`: with distinct days, that of the
      one milestone of the day, or 0. */
  function MilestoneXP(t: seq<Milestone>, day: int): nat {
    if t == [] then 0
    else MilestoneXP(t[..|t| - 1], day) + (if t[|t| - 1].day == day then t[|t| - 1].xp else 0)
  }

  lemma {:induction false} MilestoneXPAbsent(t: seq<Milestone>, day: int)
    requires !HasMilestone(t, day)
    ensures MilestoneXP(t, day) == 0
  {
    if t != [] {
      var front := t[..|t| - 1];
      forall i | 0 <= i < |front| ensures front[i].day != day {
        assert front[i] == t[i];
      }
      MilestoneXPAbsent(front, day);
    }
  }

  /** With distinct days the pass awards the day's milestone if there is one
      and its flag is unset, and otherwise changes nothing. */
  lemma {:induction false} MilestonePassResult(t: seq<Milestone>, day: int, a: Award)
    requires DistinctDays(t)
    ensures MilestonePass(t, day, a)
         == if HasMilestone(t, day) && !Flagged(a.flags, day)
            then Award(a.flags[day := true], a.xp + MilestoneXP(t, day))
            else a
  {
    if t != [] {
      var front, last := t[..|t| - 1], t[|t| - 1];
      assert DistinctDays(front);
      MilestonePassResult(front, day, a);
      if last.day == day {
        forall i | 0 <= i < |front| ensures front[i].day != day {
          assert front[i] == t[i];
        }
        MilestoneXPAbsent(front, day);
      } else {
        assert HasMilestone(t, day) == HasMilestone(front, day) by {
          if HasMilestone(t, day) {
            var i :| 0 <= i < |t| && t[i].day == day;
            assert front[i].day == day;
          }
        }
      }
    }
  }

  /** A second pass for the same day awards nothing: each milestone's XP is
      added at most once. */
  lemma MilestonePassOnce(t: seq<Milestone>, day: int, a: Award)
    requires DistinctDays(t)
    ensures MilestonePass(t, day, MilestonePass(t, day, a)) == MilestonePass(t, day, a)
    ensures MilestonePass(t, day, a).xp >= a.xp
  {
    MilestonePassResult(t, day, a);
    MilestonePassResult(t, day, MilestonePass(t, day, a));
  }

  /** The XP of the flagged milestones of `t`. */
  function EarnedXP(t: seq<Milestone>, flags: map<int, bool>): nat {
    if t == [] then 0
    else EarnedXP(t[..|t| - 1], flags) + (if Flagged(flags, t[|t| - 1].day) then t[|t| - 1].xp else 0)
  }

  lemma {:induction false} EarnedXPNone(t: seq<Milestone>)
    ensures EarnedXP(t, map[]) == 0
  {
    if t != [] {
      EarnedXPNone(t[..|t| - 1]);
    }
  }

  /** The earned XP never exceeds the XP of the whole table. */
  lemma {:induction false} EarnedXPBounded(t: seq<Milestone>, flags: map<int, bool>)
    ensures EarnedXP(t, flags) <= TableXP(t)
  {
    if t != [] {
      EarnedXPBounded(t[..|t| - 1], flags);
    }
  }

  /** Setting an unset flag adds exactly that milestone's XP. */
  lemma {:induction false} EarnedXPAfterFlag(t: seq<Milestone>, flags: map<int, bool>, day: int)
    requires !Flagged(flags, day)
    ensures EarnedXP(t, flags[day := true]) == EarnedXP(t, flags) + MilestoneXP(t, day)
  {
    if t != [] {
      EarnedXPAfterFlag(t[..|t| - 1], flags, day);
    }
  }
}
