/** Skill levels, kept in tenths of a level so that the increments 0.3, 0.5,
    0.6, 0.7 and 0.8 and the cap of 10 levels are exact integers. */
module Skills {
  import opened Util

  datatype SkillName = HTML | CSS | JavaScript | React | NodeJs | ExpressJs | MongoDB | FullStack

  /** `level` and `maxLevel` in tenths. */
  datatype Skill = Skill(level: int, maxLevel: int)

  const MaxLevel := 100

  function DefaultSkills(): map<SkillName, Skill> {
    map[
      HTML := Skill(0, MaxLevel), CSS := Skill(0, MaxLevel),
      JavaScript := Skill(0, MaxLevel), React := Skill(0, MaxLevel),
      NodeJs := Skill(0, MaxLevel), ExpressJs := Skill(0, MaxLevel),
      MongoDB := Skill(0, MaxLevel), FullStack := Skill(0, MaxLevel)
    ]
  }

  /** Every skill is present and lies between 0 and its cap. */
  predicate SkillsWellFormed(m: map<SkillName, Skill>) {
    forall n: SkillName :: n in m && 0 <= m[n].level <= m[n].maxLevel
  }

  /** All eight skills start at level 0 with a cap of 10 levels. */
  lemma DefaultSkillsWellFormed()
    ensures forall n: SkillName :: n in DefaultSkills() && DefaultSkills()[n] == Skill(0, MaxLevel)
    ensures SkillsWellFormed(DefaultSkills())
  {
    forall n: SkillName ensures n in DefaultSkills() && DefaultSkills()[n] == Skill(0, MaxLevel) {
      match n
      case HTML =>
      case CSS =>
      case JavaScript =>
      case React =>
      case NodeJs =>
      case ExpressJs =>
      case MongoDB =>
      case FullStack =>
    }
  }

  /** The increment, in tenths, that completing `day` gives each skill; the
      four buckets end at days 25, 45 and 70. */
  function SkillIncrements(day: int): (inc: map<SkillName, int>)
    ensures forall n :: n in inc ==> inc[n] > 0
  {
    if day <= 25 then map[HTML := 5, CSS := 5, JavaScript := 3]
    else if day <= 45 then map[JavaScript := 7, React := 8]
    else if day <= 70 then map[NodeJs := 6, ExpressJs := 6, MongoDB := 5]
    else map[FullStack := 8]
  }

  /** `Math.min(level + inc, max_level)` */
  function Bumped(s: Skill, inc: int): (r: Skill)
    requires inc >= 0
    ensures r.maxLevel == s.maxLevel
    ensures s.level <= s.maxLevel ==> s.level <= r.level <= r.maxLevel
    ensures r.level == s.level + inc || r.level == s.maxLevel
    ensures r.level <= s.level + inc && r.level <= s.maxLevel
  {
    s.(level := Min(s.level + inc, s.maxLevel))
  }

  /** The skills after completing `day`: the skills of the day's bucket are
      bumped up to their cap, every other skill is left as it was. */
  function SkillsAfterDay(m: map<SkillName, Skill>, day: int): (r: map<SkillName, Skill>)
    ensures r.Keys == m.Keys
    ensures forall n :: n in m && n !in SkillIncrements(day) ==> r[n] == m[n]
    ensures forall n :: n in m && n in SkillIncrements(day) ==>
              r[n].maxLevel == m[n].maxLevel &&
              r[n].level == Min(m[n].level + SkillIncrements(day)[n], m[n].maxLevel)
    ensures SkillsWellFormed(m) ==> SkillsWellFormed(r)
    ensures SkillsWellFormed(m) ==> forall n :: m[n].level <= r[n].level
  {
    var inc := SkillIncrements(day);
    map n | n in m :: if n in inc then Bumped(m[n], inc[n]) else m[n]
  }

  /** A map that bumps exactly the day's skills is the map after the day. */
  lemma SkillsAfterDayExt(m: map<SkillName, Skill>, day: int, r: map<SkillName, Skill>)
    requires r.Keys == m.Keys
    requires forall n :: n in m && n in SkillIncrements(day) ==> r[n] == Bumped(m[n], SkillIncrements(day)[n])
    requires forall n :: n in m && n !in SkillIncrements(day) ==> r[n] == m[n]
    ensures r == SkillsAfterDay(m, day)
  {
  }

  /** A skill bumped `k` times in a row. */
  function BumpedTimes(s: Skill, inc: nat, k: nat): Skill {
    if k == 0 then s else Bumped(BumpedTimes(s, inc, k - 1), inc)
  }

  /** Repeated completions saturate: after `k` bumps a skill that started
      within its cap is at `min(level + k * inc, max)`. */
  lemma {:induction false} BumpedTimesSaturates(s: Skill, inc: nat, k: nat)
    requires 0 <= s.level <= s.maxLevel
    ensures BumpedTimes(s, inc, k).maxLevel == s.maxLevel
    ensures BumpedTimes(s, inc, k).level == Min(s.level + k * inc, s.maxLevel)
  {
    if k > 0 {
      BumpedTimesSaturates(s, inc, k - 1);
      assert k * inc == (k - 1) * inc + inc;
    }
  }
}
