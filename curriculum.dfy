/** The static curriculum the tracker reads: the five phases of the hundred
    days, the milestone table, the sample day entries with their generic
    fallback, and the five projects of a fresh record. */
module Curriculum {
  import opened Util

  // ---------------------------------------------------------------- phases

  /** What the dashboard shows about the phase of a day. */
  datatype PhaseInfo = PhaseInfo(
    name: string,
    description: string,
    startDay: int,
    endDay: int,
    duration: int)

  const Phase1Name := "Phase 1: Web Fundamentals"
  const Phase2Name := "Phase 2: Advanced Frontend"
  const Phase3Name := "Phase 3: Backend & APIs"
  const Phase4Name := "Phase 4: Full-Stack Integration"
  const Phase5Name := "Phase 5: Advanced Topics & Portfolio"

  const Phase1 := PhaseInfo(Phase1Name, "HTML, CSS, JavaScript basics, responsive design", 1, 25, 25)
  const Phase2 := PhaseInfo(Phase2Name, "ES6+, DOM manipulation, React fundamentals", 26, 45, 20)
  const Phase3 := PhaseInfo(Phase3Name, "Node.js, Express, databases, API development", 46, 70, 25)
  const Phase4 := PhaseInfo(Phase4Name, "MERN stack projects, authentication, deployment", 71, 90, 20)
  const Phase5 := PhaseInfo(Phase5Name, "Advanced concepts, optimization, portfolio completion", 91, 100, 10)

  /** The phase lookup of the dashboard: the first phase whose end is not
      before `day`; anything past day 90 falls into the last phase. */
  function CurrentPhase(day: int): (p: PhaseInfo)
    ensures p.duration == p.endDay - p.startDay + 1 >= 1
    ensures 1 <= day <= 100 ==> p.startDay <= day <= p.endDay
    ensures 1 <= day <= 100 ==> 1 <= day - p.startDay + 1 <= p.duration
  {
    if day <= 25 then Phase1
    else if day <= 45 then Phase2
    else if day <= 70 then Phase3
    else if day <= 90 then Phase4
    else Phase5
  }

  /** A row of the phase table of the progress view. */
  datatype PhaseRow = PhaseRow(name: string, days: string, start: int, end: int)

  function PhaseTable(): seq<PhaseRow> {
    [ PhaseRow(Phase1Name, "1-25", 1, 25),
      PhaseRow(Phase2Name, "26-45", 26, 45),
      PhaseRow(Phase3Name, "46-70", 46, 70),
      PhaseRow(Phase4Name, "71-90", 71, 90),
      PhaseRow(Phase5Name, "91-100", 91, 100) ]
  }

  predicate Contains(r: PhaseRow, day: int) {
    r.start <= day <= r.end
  }

  /** The rows cover `lo..hi` left to right, each non-empty, each starting
      the day after its predecessor ends. */
  predicate Tiles(t: seq<PhaseRow>, lo: int, hi: int) {
    && |t| > 0
    && t[0].start == lo
    && t[|t| - 1].end == hi
    && (forall i :: 0 <= i < |t| ==> t[i].start <= t[i].end)
    && (forall i :: 0 <= i < |t| - 1 ==> t[i + 1].start == t[i].end + 1)
  }

  lemma PhaseTableTiles()
    ensures Tiles(PhaseTable(), 1, 100)
  {
  }

  /** In a tiling, a row ends before every later row starts. */
  lemma {:induction false} TilesOrdered(t: seq<PhaseRow>, lo: int, hi: int, i: int, j: int)
    requires Tiles(t, lo, hi)
    requires 0 <= i < j < |t|
    ensures t[i].end < t[j].start
    decreases j - i
  {
    if j > i + 1 {
      TilesOrdered(t, lo, hi, i, j - 1);
    }
  }

  /** In a tiling, a day in range belongs to some row. */
  lemma {:induction false} TilesCover(t: seq<PhaseRow>, lo: int, hi: int, day: int)
    requires Tiles(t, lo, hi)
    requires lo <= day <= hi
    ensures exists i :: 0 <= i < |t| && Contains(t[i], day)
    decreases |t|
  {
    var last := |t| - 1;
    if day >= t[last].start {
      assert Contains(t[last], day);
    } else {
      assert last > 0;
      var front := t[..last];
      assert Tiles(front, lo, t[last - 1].end);
      TilesCover(front, lo, t[last - 1].end, day);
      var i :| 0 <= i < |front| && Contains(front[i], day);
      assert Contains(t[i], day);
    }
  }

  /** Every day of a tiled range lies in exactly one row. */
  lemma TilesPartition(t: seq<PhaseRow>, lo: int, hi: int, day: int)
    requires Tiles(t, lo, hi)
    requires lo <= day <= hi
    ensures exists i :: 0 <= i < |t| && Contains(t[i], day)
    ensures forall i, j :: 0 <= i < |t| && 0 <= j < |t| && Contains(t[i], day) && Contains(t[j], day) ==> i == j
  {
    TilesCover(t, lo, hi, day);
    forall i, j | 0 <= i < |t| && 0 <= j < |t| && Contains(t[i], day) && Contains(t[j], day)
      ensures i == j
    {
      if i < j {
        TilesOrdered(t, lo, hi, i, j);
      } else if j < i {
        TilesOrdered(t, lo, hi, j, i);
      }
    }
  }

  /** The dashboard lookup and the progress table agree: the phase returned
      for a day is the one table row that contains it. */
  lemma PhaseLookupAgrees(day: int)
    requires 1 <= day <= 100
    ensures exists i :: 0 <= i < |PhaseTable()| && Contains(PhaseTable()[i], day)
    ensures forall i :: 0 <= i < |PhaseTable()| && Contains(PhaseTable()[i], day) ==>
              && PhaseTable()[i].start == CurrentPhase(day).startDay
              && PhaseTable()[i].end == CurrentPhase(day).endDay
              && PhaseTable()[i].name == CurrentPhase(day).name
  {
    PhaseTableTiles();
    TilesPartition(PhaseTable(), 1, 100, day);
  }

  // ------------------------------------------------------------ milestones

  datatype Milestone = Milestone(name: string, day: int, description: string, badge: string, xp: nat)

  /** The milestone table, in the order the completion check walks it. */
  function Milestones(): seq<Milestone> {
    [ Milestone("Week 1 Champion", 7, "Complete first week of HTML/CSS", "🏆", 100),
      Milestone("JavaScript Explorer", 20, "Master JavaScript fundamentals", "🔍", 200),
      Milestone("Frontend Warrior", 25, "Complete Phase 1 - Web Fundamentals", "⚔️", 500),
      Milestone("React Ninja", 40, "Master React fundamentals", "🥷", 300),
      Milestone("Frontend Master", 45, "Complete Phase 2 - Advanced Frontend", "🎯", 750),
      Milestone("Backend Explorer", 55, "Learn Node.js and databases", "🚀", 400),
      Milestone("API Architect", 65, "Build complete APIs", "🏗️", 600),
      Milestone("Backend Master", 70, "Complete Phase 3 - Backend & APIs", "🛡️", 1000),
      Milestone("Full-Stack Hero", 85, "Deploy complete MERN application", "🦸", 800),
      Milestone("Integration Expert", 90, "Complete Phase 4 - Full-Stack Integration", "🔗", 1200),
      Milestone("Code Master", 100, "Complete 100 Days of Code Challenge!", "👑", 2000) ]
  }

  predicate DistinctDays(t: seq<Milestone>) {
    forall i, j :: 0 <= i < j < |t| ==> t[i].day != t[j].day
  }

  /** All milestone XP together. */
  function TableXP(t: seq<Milestone>): nat {
    if t == [] then 0 else TableXP(t[..|t| - 1]) + t[|t| - 1].xp
  }

  lemma MilestoneTableFacts()
    ensures DistinctDays(Milestones())
    ensures forall i :: 0 <= i < |Milestones()| ==> 1 <= Milestones()[i].day <= 100
    ensures TableXP(Milestones()) == 7850
  {
    var t := Milestones();
    assert TableXP(t[..0]) == 0;
    assert t[..1][..0] == t[..0];
    assert TableXP(t[..1]) == 100;
    assert t[..2][..1] == t[..1];
    assert TableXP(t[..2]) == 300;
    assert t[..3][..2] == t[..2];
    assert TableXP(t[..3]) == 800;
    assert t[..4][..3] == t[..3];
    assert TableXP(t[..4]) == 1100;
    assert t[..5][..4] == t[..4];
    assert TableXP(t[..5]) == 1850;
    assert t[..6][..5] == t[..5];
    assert TableXP(t[..6]) == 2250;
    assert t[..7][..6] == t[..6];
    assert TableXP(t[..7]) == 2850;
    assert t[..8][..7] == t[..7];
    assert TableXP(t[..8]) == 3850;
    assert t[..9][..8] == t[..8];
    assert TableXP(t[..9]) == 4650;
    assert t[..10][..9] == t[..9];
    assert TableXP(t[..10]) == 5850;
    assert t[..11][..10] == t[..10];
    assert t[..11] == t;
  }

  // -------------------------------------------------------------- day data

  datatype DayInfo = DayInfo(
    topic: string,
    subtopics: seq<string>,
    project: string,
    difficulty: string,
    estimatedHours: int)

  function SampleDays(): map<int, DayInfo> {
    map[
      1 := DayInfo("HTML Fundamentals", ["HTML structure", "Basic tags", "Document setup"], "Create your first HTML page", "Beginner", 2),
      2 := DayInfo("HTML Elements & Attributes", ["Semantic HTML", "Attributes", "Forms basics"], "Personal info form", "Beginner", 2),
      15 := DayInfo("JavaScript Basics", ["Variables", "Functions", "Control flow"], "Interactive calculator", "Beginner", 3),
      25 := DayInfo("Phase 1 Project", ["Integration", "Testing", "Documentation"], "Complete responsive website", "Intermediate", 4),
      35 := DayInfo("React Components", ["JSX", "Props", "State"], "Component library", "Intermediate", 3),
      45 := DayInfo("Phase 2 Project", ["Integration", "Optimization", "Documentation"], "Complete React application", "Advanced", 4),
      55 := DayInfo("Node.js & Express", ["Server setup", "Routing", "Middleware"], "RESTful API", "Advanced", 4),
      70 := DayInfo("Phase 3 Project", ["Integration", "Deployment prep", "Review"], "Complete backend application", "Advanced", 4),
      85 := DayInfo("MERN Integration", ["Frontend-Backend connection", "Authentication", "Deployment"], "Full-stack app", "Advanced", 5),
      100 := DayInfo("Celebration & Next Steps", ["Portfolio review", "Achievement reflection", "Career planning"], "100 Days Completion Showcase", "Expert", 5)
    ]
  }

  predicate KnownDifficulty(s: string) {
    s == "Beginner" || s == "Intermediate" || s == "Advanced" || s == "Expert"
  }

  /** The content of a day: its sample entry, or a generic placeholder that
      names the day. */
  function DayData(day: int): (r: DayInfo)
    ensures |r.subtopics| == 3
    ensures 2 <= r.estimatedHours <= 5
    ensures KnownDifficulty(r.difficulty)
  {
    if day in SampleDays() then SampleDays()[day]
    else
      DayInfo("Day " + IntToString(day) + " Learning",
              ["Study materials", "Practice exercises", "Project work"],
              "Day " + IntToString(day) + " project",
              "Intermediate",
              2)
  }

  /** A day number framed by fixed text determines the day. */
  lemma FramedDayInjective(a: int, b: int, prefix: string, suffix: string)
    ensures prefix + IntToString(a) + suffix == prefix + IntToString(b) + suffix ==> a == b
  {
    var sa, sb := IntToString(a), IntToString(b);
    var ta, tb := prefix + sa + suffix, prefix + sb + suffix;
    if ta == tb {
      assert |sa| == |sb|;
      assert ta[|prefix|..|ta| - |suffix|] == sa;
      assert tb[|prefix|..|tb| - |suffix|] == sb;
      IntToStringInjective(a, b);
    }
  }

  /** Listed days get their own entry; every other day gets a placeholder
      whose topic and project name that day, so no two placeholders coincide. */
  lemma DayDataFallbackDistinct(a: int, b: int)
    requires a !in SampleDays() && b !in SampleDays()
    requires a != b
    ensures DayData(a).topic != DayData(b).topic
    ensures DayData(a).project != DayData(b).project
  {
    FramedDayInjective(a, b, "Day ", " Learning");
    FramedDayInjective(a, b, "Day ", " project");
  }

  // -------------------------------------------------------------- projects

  datatype Project = Project(
    day: int,
    name: string,
    description: string,
    technologies: seq<string>,
    difficulty: string,
    status: string)

  function DefaultProjects(): seq<Project> {
    [ Project(25, "Responsive Portfolio Website", "Personal portfolio with HTML, CSS, and JavaScript",
              ["HTML5", "CSS3", "JavaScript", "Responsive Design"], "Beginner", "Planned"),
      Project(45, "React Task Management App", "Full-featured task manager built with React",
              ["React", "React Router", "Context API", "Local Storage"], "Intermediate", "Planned"),
      Project(70, "RESTful API with Authentication", "Complete backend API with user authentication",
              ["Node.js", "Express", "MongoDB", "JWT", "Bcrypt"], "Advanced", "Planned"),
      Project(90, "Full-Stack MERN Application", "Complete web application with frontend and backend",
              ["MongoDB", "Express", "React", "Node.js", "JWT"], "Advanced", "Planned"),
      Project(100, "Capstone Portfolio Project", "Showcase project demonstrating all learned skills",
              ["Full MERN Stack", "Additional libraries", "DevOps tools"], "Expert", "Planned") ]
  }
}
