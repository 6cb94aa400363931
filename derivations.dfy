/** Values the views derive from the stored record: the level and the XP
    inside it, the streak of completed days ending at a day, the number of
    completed days in a phase, and the classification of a calendar cell. */
module Derivations {
  import opened Util
  import opened Curriculum

  // ------------------------------------------------------------ level math

  const XPPerLevel := 1000

  /** `Math.floor(totalXP / 1000) + 1`; the floor is Dafny's division by a
      positive divisor. */
  function Level(xp: int): (l: int)
    ensures xp >= 0 ==> l >= 1
    ensures (l - 1) * XPPerLevel <= xp < l * XPPerLevel
  {
    xp / XPPerLevel + 1
  }

  /** `totalXP % 1000` with JavaScript's remainder, which takes the sign of
      the dividend. */
  function XpInLevel(xp: int): (r: int)
    ensures xp >= 0 ==> 0 <= r < XPPerLevel && (Level(xp) - 1) * XPPerLevel + r == xp
    ensures xp < 0 ==> -XPPerLevel < r <= 0
  {
    if xp >= 0 then xp % XPPerLevel else -((-xp) % XPPerLevel)
  }

  // ---------------------------------------------------------------- streak

  /** The number of consecutive completed days counted backward from `day`,
      stopping at the first day that is not completed or below day 1. */
  function Streak(completed: seq<int>, day: int): (s: nat)
    ensures day >= 0 ==> s <= day
    ensures s > 0 ==> day in completed
    decreases day
  {
    if day >= 1 && day in completed then Streak(completed, day - 1) + 1 else 0
  }

  /** The streak `s` ends at `day`: it is at most `day`, every day of the run
      `day - s + 1 .. day` is completed, and the run cannot be extended
      because day `day - s` is either day 0 or not completed. */
  lemma {:induction false} StreakCharacterised(completed: seq<int>, day: int)
    requires day >= 0
    ensures Streak(completed, day) <= day
    ensures forall k :: day - Streak(completed, day) < k <= day ==> k in completed
    ensures day - Streak(completed, day) == 0 || day - Streak(completed, day) !in completed
    ensures Streak(completed, day) == 0 <==> (day == 0 || day !in completed)
    decreases day
  {
    if day >= 1 && day in completed {
      StreakCharacterised(completed, day - 1);
    }
  }

  /** The characterisation determines the streak. */
  lemma {:induction false} StreakUnique(completed: seq<int>, day: int, s: nat)
    requires s <= day
    requires forall k :: day - s < k <= day ==> k in completed
    requires day - s == 0 || day - s !in completed
    ensures s == Streak(completed, day)
    decreases s
  {
    if s > 0 {
      assert day in completed;
      StreakUnique(completed, day - 1, s - 1);
    }
  }

  /** The streak reads only which days are completed. */
  lemma {:induction false} StreakOfSameDays(a: seq<int>, b: seq<int>, day: int)
    requires forall k :: k in a <==> k in b
    ensures Streak(a, day) == Streak(b, day)
    decreases day
  {
    if day >= 1 {
      StreakOfSameDays(a, b, day - 1);
    }
  }

  // ----------------------------------------------------- per-phase counts

  /** `completedDays.filter(day => day >= start && day <= end).length` */
  function CompletedInPhase(completed: seq<int>, start: int, end: int): (n: nat)
    ensures n <= |completed|
  {
    if completed == [] then 0
    else (if start <= completed[0] <= end then 1 else 0) + CompletedInPhase(completed[1..], start, end)
  }

  /** The distinct completed days that fall in `start..end`. */
  function InRange(completed: seq<int>, start: int, end: int): set<int> {
    set x | x in completed && start <= x <= end
  }

  /** The days `start..end`, built one day at a time. */
  function DayRange(start: int, end: int): (r: set<int>)
    ensures forall x :: x in r <==> start <= x <= end
    ensures start <= end + 1 ==> |r| == end - start + 1
    decreases end - start
  {
    if start > end then {} else DayRange(start, end - 1) + {end}
  }

  /** Without duplicates the filter counts each completed day of the phase
      once. */
  lemma {:induction false} CountIsDistinctDays(completed: seq<int>, start: int, end: int)
    requires NoDup(completed)
    ensures CompletedInPhase(completed, start, end) == |InRange(completed, start, end)|
  {
    if completed != [] {
      var rest := completed[1..];
      assert NoDup(rest) by {
        forall i, j | 0 <= i < j < |rest| ensures rest[i] != rest[j] {
          assert rest[i] == completed[i + 1] && rest[j] == completed[j + 1];
        }
      }
      CountIsDistinctDays(rest, start, end);
      assert completed[0] !in rest by {
        forall i | 0 <= i < |rest| ensures rest[i] != completed[0] {
          assert rest[i] == completed[i + 1];
        }
      }
      assert completed == [completed[0]] + rest;
      if start <= completed[0] <= end {
        assert InRange(completed, start, end) == InRange(rest, start, end) + {completed[0]};
      } else {
        assert InRange(completed, start, end) == InRange(rest, start, end);
      }
    }
  }

  lemma SubsetSize(a: set<int>, b: set<int>)
    requires a <= b
    ensures |a| <= |b|
  {
    assert b == a + (b - a);
  }

  /** A phase never shows more completed days than it has. */
  lemma CompletedInPhaseBound(completed: seq<int>, start: int, end: int)
    requires NoDup(completed)
    requires start <= end + 1
    ensures CompletedInPhase(completed, start, end) <= end - start + 1
  {
    CountIsDistinctDays(completed, start, end);
    SubsetSize(InRange(completed, start, end), DayRange(start, end));
  }

  /** Counting over two adjacent ranges is counting over their union. */
  lemma {:induction false} CompletedInPhaseSplit(completed: seq<int>, start: int, mid: int, end: int)
    requires start - 1 <= mid <= end
    ensures CompletedInPhase(completed, start, end)
         == CompletedInPhase(completed, start, mid) + CompletedInPhase(completed, mid + 1, end)
  {
    if completed != [] {
      CompletedInPhaseSplit(completed[1..], start, mid, end);
    }
  }

  /** Days outside the range are not counted; when none is, all are. */
  lemma {:induction false} CompletedInPhaseAll(completed: seq<int>, start: int, end: int)
    requires forall i :: 0 <= i < |completed| ==> start <= completed[i] <= end
    ensures CompletedInPhase(completed, start, end) == |completed|
  {
    if completed != [] {
      CompletedInPhaseAll(completed[1..], start, end);
    }
  }

  /** The completed counts of all rows of a table, added up. */
  function CountsOverTable(completed: seq<int>, t: seq<PhaseRow>): nat {
    if t == [] then 0 else CompletedInPhase(completed, t[0].start, t[0].end) + CountsOverTable(completed, t[1..])
  }

  lemma {:induction false} CountsOverTiling(completed: seq<int>, t: seq<PhaseRow>, lo: int, hi: int)
    requires Tiles(t, lo, hi)
    ensures CountsOverTable(completed, t) == CompletedInPhase(completed, lo, hi)
    decreases |t|
  {
    if |t| == 1 {
      assert t[1..] == [];
    } else {
      var rest := t[1..];
      assert rest[0] == t[1];
      assert Tiles(rest, t[0].end + 1, hi) by {
        forall i | 0 <= i < |rest| - 1 ensures rest[i + 1].start == rest[i].end + 1 {
          assert rest[i] == t[i + 1] && rest[i + 1] == t[i + 2];
        }
      }
      CountsOverTiling(completed, rest, t[0].end + 1, hi);
      TilesOrdered(t, lo, hi, 0, |t| - 1);
      CompletedInPhaseSplit(completed, lo, t[0].end, hi);
    }
  }

  /** The per-phase counts of the progress view add up to the number of
      completed days when every completed day lies in 1..100. */
  lemma PhaseCountsSum(completed: seq<int>)
    requires forall i :: 0 <= i < |completed| ==> 1 <= completed[i] <= 100
    ensures CountsOverTable(completed, PhaseTable()) == |completed|
  {
    PhaseTableTiles();
    CountsOverTiling(completed, PhaseTable(), 1, 100);
    CompletedInPhaseAll(completed, 1, 100);
  }

  // -------------------------------------------------------------- calendar

  datatype CellKind = Completed | Current | Incomplete

  /** A completed day is shown completed even when it is the current day. */
  function CellClass(day: int, completed: seq<int>, current: int): (k: CellKind)
    ensures k == Completed <==> day in completed
    ensures k == Current <==> day == current && day !in completed
  {
    if day in completed then Completed
    else if day == current then Current
    else Incomplete
  }

  /** The hundred cells of the progress calendar, for days 1..100. */
  function Calendar(completed: seq<int>, current: int): (cells: seq<CellKind>)
    ensures |cells| == 100
    ensures forall i :: 0 <= i < 100 ==> (cells[i] == Completed <==> i + 1 in completed)
    ensures forall i :: 0 <= i < 100 ==> (cells[i] == Current <==> i + 1 == current && current !in completed)
  {
    seq(100, i => CellClass(i + 1, completed, current))
  }

  function CountKind(cells: seq<CellKind>, k: CellKind): nat {
    if cells == [] then 0
    else CountKind(cells[..|cells| - 1], k) + (if cells[|cells| - 1] == k then 1 else 0)
  }

  lemma {:induction false} CalendarPrefix(completed: seq<int>, current: int, n: nat)
    requires n <= 100
    ensures CountKind(Calendar(completed, current)[..n], Current)
         == (if 1 <= current <= n && current !in completed then 1 else 0)
    ensures CountKind(Calendar(completed, current)[..n], Completed) == |InRange(completed, 1, n)|
  {
    var cells := Calendar(completed, current);
    if n == 0 {
      assert InRange(completed, 1, 0) == {};
    } else {
      CalendarPrefix(completed, current, n - 1);
      assert cells[..n][..n - 1] == cells[..n - 1];
      if n in completed {
        assert InRange(completed, 1, n) == InRange(completed, 1, n - 1) + {n};
      } else {
        assert InRange(completed, 1, n) == InRange(completed, 1, n - 1);
      }
    }
  }

  /** The calendar marks at most one cell current, exactly when the current
      day is in range and not completed, and marks each distinct completed
      day of 1..100 once; with duplicate-free in-range days that is all of
      them. */
  lemma CalendarCounts(completed: seq<int>, current: int)
    ensures CountKind(Calendar(completed, current), Current)
         == (if 1 <= current <= 100 && current !in completed then 1 else 0)
    ensures CountKind(Calendar(completed, current), Completed) == |InRange(completed, 1, 100)|
    ensures NoDup(completed) && (forall i :: 0 <= i < |completed| ==> 1 <= completed[i] <= 100) ==>
              CountKind(Calendar(completed, current), Completed) == |completed|
  {
    var cells := Calendar(completed, current);
    CalendarPrefix(completed, current, 100);
    assert cells[..100] == cells;
    if NoDup(completed) && (forall i :: 0 <= i < |completed| ==> 1 <= completed[i] <= 100) {
      CountIsDistinctDays(completed, 1, 100);
      CompletedInPhaseAll(completed, 1, 100);
    }
  }
}
