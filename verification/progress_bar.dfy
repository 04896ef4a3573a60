/** The rocket-fuel gauge: level arithmetic over 1000-XP levels, the level
    progress percentage and the planets-left counter.

    JavaScript's `%` truncates toward zero, unlike Dafny's Euclidean `%`;
    `XpRemainder` writes the truncating remainder out. */
module ProgressBar {
  import opened Wrappers
  import opened MockData
  import Percent

  const XpPerLevel: int := 1000

  /** JavaScript's `xp % 1000`: the remainder takes the sign of the dividend,
      and differs from `xp` by a whole number of levels. */
  function XpRemainder(xp: int): (r: int)
    ensures xp >= 0 ==> 0 <= r < XpPerLevel && r == xp % XpPerLevel
    ensures xp < 0 ==> -XpPerLevel < r <= 0 && r == -((-xp) % XpPerLevel)
    ensures (xp - r) % XpPerLevel == 0
  {
    if xp >= 0 then xp % XpPerLevel else -((-xp) % XpPerLevel)
  }

  /** `((currentXP % 1000) / 1000) * 100`, as an exact rational rather than a double. */
  function ProgressPercentage(xp: int): (r: real)
    ensures xp >= 0 ==> 0.0 <= r < 100.0
    ensures xp < 0 ==> -100.0 < r <= 0.0
    ensures r * 10.0 == XpRemainder(xp) as real
  {
    (XpRemainder(xp) as real) / 10.0
  }

  /** The "Level Progress" tile, `Math.round(progressPercentage)`, for
      non-negative XP: a whole percent from 0 to 100, showing 100 only in the
      last five XP of a level. The rounding is of the exact rational; the
      source's doubles round four remainders (145, 285, 565 and 575) one lower. */
  function LevelProgressShown(xp: nat): (r: nat)
    ensures r <= 100
    ensures 2 * XpPerLevel * r <= 200 * XpRemainder(xp) + XpPerLevel < 2 * XpPerLevel * (r + 1)
    ensures r == 100 <==> xp % XpPerLevel >= 995
  {
    Percent.RoundedPercent(XpRemainder(xp), XpPerLevel).value
  }

  /** The XP at which `level` ends: a whole number of levels, one level above
      where it starts. */
  function NextLevelXP(level: int): (r: int)
    ensures r % XpPerLevel == 0
    ensures r == CurrentLevelXP(level + 1)
  {
    level * XpPerLevel
  }

  /** The XP at which `level` starts: 0 for level 1, never negative from there. */
  function CurrentLevelXP(level: int): (r: int)
    ensures r % XpPerLevel == 0
    ensures level == 1 ==> r == 0
    ensures level >= 1 ==> r >= 0
  {
    (level - 1) * XpPerLevel
  }

  /** The XP shown as "n / 1000 XP": total XP minus the level's start. It is
      in range exactly when the total lies inside the level's span. */
  function XpInCurrentLevel(xp: int, level: int): (r: int)
    ensures 0 <= r < XpPerLevel <==> CurrentLevelXP(level) <= xp < NextLevelXP(level)
  {
    xp - CurrentLevelXP(level)
  }

  /** Every level spans exactly 1000 XP, and the in-level XP is in range
      exactly when the total lies inside the level's span. */
  lemma LevelSpan(xp: int, level: int)
    ensures NextLevelXP(level) - CurrentLevelXP(level) == XpPerLevel
    ensures 0 <= XpInCurrentLevel(xp, level) < XpPerLevel <==>
              CurrentLevelXP(level) <= xp < NextLevelXP(level)
  {
  }

  /** The in-level XP agrees with the gauge's remainder exactly when the level
      is the one the XP implies. */
  lemma LevelMatchesXp(xp: nat, level: int)
    ensures XpInCurrentLevel(xp, level) == XpRemainder(xp) <==> level == xp / XpPerLevel + 1
  {
    assert xp == XpPerLevel * (xp / XpPerLevel) + xp % XpPerLevel;
  }

  /** "Planets Left". */
  function PlanetsLeft(total: int, completed: int): (r: int)
    ensures r >= 0 <==> completed <= total
    ensures r + completed == total
  {
    total - completed
  }

  /** Counting the planets not yet completed gives the same figure as the
      subtraction, so for a consistent progress record "Planets Left" is the
      number of uncompleted planets. */
  function CountUncompleted(ps: seq<Planet>): (n: nat)
    ensures n + CountCompletedPlanets(ps) == |ps|
  {
    if ps == [] then 0 else (if ps[0].completed then 0 else 1) + CountUncompleted(ps[1..])
  }

  lemma PlanetsLeftCountsUncompleted(sp: StudentProgress, ps: seq<Planet>)
    requires ProgressOk(sp, ps)
    ensures PlanetsLeft(sp.totalPlanets, sp.planetsCompleted) == CountUncompleted(ps)
    ensures PlanetsLeft(sp.totalPlanets, sp.planetsCompleted) >= 0
  {
  }

  // ----- The gauge as shown ------------------------------------------------------------

  /** The figures the component renders for one progress record. */
  datatype Gauge = Gauge(percentage: real, xpInLevel: int, nextLevelXP: int, planetsLeft: int)

  /** The gauge as written: the in-level XP uses the record's own level. */
  function GaugeAsWritten(xp: int, level: int, completed: int, total: int): (g: Gauge)
    ensures g.xpInLevel == XpInCurrentLevel(xp, level)
    ensures g.percentage == ProgressPercentage(xp)
    ensures g.planetsLeft == PlanetsLeft(total, completed)
  {
    Gauge(ProgressPercentage(xp), XpInCurrentLevel(xp, level), NextLevelXP(level), PlanetsLeft(total, completed))
  }

  /** With the shipped progress record (310 XP at level 3) the fuel bar is 31%
      full while the text reads "-1690 / 1000 XP": the record's level and the
      1000-XP levels the gauge assumes disagree. */
  lemma MockGaugeDisagrees()
    ensures var g := GaugeAsWritten(MockStudentProgress.totalXP, MockStudentProgress.currentLevel,
                                    MockStudentProgress.planetsCompleted, MockStudentProgress.totalPlanets);
            g.percentage == 31.0 && g.xpInLevel == -1690 && g.planetsLeft == 6
    ensures MockStudentProgress.currentLevel != MockStudentProgress.totalXP / XpPerLevel + 1
  {
  }

  /** The level implied by non-negative XP under 1000-XP levels. */
  function LevelFor(xp: nat): (level: int)
    ensures level >= 1
    ensures CurrentLevelXP(level) <= xp < NextLevelXP(level)
  {
    assert xp == XpPerLevel * (xp / XpPerLevel) + xp % XpPerLevel;
    xp / XpPerLevel + 1
  }

  /** The gauge with the level derived from the XP: the text and the bar then
      always agree. */
  function GaugeCorrected(xp: nat, completed: int, total: int): (g: Gauge)
    ensures 0 <= g.xpInLevel < XpPerLevel
    ensures g.percentage * 10.0 == g.xpInLevel as real
    ensures g.nextLevelXP - xp == XpPerLevel - g.xpInLevel
  {
    var level := LevelFor(xp);
    LevelSpan(xp, level);
    LevelMatchesXp(xp, level);
    GaugeAsWritten(xp, level, completed, total)
  }

  /** For the shipped record the derived gauge reads "310 / 1000 XP" at level 1. */
  lemma MockGaugeCorrected()
    ensures LevelFor(MockStudentProgress.totalXP) == 1
    ensures GaugeCorrected(MockStudentProgress.totalXP, 2, 8).xpInLevel == 310
  {
  }
}
