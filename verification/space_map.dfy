/** The space-map dashboard: which planet's lesson preview is open, the
    sidebar's statistics (total stars, recent achievements) and the journey
    percentage. */
module SpaceMap {
  import opened Wrappers
  import opened MockData
  import LessonPreview
  import PlanetCard
  import Percent

  // ----- Selection ---------------------------------------------------------------------

  /** The planet whose lesson preview replaces the map, if any. */
  datatype MapState = MapState(selected: Option<Planet>)

  const InitialMap: MapState := MapState(None)

  /** `handlePlanetClick`: only an unlocked planet is opened. */
  function HandlePlanetClick(m: MapState, p: Planet): (r: MapState)
    ensures p.unlocked ==> r.selected == Some(p)
    ensures !p.unlocked ==> r == m
  {
    if p.unlocked then MapState(Some(p)) else m
  }

  /** `handleBackToMap`: close the preview. */
  function HandleBackToMap(m: MapState): (r: MapState)
    ensures r.selected.None?
  {
    InitialMap
  }

  predicate SelectedUnlocked(m: MapState) {
    m.selected.Some? ==> m.selected.value.unlocked
  }

  /** Whatever the sequence of clicks, an open preview belongs to an unlocked
      planet; a click on a card reaches the map only through the card's own
      gate, and the two gates agree. */
  lemma SelectionStaysUnlocked(m: MapState, p: Planet)
    requires SelectedUnlocked(m)
    ensures SelectedUnlocked(HandlePlanetClick(m, p))
    ensures SelectedUnlocked(HandleBackToMap(m))
    ensures PlanetCard.HandleClick(p, true).Some? ==>
              HandlePlanetClick(m, PlanetCard.HandleClick(p, true).value).selected == Some(p)
    ensures PlanetCard.HandleClick(p, true).None? ==> HandlePlanetClick(m, p) == m
  {
  }

  /** Clicks on planets, with `Some(p)` for a planet and `None` for the back button. */
  function ApplyClicks(m: MapState, clicks: seq<Option<Planet>>): MapState
    decreases |clicks|
  {
    if clicks == [] then m
    else
      var next := match clicks[0]
        case Some(p) => HandlePlanetClick(m, p)
        case None => HandleBackToMap(m);
      ApplyClicks(next, clicks[1..])
  }

  /** Once the open preview (if any) is of an unlocked planet, any run of clicks
      keeps it so; the initial map has no preview open. */
  lemma {:induction false} ClicksKeepSelectionUnlocked(m: MapState, clicks: seq<Option<Planet>>)
    requires SelectedUnlocked(m)
    ensures SelectedUnlocked(ApplyClicks(m, clicks))
    decreases |clicks|
  {
    if clicks != [] {
      match clicks[0]
      case Some(p) => SelectionStaysUnlocked(m, p); ClicksKeepSelectionUnlocked(HandlePlanetClick(m, p), clicks[1..]);
      case None => ClicksKeepSelectionUnlocked(HandleBackToMap(m), clicks[1..]);
    }
  }

  // ----- Total stars -------------------------------------------------------------------

  /** `planets.reduce((sum, p) => sum + p.starsEarned, 0)`. */
  function TotalStars(ps: seq<Planet>): int {
    if ps == [] then 0 else ps[0].starsEarned + TotalStars(ps[1..])
  }

  function SumTotalStars(ps: seq<Planet>): int {
    if ps == [] then 0 else ps[0].totalStars + SumTotalStars(ps[1..])
  }

  /** For consistent planets the total lies between 0 and the stars on offer. */
  lemma {:induction false} TotalStarsBounded(ps: seq<Planet>)
    requires forall i | 0 <= i < |ps| :: PlanetOk(ps[i])
    ensures 0 <= TotalStars(ps) <= SumTotalStars(ps)
  {
    if ps != [] {
      LessonPreview.StarsBounds(ps[0].lessons);
      assert forall i | 1 <= i < |ps| :: ps[i] == ps[1..][i - 1];
      TotalStarsBounded(ps[1..]);
    }
  }

  /** The shipped map shows 18 of 73 stars. */
  lemma MockTotalStars()
    ensures TotalStars(MockPlanets) == 18
    ensures SumTotalStars(MockPlanets) == 73
  {
    MockStarsEarned();
    MockStarsOnOffer();
  }

  lemma MockStarsEarned()
    ensures TotalStars(MockPlanets) == 18
  {
    EightSums(MockPlanets);
  }

  lemma MockStarsOnOffer()
    ensures SumTotalStars(MockPlanets) == 73
  {
    EightSums(MockPlanets);
  }

  /** Both sums over eight planets, written out term by term. */
  lemma EightSums(ps: seq<Planet>)
    requires |ps| == 8
    ensures TotalStars(ps) == ps[0].starsEarned + ps[1].starsEarned + ps[2].starsEarned + ps[3].starsEarned
              + ps[4].starsEarned + ps[5].starsEarned + ps[6].starsEarned + ps[7].starsEarned
    ensures SumTotalStars(ps) == ps[0].totalStars + ps[1].totalStars + ps[2].totalStars + ps[3].totalStars
              + ps[4].totalStars + ps[5].totalStars + ps[6].totalStars + ps[7].totalStars
  {
    assert forall k | 0 <= k < |ps| :: ps[k..][1..] == ps[k + 1..];
    assert TotalStars(ps[8..]) == 0 && SumTotalStars(ps[8..]) == 0;
    assert TotalStars(ps[7..]) == ps[7].starsEarned;
    assert SumTotalStars(ps[7..]) == ps[7].totalStars;
    assert TotalStars(ps[6..]) == ps[6].starsEarned + ps[7].starsEarned;
    assert SumTotalStars(ps[6..]) == ps[6].totalStars + ps[7].totalStars;
    assert TotalStars(ps[5..]) == ps[5].starsEarned + ps[6].starsEarned + ps[7].starsEarned;
    assert SumTotalStars(ps[5..]) == ps[5].totalStars + ps[6].totalStars + ps[7].totalStars;
    assert TotalStars(ps[4..]) == ps[4].starsEarned + ps[5].starsEarned + ps[6].starsEarned + ps[7].starsEarned;
    assert SumTotalStars(ps[4..]) == ps[4].totalStars + ps[5].totalStars + ps[6].totalStars + ps[7].totalStars;
    assert TotalStars(ps[3..]) == ps[3].starsEarned + ps[4].starsEarned + ps[5].starsEarned + ps[6].starsEarned + ps[7].starsEarned;
    assert SumTotalStars(ps[3..]) == ps[3].totalStars + ps[4].totalStars + ps[5].totalStars + ps[6].totalStars + ps[7].totalStars;
    assert TotalStars(ps[2..]) == ps[2].starsEarned + ps[3].starsEarned + ps[4].starsEarned + ps[5].starsEarned + ps[6].starsEarned + ps[7].starsEarned;
    assert SumTotalStars(ps[2..]) == ps[2].totalStars + ps[3].totalStars + ps[4].totalStars + ps[5].totalStars + ps[6].totalStars + ps[7].totalStars;
    assert TotalStars(ps[1..]) == ps[1].starsEarned + ps[2].starsEarned + ps[3].starsEarned + ps[4].starsEarned + ps[5].starsEarned + ps[6].starsEarned + ps[7].starsEarned;
    assert SumTotalStars(ps[1..]) == ps[1].totalStars + ps[2].totalStars + ps[3].totalStars + ps[4].totalStars + ps[5].totalStars + ps[6].totalStars + ps[7].totalStars;
    assert ps[0..] == ps;
  }

  // ----- Recent achievements -------------------------------------------------------------

  /** `achievements.filter(a => a.earned)`. */
  function Earned(xs: seq<Achievement>): (r: seq<Achievement>)
    ensures |r| <= |xs|
  {
    if xs == [] then []
    else if xs[0].earned then [xs[0]] + Earned(xs[1..])
    else Earned(xs[1..])
  }

  /** The filter keeps exactly the earned achievements. */
  lemma {:induction false} EarnedMembers(xs: seq<Achievement>)
    ensures forall i | 0 <= i < |Earned(xs)| :: Earned(xs)[i].earned
    ensures forall a :: a in Earned(xs) <==> a in xs && a.earned
  {
    if xs != [] {
      EarnedMembers(xs[1..]);
      assert forall a | a in xs :: a == xs[0] || a in xs[1..];
      if xs[0].earned {
        assert forall i | 1 <= i < |Earned(xs)| :: Earned(xs)[i] == Earned(xs[1..])[i - 1];
      }
    }
  }

  /** Filtering keeps the original order: the filtered list of a concatenation
      is the concatenation of the filtered lists. */
  lemma {:induction false} EarnedAppend(xs: seq<Achievement>, ys: seq<Achievement>)
    ensures Earned(xs + ys) == Earned(xs) + Earned(ys)
  {
    if xs != [] {
      assert (xs + ys)[1..] == xs[1..] + ys;
      EarnedAppend(xs[1..], ys);
    } else {
      assert xs + ys == ys;
    }
  }

  /** `.slice(-3)`: the last three, or everything when there are fewer. */
  function LastThree<T>(xs: seq<T>): (r: seq<T>)
    ensures |r| == if |xs| < 3 then |xs| else 3
    ensures xs == xs[..|xs| - |r|] + r
  {
    if |xs| <= 3 then xs else xs[|xs| - 3..]
  }

  /** The sidebar's achievement list. */
  function RecentAchievements(xs: seq<Achievement>): (r: seq<Achievement>)
    ensures |r| <= 3
    ensures forall i | 0 <= i < |r| :: r[i].earned && r[i] in xs
    ensures |r| == if |Earned(xs)| < 3 then |Earned(xs)| else 3
    ensures Earned(xs) == Earned(xs)[..|Earned(xs)| - |r|] + r
  {
    EarnedMembers(xs);
    LastThree(Earned(xs))
  }

  /** An achievement earned after the ones shown — appended at the end of the
      list — pushes out the oldest: the list shows the most recent ones. */
  lemma NewlyEarnedIsShown(xs: seq<Achievement>, a: Achievement)
    requires a.earned
    ensures var r := RecentAchievements(xs + [a]);
            |r| > 0 && r[|r| - 1] == a
  {
    EarnedAppend(xs, [a]);
    assert Earned([a]) == [a];
  }

  /** The shipped sidebar shows achievements 2, 3 and 4; "First Steps" is
      pushed out and the unearned "Star Collector" never appears. */
  lemma MockRecentAchievements()
    ensures RecentAchievements(MockAchievements) == MockAchievements[1..4]
  {
    var xs := MockAchievements;
    assert |xs| == 5 && xs[0].earned && xs[1].earned && xs[2].earned && xs[3].earned && !xs[4].earned;
    FourEarnedThenOne(xs);
  }

  /** Four earned achievements followed by an unearned one: the sidebar shows
      the second to the fourth. */
  lemma FourEarnedThenOne(xs: seq<Achievement>)
    requires |xs| == 5
    requires xs[0].earned && xs[1].earned && xs[2].earned && xs[3].earned && !xs[4].earned
    ensures RecentAchievements(xs) == xs[1..4]
  {
    EarnedFour(xs);
    assert xs[..4][1..] == xs[1..4];
  }

  lemma EarnedFour(xs: seq<Achievement>)
    requires |xs| == 5
    requires xs[0].earned && xs[1].earned && xs[2].earned && xs[3].earned && !xs[4].earned
    ensures Earned(xs) == xs[..4]
  {
    var e4 := Earned(xs[4..]);
    assert e4 == [] by {
      EarnedStep(xs, 4);
      assert xs[5..] == [];
    }
    var e3 := Earned(xs[3..]);
    assert e3 == [xs[3]] by {
      EarnedStep(xs, 3);
    }
    var e2 := Earned(xs[2..]);
    assert e2 == [xs[2], xs[3]] by {
      EarnedStep(xs, 2);
    }
    var e1 := Earned(xs[1..]);
    assert e1 == [xs[1], xs[2], xs[3]] by {
      EarnedStep(xs, 1);
    }
    assert Earned(xs) == [xs[0], xs[1], xs[2], xs[3]] by {
      EarnedStep(xs, 0);
      assert xs[0..] == xs;
    }
  }

  /** One step of the filter on a suffix. */
  lemma EarnedStep(xs: seq<Achievement>, k: nat)
    requires k < |xs|
    ensures Earned(xs[k..]) == (if xs[k].earned then [xs[k]] else []) + Earned(xs[k + 1..])
  {
    assert xs[k..][1..] == xs[k + 1..];
  }

  // ----- Journey percentage ----------------------------------------------------------------

  /** `Math.round(planetsCompleted / totalPlanets * 100)`; no planets gives `NaN`. */
  function JourneyPercent(sp: StudentProgress): (r: Option<nat>)
    requires sp.planetsCompleted >= 0 && sp.totalPlanets >= 0
    ensures r.None? <==> sp.totalPlanets == 0
    ensures r.Some? && sp.planetsCompleted <= sp.totalPlanets ==> r.value <= 100
    ensures r.Some? && sp.planetsCompleted == sp.totalPlanets ==> r.value == 100
    ensures r.Some? && sp.planetsCompleted == 0 ==> r.value == 0
  {
    Percent.RoundedPercent(sp.planetsCompleted, sp.totalPlanets)
  }

  /** Completing more of the same journey never lowers the percentage shown. */
  lemma JourneyMonotone(sp1: StudentProgress, sp2: StudentProgress)
    requires 0 <= sp1.planetsCompleted <= sp2.planetsCompleted
    requires sp1.totalPlanets == sp2.totalPlanets > 0
    ensures JourneyPercent(sp1).value <= JourneyPercent(sp2).value
  {
    Percent.RoundedPercentMonotone(sp1.planetsCompleted, sp2.planetsCompleted, sp1.totalPlanets);
  }

  /** The shipped journey is two planets of eight: 25%. */
  lemma MockJourney()
    ensures JourneyPercent(MockStudentProgress) == Some(25)
  {
  }
}
