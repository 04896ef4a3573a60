/** The course map's data: planets made of lessons, the student's progress
    record with its achievements, the shipped mock values, and the invariants
    those values satisfy. */
module MockData {
  import opened Wrappers
  import opened QuestionTypes

  datatype PlanetDifficulty = Beginner | Intermediate | Advanced

  datatype Lesson = Lesson(
    id: int,
    title: string,
    duration: string,
    completed: bool,
    locked: bool,
    unlocked: bool,
    xpReward: int,
    description: string,
    progress: int,
    starsEarned: int,
    maxStars: int)

  datatype Position = Position(x: int, y: int)

  datatype Planet = Planet(
    id: int,
    name: string,
    subject: Subject,
    difficulty: PlanetDifficulty,
    description: string,
    unlocked: bool,
    completed: bool,
    starsEarned: int,
    totalStars: int,
    lessons: seq<Lesson>,
    xpReward: int,
    position: Position,
    icon: string,
    color: string,
    requirements: Option<seq<int>>)

  datatype Achievement = Achievement(
    id: int,
    title: string,
    description: string,
    earned: bool,
    earnedDate: Option<string>,
    icon: string)

  datatype StudentProgress = StudentProgress(
    totalXP: int,
    currentLevel: int,
    xpToNextLevel: int,
    planetsCompleted: int,
    totalPlanets: int,
    achievements: seq<Achievement>,
    rocketFuel: int)

  // ----- Sums over lessons (`reduce` from 0) -------------------------------------

  function SumLessonXp(ls: seq<Lesson>): int {
    if ls == [] then 0 else ls[0].xpReward + SumLessonXp(ls[1..])
  }

  function SumLessonStars(ls: seq<Lesson>): int {
    if ls == [] then 0 else ls[0].starsEarned + SumLessonStars(ls[1..])
  }

  function SumMaxStars(ls: seq<Lesson>): int {
    if ls == [] then 0 else ls[0].maxStars + SumMaxStars(ls[1..])
  }

  /** Number of planets marked completed. */
  function CountCompletedPlanets(ps: seq<Planet>): (n: nat)
    ensures n <= |ps|
  {
    if ps == [] then 0 else (if ps[0].completed then 1 else 0) + CountCompletedPlanets(ps[1..])
  }

  // ----- Invariants ------------------------------------------------------------------

  /** A lesson's flags and figures agree: `locked` is the negation of `unlocked`,
      progress is a percentage, stars do not exceed the maximum, and a completed
      lesson is at 100%. */
  predicate LessonOk(l: Lesson) {
    && l.locked == !l.unlocked
    && 0 <= l.progress <= 100
    && 0 <= l.starsEarned <= l.maxStars
    && (l.completed ==> l.progress == 100)
  }

  /** A planet's totals are the sums over its lessons, every lesson is consistent,
      and a locked planet has only locked lessons. */
  predicate PlanetOk(p: Planet) {
    && p.xpReward == SumLessonXp(p.lessons)
    && p.starsEarned == SumLessonStars(p.lessons)
    && p.totalStars == SumMaxStars(p.lessons)
    && (forall i | 0 <= i < |p.lessons| :: LessonOk(p.lessons[i]))
    && (!p.unlocked ==> forall i | 0 <= i < |p.lessons| :: p.lessons[i].locked)
  }

  function RequirementsOf(p: Planet): seq<int> {
    match p.requirements
    case None => []
    case Some(rs) => rs
  }

  /** The planet with the given id, if any. */
  function PlanetById(ps: seq<Planet>, id: int): (r: Option<Planet>)
    ensures r.Some? ==> r.value in ps && r.value.id == id
    ensures r.None? ==> forall i | 0 <= i < |ps| :: ps[i].id != id
  {
    if ps == [] then None
    else if ps[0].id == id then Some(ps[0])
    else
      var rest := PlanetById(ps[1..], id);
      assert forall i | 1 <= i < |ps| :: ps[i] == ps[1..][i - 1];
      rest
  }

  /** Each requirement names an existing planet with a smaller id (so the
      requirement graph is acyclic), and an unlocked planet has every required
      planet completed. */
  predicate RequirementsOk(ps: seq<Planet>) {
    forall i, j | 0 <= i < |ps| && 0 <= j < |RequirementsOf(ps[i])| ::
      var req := PlanetById(ps, RequirementsOf(ps[i])[j]);
      && req.Some?
      && req.value.id < ps[i].id
      && (ps[i].unlocked ==> req.value.completed)
  }

  /** The progress record agrees with the planet list, every earned achievement
      carries a date, and the fuel gauge is a percentage. */
  predicate ProgressOk(sp: StudentProgress, ps: seq<Planet>) {
    && sp.totalPlanets == |ps|
    && sp.planetsCompleted == CountCompletedPlanets(ps)
    && (forall i | 0 <= i < |sp.achievements| ::
          sp.achievements[i].earned ==> sp.achievements[i].earnedDate.Some?)
    && 0 <= sp.rocketFuel <= 100
  }

  // ----- The shipped values ------------------------------------------------------------

  const EarthAtmosphere: Planet := Planet(1, "Earth's Atmosphere", Science, Beginner,
    "Learn about the air around us and what makes weather happen!", true, true, 8, 9,
    [ Lesson(1, "What is the Atmosphere?", "10 min", true, false, true, 25,
        "Discover the invisible shield around Earth", 100, 3, 3),
      Lesson(2, "Layers of the Sky", "12 min", true, false, true, 35,
        "Explore troposphere, stratosphere and more!", 100, 2, 3),
      Lesson(3, "Weather and Clouds", "15 min", true, false, true, 40,
        "How clouds form and create weather", 100, 3, 3) ],
    100, Position(20, 30), "\U{1F30D}", "blue", None)

  const LunaStation: Planet := Planet(2, "Luna Station", Science, Beginner,
    "Explore our closest neighbor in space and learn about moon phases!", true, true, 7, 9,
    [ Lesson(4, "Moon Phases", "8 min", true, false, true, 30,
        "Why does the moon change shape?", 100, 3, 3),
      Lesson(5, "Apollo Missions", "14 min", true, false, true, 45,
        "The amazing journey to the moon", 100, 2, 3),
      Lesson(6, "Moon's Gravity", "10 min", false, false, true, 35,
        "How gravity works on the moon", 65, 2, 3) ],
    110, Position(45, 20), "\U{1F319}", "gray", Some([1]))

  const MarsColony: Planet := Planet(3, "Mars Colony", Science, Intermediate,
    "Journey to the red planet and discover what makes it special!", true, false, 3, 9,
    [ Lesson(7, "Why is Mars Red?", "12 min", true, false, true, 40,
        "The secret of Mars' rusty color", 100, 3, 3),
      Lesson(8, "Mars Rovers", "16 min", false, false, true, 50,
        "Robots exploring the red planet", 30, 0, 3),
      Lesson(9, "Life on Mars?", "14 min", false, true, false, 45,
        "Could there be aliens on Mars?", 0, 0, 3) ],
    135, Position(70, 35), "\U{1F534}", "red", Some([2]))

  const JupiterGasGiant: Planet := Planet(4, "Jupiter Gas Giant", Science, Intermediate,
    "Explore the largest planet and its amazing moons!", false, false, 0, 9,
    [ Lesson(10, "The Great Red Spot", "15 min", false, true, false, 60,
        "A storm bigger than Earth!", 0, 0, 3),
      Lesson(11, "Jupiter's Moons", "18 min", false, true, false, 70,
        "Discover Io, Europa, and more", 0, 0, 3),
      Lesson(12, "Gas Giant Secrets", "20 min", false, true, false, 80,
        "What's inside Jupiter?", 0, 0, 3) ],
    210, Position(25, 65), "\U{1FA90}", "orange", Some([3]))

  const RocketAcademy: Planet := Planet(5, "Rocket Academy", Engineering, Advanced,
    "Learn how to build rockets and plan space missions!", false, false, 0, 9,
    [ Lesson(13, "How Rockets Work", "20 min", false, true, false, 80,
        "The science of rocket propulsion", 0, 0, 3),
      Lesson(14, "Rocket Design", "25 min", false, true, false, 100,
        "Build your first rocket", 0, 0, 3),
      Lesson(15, "Space Missions", "22 min", false, true, false, 90,
        "Planning trips to space", 0, 0, 3) ],
    270, Position(80, 70), "\U{1F680}", "purple", Some([4]))

  const MathGalaxy: Planet := Planet(6, "Math Galaxy", Mathematics, Intermediate,
    "Use math to explore space and calculate cosmic distances!", false, false, 0, 9,
    [ Lesson(16, "Counting Light Years", "18 min", false, true, false, 75,
        "How far is far in space?", 0, 0, 3),
      Lesson(17, "Orbital Math", "22 min", false, true, false, 85,
        "Calculate planetary orbits", 0, 0, 3),
      Lesson(18, "Rocket Trajectories", "25 min", false, true, false, 95,
        "Plot a course to the stars", 0, 0, 3) ],
    255, Position(15, 80), "\U{1F522}", "yellow", Some([3]))

  const TechStation: Planet := Planet(7, "Tech Station", Technology, Advanced,
    "Discover the amazing technology that makes space exploration possible!", false, false, 0, 10,
    [ Lesson(19, "Satellites", "20 min", false, true, false, 90,
        "How satellites help us every day", 0, 0, 3),
      Lesson(20, "Space Stations", "25 min", false, true, false, 110,
        "Living in space", 0, 0, 3),
      Lesson(21, "Future Space Tech", "30 min", false, true, false, 120,
        "What's next for space exploration?", 0, 0, 4) ],
    320, Position(60, 85), "\U{1F6F0}\U{FE0F}", "cyan", Some([5, 6]))

  const BlackHoleMystery: Planet := Planet(8, "Black Hole Mystery", Science, Advanced,
    "Explore the most mysterious objects in the universe!", false, false, 0, 9,
    [ Lesson(22, "What are Black Holes?", "25 min", false, true, false, 100,
        "The ultimate space mystery", 0, 0, 3),
      Lesson(23, "Event Horizon", "28 min", false, true, false, 120,
        "The point of no return", 0, 0, 3),
      Lesson(24, "Space-Time Warping", "30 min", false, true, false, 125,
        "How black holes bend reality", 0, 0, 3) ],
    345, Position(90, 15), "\U{1F573}\U{FE0F}", "black", Some([7]))

  const MockPlanets: seq<Planet> := [
    EarthAtmosphere, LunaStation, MarsColony, JupiterGasGiant,
    RocketAcademy, MathGalaxy, TechStation, BlackHoleMystery
  ]

  const MockAchievements: seq<Achievement> := [
    Achievement(1, "First Steps", "Complete your first lesson", true, Some("2024-01-15"), "\U{1F476}"),
    Achievement(2, "Planet Explorer", "Complete your first planet", true, Some("2024-01-18"), "\U{1F30D}"),
    Achievement(3, "Moon Walker", "Explore Luna Station", true, Some("2024-01-22"), "\U{1F319}"),
    Achievement(4, "Red Planet Pioneer", "Start exploring Mars", true, Some("2024-01-25"), "\U{1F534}"),
    Achievement(5, "Star Collector", "Earn 15 stars", false, None, "\U{2B50}")
  ]

  const MockStudentProgress: StudentProgress := StudentProgress(310, 3, 190, 2, 8, MockAchievements, 65)

  // ----- The shipped values satisfy the invariants ------------------------------------

  /** Every lesson of a three-lesson planet satisfies `LessonOk`, given each one does. */
  lemma ThreeLessonsOk(p: Planet)
    requires |p.lessons| == 3
    requires LessonOk(p.lessons[0]) && LessonOk(p.lessons[1]) && LessonOk(p.lessons[2])
    ensures forall i | 0 <= i < |p.lessons| :: LessonOk(p.lessons[i])
  {
  }

  lemma EarthAtmosphereOk()
    ensures PlanetOk(EarthAtmosphere)
  {
    ThreeLessonsOk(EarthAtmosphere);
  }

  lemma LunaStationOk()
    ensures PlanetOk(LunaStation)
  {
    ThreeLessonsOk(LunaStation);
  }

  lemma MarsColonyOk()
    ensures PlanetOk(MarsColony)
  {
    ThreeLessonsOk(MarsColony);
  }

  lemma JupiterGasGiantOk()
    ensures PlanetOk(JupiterGasGiant)
  {
    ThreeLessonsOk(JupiterGasGiant);
  }

  lemma RocketAcademyOk()
    ensures PlanetOk(RocketAcademy)
  {
    ThreeLessonsOk(RocketAcademy);
  }

  lemma MathGalaxyOk()
    ensures PlanetOk(MathGalaxy)
  {
    ThreeLessonsOk(MathGalaxy);
  }

  lemma TechStationOk()
    ensures PlanetOk(TechStation)
  {
    ThreeLessonsOk(TechStation);
  }

  lemma BlackHoleMysteryOk()
    ensures PlanetOk(BlackHoleMystery)
  {
    ThreeLessonsOk(BlackHoleMystery);
  }

  /** Every shipped planet's XP and star totals are the sums over its lessons,
      every lesson is consistent, and locked planets have only locked lessons. */
  lemma MockPlanetsOk()
    ensures forall i | 0 <= i < |MockPlanets| :: PlanetOk(MockPlanets[i])
  {
    var ps := MockPlanets;
    forall i | 0 <= i < |ps|
      ensures PlanetOk(ps[i])
    {
      if i == 0 { EarthAtmosphereOk(); }
      else if i == 1 { LunaStationOk(); }
      else if i == 2 { MarsColonyOk(); }
      else if i == 3 { JupiterGasGiantOk(); }
      else if i == 4 { RocketAcademyOk(); }
      else if i == 5 { MathGalaxyOk(); }
      else if i == 6 { TechStationOk(); }
      else { BlackHoleMysteryOk(); }
    }
  }

  /** The shipped requirements are acyclic and satisfied by every unlocked planet. */
  lemma MockRequirementsOk()
    ensures RequirementsOk(MockPlanets)
  {
    var ps := MockPlanets;
    forall i, j | 0 <= i < |ps| && 0 <= j < |RequirementsOf(ps[i])|
      ensures var req := PlanetById(ps, RequirementsOf(ps[i])[j]);
              req.Some? && req.value.id < ps[i].id && (ps[i].unlocked ==> req.value.completed)
    {
      var want := RequirementsOf(ps[i])[j];
      assert 1 <= want <= 7;
      assert ps[want - 1].id == want;
      assert PlanetById(ps, want) == Some(ps[want - 1]) by {
        PlanetByIdFindsFirst(ps, want - 1);
      }
    }
  }

  /** With ids `1..n` in order, looking up id `k+1` yields the `k`-th planet. */
  lemma {:induction false} PlanetByIdFindsFirst(ps: seq<Planet>, k: int)
    requires 0 <= k < |ps|
    requires forall i | 0 <= i <= k :: ps[i].id == i + 1
    ensures PlanetById(ps, k + 1) == Some(ps[k])
  {
    if k > 0 {
      var rest := ps[1..];
      assert forall i | 0 <= i <= k - 1 :: rest[i].id == ps[i + 1].id;
      PlanetByIdFindsFirstShifted(rest, k - 1, 2);
    }
  }

  /** The same lookup for ids starting at `base`. */
  lemma {:induction false} PlanetByIdFindsFirstShifted(ps: seq<Planet>, k: int, base: int)
    requires 0 <= k < |ps|
    requires forall i | 0 <= i <= k :: ps[i].id == i + base
    ensures PlanetById(ps, k + base) == Some(ps[k])
  {
    if k > 0 {
      var rest := ps[1..];
      assert forall i | 0 <= i <= k - 1 :: rest[i].id == ps[i + 1].id;
      PlanetByIdFindsFirstShifted(rest, k - 1, base + 1);
    }
  }

  /** The progress record agrees with the planet list: eight planets, two of
      them completed; earned achievements are dated and the fuel is in range. */
  lemma MockProgressOk()
    ensures ProgressOk(MockStudentProgress, MockPlanets)
    ensures MockStudentProgress.totalPlanets == 8 && MockStudentProgress.planetsCompleted == 2
  {
    var ps := MockPlanets;
    assert CountCompletedPlanets(ps[2..]) == 0 by {
      assert forall i | 2 <= i < |ps| :: !ps[i].completed;
      NoneCompleted(ps[2..]);
    }
  }

  lemma {:induction false} NoneCompleted(ps: seq<Planet>)
    requires forall i | 0 <= i < |ps| :: !ps[i].completed
    ensures CountCompletedPlanets(ps) == 0
  {
    if ps != [] {
      NoneCompleted(ps[1..]);
    }
  }
}
