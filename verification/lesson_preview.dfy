/** The lesson preview of one planet: its aggregates (completed lessons, stars,
    XP earned), the lesson-detail modal's selection, the start actions and the
    labels on the action buttons. */
module LessonPreview {
  import opened Wrappers
  import opened MockData

  // ----- Aggregates -----------------------------------------------------------------

  /** `lessons.filter(l => l.completed).length`. */
  function CompletedLessons(ls: seq<Lesson>): (n: nat)
    ensures n <= |ls|
    ensures n == |ls| <==> forall i | 0 <= i < |ls| :: ls[i].completed
    ensures n == 0 <==> forall i | 0 <= i < |ls| :: !ls[i].completed
  {
    if ls == [] then 0
    else
      var rest := CompletedLessons(ls[1..]);
      assert forall i | 1 <= i < |ls| :: ls[i] == ls[1..][i - 1];
      (if ls[0].completed then 1 else 0) + rest
  }

  /** The stars earned over all lessons; also the stars a planet reports. On
      consistent lessons it never exceeds the stars on offer. */
  function TotalStarsEarned(ls: seq<Lesson>): (r: int)
    ensures (forall i | 0 <= i < |ls| :: LessonOk(ls[i])) ==> 0 <= r <= SumMaxStars(ls)
  {
    EarnedStarsWithinMax(ls);
    SumLessonStars(ls)
  }

  lemma {:induction false} EarnedStarsWithinMax(ls: seq<Lesson>)
    ensures (forall i | 0 <= i < |ls| :: LessonOk(ls[i])) ==> 0 <= SumLessonStars(ls) <= SumMaxStars(ls)
  {
    if ls != [] {
      assert forall i | 1 <= i < |ls| :: ls[i] == ls[1..][i - 1];
      EarnedStarsWithinMax(ls[1..]);
    }
  }

  /** XP summed over completed lessons only: with nothing completed there is
      no XP, and with non-negative rewards it is never negative. */
  function TotalXP(ls: seq<Lesson>): (r: int)
    ensures (forall i | 0 <= i < |ls| :: !ls[i].completed) ==> r == 0
    ensures (forall i | 0 <= i < |ls| :: ls[i].xpReward >= 0) ==> r >= 0
  {
    if ls == [] then 0
    else
      assert forall i | 1 <= i < |ls| :: ls[i] == ls[1..][i - 1];
      (if ls[0].completed then ls[0].xpReward else 0) + TotalXP(ls[1..])
  }

  /** With non-negative rewards the XP earned lies between 0 and the sum of all
      rewards, and equals that sum once every lesson is completed. */
  lemma {:induction false} TotalXPBounds(ls: seq<Lesson>)
    requires forall i | 0 <= i < |ls| :: ls[i].xpReward >= 0
    ensures 0 <= TotalXP(ls) <= SumLessonXp(ls)
    ensures (forall i | 0 <= i < |ls| :: ls[i].completed) ==> TotalXP(ls) == SumLessonXp(ls)
  {
    if ls != [] {
      assert forall i | 1 <= i < |ls| :: ls[i] == ls[1..][i - 1];
      TotalXPBounds(ls[1..]);
    }
  }

  /** Consistent lessons earn between 0 and the maximum number of stars, and
      reach the maximum exactly when every lesson has all its stars. */
  lemma {:induction false} StarsBounds(ls: seq<Lesson>)
    requires forall i | 0 <= i < |ls| :: LessonOk(ls[i])
    ensures 0 <= TotalStarsEarned(ls) <= SumMaxStars(ls)
    ensures TotalStarsEarned(ls) == SumMaxStars(ls) <==>
              forall i | 0 <= i < |ls| :: ls[i].starsEarned == ls[i].maxStars
  {
    if ls != [] {
      assert forall i | 1 <= i < |ls| :: ls[i] == ls[1..][i - 1];
      StarsBounds(ls[1..]);
    }
  }

  /** The "Star Collector" card is lit when the stars earned reach the planet's total. */
  function StarCollector(p: Planet): (r: bool)
    ensures PlanetOk(p) ==> (r <==> TotalStarsEarned(p.lessons) == p.totalStars)
  {
    TotalStarsEarned(p.lessons) >= p.totalStars
  }

  /** On a consistent planet, Star Collector is lit exactly when every lesson
      has earned all of its stars. */
  lemma StarCollectorIffAllStars(p: Planet)
    requires PlanetOk(p)
    ensures StarCollector(p) <==> forall i | 0 <= i < |p.lessons| :: p.lessons[i].starsEarned == p.lessons[i].maxStars
  {
    StarsBounds(p.lessons);
  }

  // ----- Selection and start ----------------------------------------------------------

  /** The lesson whose detail modal is open, if any. */
  datatype Preview = Preview(selected: Option<Lesson>)

  const NoSelection: Preview := Preview(None)

  /** Clicking a lesson card opens its modal only when the lesson is unlocked. */
  function SelectLesson(pv: Preview, l: Lesson): (r: Preview)
    ensures l.unlocked ==> r.selected == Some(l)
    ensures !l.unlocked ==> r == pv
  {
    if l.unlocked then Preview(Some(l)) else pv
  }

  /** The backdrop and the close button both clear the selection. */
  function CloseModal(pv: Preview): (r: Preview)
    ensures r.selected.None?
  {
    NoSelection
  }

  /** The modal's start button, present only while a lesson is selected: the
      selection is cleared and that lesson is handed to `onStartLesson`. */
  function StartFromModal(pv: Preview): (r: (Preview, Option<Lesson>))
    ensures r.0.selected.None?
    ensures r.1 == pv.selected
  {
    (NoSelection, pv.selected)
  }

  /** The start button on a lesson card, drawn only for unlocked lessons: the
      lesson handed to `onStartLesson`, if the button exists. */
  function StartFromCard(l: Lesson): (r: Option<Lesson>)
    ensures r.Some? <==> l.unlocked
    ensures r.Some? ==> r.value == l
  {
    if l.unlocked then Some(l) else None
  }

  /** Only unlocked lessons are ever selected. */
  predicate SelectionUnlocked(pv: Preview) {
    pv.selected.Some? ==> pv.selected.value.unlocked
  }

  /** Every way of starting a lesson hands over an unlocked lesson, and no
      handler selects a locked one. */
  lemma OnlyUnlockedLessonsStart(pv: Preview, l: Lesson)
    requires SelectionUnlocked(pv)
    ensures SelectionUnlocked(SelectLesson(pv, l))
    ensures SelectionUnlocked(CloseModal(pv))
    ensures SelectionUnlocked(StartFromModal(pv).0)
    ensures StartFromModal(pv).1.Some? ==> StartFromModal(pv).1.value.unlocked
    ensures StartFromCard(l).Some? ==> StartFromCard(l).value.unlocked
  {
  }

  // ----- Labels ---------------------------------------------------------------------------

  /** Where an action button sits: on a lesson card or in the modal. */
  datatype Place = Card | Modal

  /** Review for a completed lesson, Continue once progress has started, else
      Start; the modal spells Continue out in full. */
  function ActionLabel(l: Lesson, place: Place): (r: string)
    ensures r in {"Review Lesson", "Continue", "Continue Lesson", "Start Lesson"}
    ensures place == Card ==> r != "Continue Lesson"
    ensures place == Modal ==> r != "Continue"
  {
    if l.completed then "Review Lesson"
    else if l.progress > 0 then (if place == Card then "Continue" else "Continue Lesson")
    else "Start Lesson"
  }

  /** The label names the lesson's state: Review exactly for completed lessons,
      Start exactly for untouched ones, and the two places agree up to the
      wording of Continue. */
  lemma ActionLabelStates(l: Lesson, place: Place)
    ensures ActionLabel(l, place) == "Review Lesson" <==> l.completed
    ensures ActionLabel(l, place) == "Start Lesson" <==> !l.completed && l.progress <= 0
    ensures (ActionLabel(l, Card) == "Continue") <==> (ActionLabel(l, Modal) == "Continue Lesson")
  {
  }

  /** On Luna Station two of three lessons are completed and the planet still
      counts as completed: the "Planet Master" card follows the planet's flag,
      not the lesson count. Its unfinished lesson offers Continue. */
  lemma LunaStationPreview()
    ensures CompletedLessons(LunaStation.lessons) == 2 && LunaStation.completed
    ensures TotalXP(LunaStation.lessons) == 75 && SumLessonXp(LunaStation.lessons) == 110
    ensures TotalStarsEarned(LunaStation.lessons) == 7 && !StarCollector(LunaStation)
    ensures ActionLabel(LunaStation.lessons[2], Card) == "Continue"
  {
  }
}
