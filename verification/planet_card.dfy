/** A planet's card on the space map: its completion percentage, its
    clickable/locked state, the click handler and what is drawn for it. */
module PlanetCard {
  import opened Wrappers
  import opened MockData
  import LessonPreview
  import Percent

  /** `completedLessons / lessons.length * 100`, as an exact rational; the
      source never rounds it and only uses it to draw the progress ring. A
      planet without lessons divides 0 by 0, which is `NaN`. */
  function CompletionPercent(p: Planet): (r: Option<real>)
    ensures r.None? <==> |p.lessons| == 0
    ensures r.Some? ==> 0.0 <= r.value <= 100.0
    ensures r.Some? ==> (r.value == 100.0 <==> forall i | 0 <= i < |p.lessons| :: p.lessons[i].completed)
    ensures r.Some? ==> (r.value == 0.0 <==> forall i | 0 <= i < |p.lessons| :: !p.lessons[i].completed)
  {
    var n := |p.lessons|;
    if n == 0 then None
    else
      var c := LessonPreview.CompletedLessons(p.lessons);
      PercentFacts(c, n);
      Some((c as real) / (n as real) * 100.0)
  }

  /** A share of completed lessons lies between 0% and 100% and reaches either
      end only when none or all are completed. */
  lemma PercentFacts(c: nat, n: nat)
    requires 0 < n && c <= n
    ensures 0.0 <= (c as real) / (n as real) * 100.0 <= 100.0
    ensures (c as real) / (n as real) * 100.0 == 100.0 <==> c == n
    ensures (c as real) / (n as real) * 100.0 == 0.0 <==> c == 0
  {
    var cr, nr := c as real, n as real;
    var q := cr / nr;
    assert q * nr == cr;
    Percent.ProductSign(q, nr);
    Percent.ProductSign(q - 1.0, nr);
    assert (q - 1.0) * nr == cr - nr;
  }

  /** What the card shows. `hovered` is the card's hover state. */
  datatype CardView = CardView(
    clickable: bool,
    locked: bool,
    lockOverlay: bool,
    progressRing: bool,
    infoCardVisible: bool,
    floatingStars: bool,
    buttonLabel: string)

  function View(p: Planet, hovered: bool): (v: CardView)
    ensures v.locked <==> !v.clickable
    ensures v.clickable <==> p.unlocked
    ensures v.lockOverlay <==> v.locked
    ensures v.progressRing <==> !v.locked
    ensures v.floatingStars <==> !v.locked
    ensures v.infoCardVisible <==> hovered && !v.locked
    ensures v.buttonLabel == "Review Planet" <==> p.completed
    ensures v.buttonLabel == "Explore Planet" <==> !p.completed
  {
    var clickable := p.unlocked;
    var locked := !p.unlocked;
    CardView(clickable, locked, locked, !locked, hovered && !locked, !locked,
      if p.completed then "Review Planet" else "Explore Planet")
  }

  /** The planet passed to the `onClick` prop, if any: only when the card is
      clickable and a handler was given. */
  function HandleClick(p: Planet, hasHandler: bool): (r: Option<Planet>)
    ensures r.Some? <==> View(p, false).clickable && hasHandler
    ensures r.Some? ==> r.value == p
  {
    if p.unlocked && hasHandler then Some(p) else None
  }

  /** A locked planet never shows its info card or progress ring and never
      reaches its handler, whatever the hover state. */
  lemma LockedCardIsInert(p: Planet, hovered: bool, hasHandler: bool)
    requires !p.unlocked
    ensures !View(p, hovered).infoCardVisible && !View(p, hovered).progressRing
    ensures HandleClick(p, hasHandler).None?
  {
  }

  /** The shipped cards: Earth's Atmosphere is full and offers Review, Luna
      Station two-thirds full and still offers Review although it has an
      unfinished lesson, Mars Colony one-third full and offers Explore; Jupiter
      is locked. */
  lemma MockCards()
    ensures CompletionPercent(EarthAtmosphere) == Some(100.0) && View(EarthAtmosphere, true).buttonLabel == "Review Planet"
    ensures CompletionPercent(LunaStation) == Some(200.0 / 3.0) && View(LunaStation, true).buttonLabel == "Review Planet"
    ensures CompletionPercent(MarsColony) == Some(100.0 / 3.0) && View(MarsColony, true).buttonLabel == "Explore Planet"
    ensures View(JupiterGasGiant, true).locked && HandleClick(JupiterGasGiant, true).None?
  {
    EarthCard();
    LunaCard();
    MarsCard();
  }

  lemma EarthCard()
    ensures CompletionPercent(EarthAtmosphere) == Some(100.0) && View(EarthAtmosphere, true).buttonLabel == "Review Planet"
  {
    CardPercent(EarthAtmosphere, 3, 100.0);
  }

  lemma LunaCard()
    ensures CompletionPercent(LunaStation) == Some(200.0 / 3.0) && View(LunaStation, true).buttonLabel == "Review Planet"
  {
    CardPercent(LunaStation, 2, 200.0 / 3.0);
  }

  lemma MarsCard()
    ensures CompletionPercent(MarsColony) == Some(100.0 / 3.0) && View(MarsColony, true).buttonLabel == "Explore Planet"
  {
    CardPercent(MarsColony, 1, 100.0 / 3.0);
  }

  /** A planet of three lessons with `c` completed shows `pct` percent. */
  lemma CardPercent(p: Planet, c: nat, pct: real)
    requires |p.lessons| == 3
    requires c == (if p.lessons[0].completed then 1 else 0) + (if p.lessons[1].completed then 1 else 0)
                  + (if p.lessons[2].completed then 1 else 0)
    requires (c as real) / 3.0 * 100.0 == pct
    ensures CompletionPercent(p) == Some(pct)
  {
    var ls := p.lessons;
    assert ls[1..][1..] == ls[2..];
    assert LessonPreview.CompletedLessons(ls[2..]) == (if ls[2].completed then 1 else 0);
    assert LessonPreview.CompletedLessons(ls[1..]) == (if ls[1].completed then 1 else 0) + (if ls[2].completed then 1 else 0);
  }
}
