/** The single-question component: the answer checker, the result it builds,
    the drag-and-drop placement map, the auto-submit trigger for drag-drop
    questions and the condition that enables the submit button.

    The component's React state is the `QuestionView` record; every event
    handler is a pure function from one view to the next. Timers (the 2.5 s
    feedback delay before the result is reported, the 0.5 s auto-submit delay)
    are not modelled: the result is returned with the new view. */
module QuestionCheck {
  import opened Wrappers
  import opened Text
  import opened QuestionTypes

  /** The component's state. `userAnswer == None` is the source's `null`. */
  datatype QuestionView = QuestionView(
    userAnswer: Option<Answer>,
    isAnswered: bool,
    isCorrect: bool,
    showFeedback: bool,
    draggedItem: Option<string>,
    dropMatches: map<string, string>)

  /** The state a question is first shown in. */
  const FreshView: QuestionView := QuestionView(None, false, false, false, None, map[])

  // ----- The answer checker -------------------------------------------------

  /** The accepted answers, each normalised. */
  function NormalizeAll(accepted: seq<string>): (all: seq<string>)
    ensures |all| == |accepted|
    ensures forall i | 0 <= i < |accepted| :: all[i] == Normalize(accepted[i])
  {
    seq(|accepted|, i requires 0 <= i < |accepted| => Normalize(accepted[i]))
  }

  /** `correctAnswers.some(ans => normalize(ans) === normalized)`: membership
      among the normalised answers is the existence of an accepted answer with
      that normal form. */
  lemma AcceptedIff(accepted: seq<string>, normalized: string)
    ensures normalized in NormalizeAll(accepted) <==>
              exists i | 0 <= i < |accepted| :: Normalize(accepted[i]) == normalized
  {
    var all := NormalizeAll(accepted);
    if normalized in all {
      var k :| 0 <= k < |all| && all[k] == normalized;
      assert Normalize(accepted[k]) == normalized;
    }
    if exists i | 0 <= i < |accepted| :: Normalize(accepted[i]) == normalized {
      var k :| 0 <= k < |accepted| && Normalize(accepted[k]) == normalized;
      assert all[k] == normalized;
    }
  }


  /** `items.every(item => matches[item.id] === item.correctTargetId)`; a missing
      key reads as `undefined`, which equals no target id. */
  function EveryPlacedCorrectly(items: seq<DragDropItem>, matches: map<string, string>): (r: bool)
    ensures r <==> forall i | 0 <= i < |items| ::
                     items[i].id in matches && matches[items[i].id] == items[i].correctTargetId
  {
    if items == [] then true
    else
      var head := items[0];
      var rest := EveryPlacedCorrectly(items[1..], matches);
      assert forall i | 1 <= i < |items| :: items[i] == items[1..][i - 1];
      (head.id in matches && matches[head.id] == head.correctTargetId) && rest
  }

  /** Whether `answer` is a correct answer to `q`. An answer of the wrong shape
      for the question's variant is incorrect. */
  function Check(q: Question, answer: Answer): (r: bool)
    ensures q.body.MultipleChoice? ==> (r <==> answer == Choice(q.body.correctAnswer))
    ensures q.body.ShortAnswer? ==>
      (r <==> answer.Typed? && Normalize(answer.text) in NormalizeAll(q.body.correctAnswers))
    ensures q.body.DragDrop? ==>
      (r <==> answer.Placement? &&
              forall i | 0 <= i < |q.body.items| ::
                q.body.items[i].id in answer.matches &&
                answer.matches[q.body.items[i].id] == q.body.items[i].correctTargetId)
  {
    match (q.body, answer)
    case (MultipleChoice(_, correctAnswer), Choice(index)) => index == correctAnswer
    case (ShortAnswer(accepted, _), Typed(text)) => Normalize(text) in NormalizeAll(accepted)
    case (DragDrop(items, _), Placement(matches)) => EveryPlacedCorrectly(items, matches)
    case _ => false
  }

  /** A typed answer is accepted when some accepted answer normalises to the
      same text as it. */
  lemma ShortAnswerAccepts(q: Question, text: string, k: int)
    requires q.body.ShortAnswer? && 0 <= k < |q.body.correctAnswers|
    requires Normalize(q.body.correctAnswers[k]) == Normalize(text)
    ensures Check(q, Typed(text))
  {
    AcceptedIff(q.body.correctAnswers, Normalize(text));
  }

  /** A typed answer is rejected when no accepted answer normalises to the
      same text as it. */
  lemma ShortAnswerRejects(q: Question, text: string)
    requires q.body.ShortAnswer?
    requires forall i | 0 <= i < |q.body.correctAnswers| :: Normalize(q.body.correctAnswers[i]) != Normalize(text)
    ensures !Check(q, Typed(text))
  {
    AcceptedIff(q.body.correctAnswers, Normalize(text));
  }

  /** Keys that are not item ids do not affect a drag-drop check. */
  lemma CheckIgnoresExtraKeys(q: Question, m1: map<string, string>, m2: map<string, string>)
    requires q.body.DragDrop?
    requires forall i | 0 <= i < |q.body.items| ::
               var id := q.body.items[i].id;
               (id in m1 <==> id in m2) && (id in m1 ==> m1[id] == m2[id])
    ensures Check(q, Placement(m1)) == Check(q, Placement(m2))
  {
  }

  /** One missing or wrong placement makes an otherwise correct drag-drop answer
      incorrect. */
  lemma CheckNeedsEveryPlacement(q: Question, m: map<string, string>, k: int, wrong: string)
    requires q.body.DragDrop? && 0 <= k < |q.body.items|
    requires wrong != q.body.items[k].correctTargetId
    ensures !Check(q, Placement(m - {q.body.items[k].id}))
    ensures !Check(q, Placement(m[q.body.items[k].id := wrong]))
  {
    var id := q.body.items[k].id;
    assert id !in m - {id};
    assert (m[id := wrong])[id] == wrong;
  }

  // ----- Building the result --------------------------------------------------

  /** The answer the check and the result see: for drag-drop the placement map,
      otherwise the recorded answer. */
  function SubmittedAnswer(q: Question, v: QuestionView): Answer
    requires v.userAnswer.Some?
  {
    if q.body.DragDrop? then Placement(v.dropMatches) else v.userAnswer.value
  }

  /** `handleSubmit`: nothing happens without an answer or once answered;
      otherwise the answer is checked, the view switches to feedback, and a
      result is produced carrying the question id and the reward if correct.
      `timeSpent` is the elapsed seconds, supplied by the caller. */
  function Submit(q: Question, v: QuestionView, timeSpent: int): (r: (QuestionView, Option<QuestionResult>))
    ensures r.1.Some? <==> v.userAnswer.Some? && !v.isAnswered
    ensures r.1.None? ==> r.0 == v
    ensures r.1.Some? ==>
      var res := r.1.value;
      && res.questionId == q.id
      && res.timeSpent == timeSpent
      && res.isCorrect == Check(q, res.userAnswer)
      && (q.body.DragDrop? ==> res.userAnswer == Placement(v.dropMatches))
      && (!q.body.DragDrop? ==> Some(res.userAnswer) == v.userAnswer)
      && (res.isCorrect ==> res.xpEarned == q.xpReward)
      && (!res.isCorrect ==> res.xpEarned == 0)
      && (q.xpReward >= 0 ==> 0 <= res.xpEarned <= q.xpReward)
      && r.0 == v.(isAnswered := true, isCorrect := res.isCorrect, showFeedback := true)
  {
    if v.userAnswer.None? || v.isAnswered then (v, None)
    else
      var answer := SubmittedAnswer(q, v);
      var correct := Check(q, answer);
      var result := QuestionResult(q.id, correct, answer, if correct then q.xpReward else 0, timeSpent);
      (v.(isCorrect := correct, isAnswered := true, showFeedback := true), Some(result))
  }

  /** A question is submitted at most once: a second submit changes nothing. */
  lemma SubmitAtMostOnce(q: Question, v: QuestionView, t1: int, t2: int)
    ensures var v1 := Submit(q, v, t1).0;
            Submit(q, v1, t2) == (v1, None)
  {
  }

  // ----- Input events ---------------------------------------------------------

  /** Clicking option `index`: recorded only while unanswered. */
  function ChooseOption(v: QuestionView, index: int): (r: QuestionView)
    ensures !v.isAnswered ==> r.userAnswer == Some(Choice(index))
    ensures v.isAnswered ==> r == v
    ensures r.(userAnswer := v.userAnswer) == v
  {
    if v.isAnswered then v else v.(userAnswer := Some(Choice(index)))
  }

  /** Typing into the short-answer field (disabled once answered). Any text is
      recorded, whatever the field's kind: a number field's own filtering of
      what it hands over is not modelled. */
  function TypeText(v: QuestionView, text: string): (r: QuestionView)
    ensures !v.isAnswered ==> r.userAnswer == Some(Typed(text))
    ensures v.isAnswered ==> r == v
    ensures r.(userAnswer := v.userAnswer) == v
  {
    if v.isAnswered then v else v.(userAnswer := Some(Typed(text)))
  }

  /** Starting to drag an item records it as the dragged item. */
  function DragStart(v: QuestionView, itemId: string): (r: QuestionView)
    ensures r.draggedItem == Some(itemId)
    ensures r.(draggedItem := v.draggedItem) == v
  {
    v.(draggedItem := Some(itemId))
  }

  /** `handleDrop`: the dragged item id is placed on `targetId` unless the id is
      empty or the question is answered; the dragged item is cleared either way. */
  function Drop(v: QuestionView, itemId: string, targetId: string): (r: QuestionView)
    ensures r.draggedItem == None
    ensures r.(draggedItem := v.draggedItem, dropMatches := v.dropMatches) == v
    ensures itemId != "" && !v.isAnswered ==>
      && r.dropMatches.Keys == v.dropMatches.Keys + {itemId}
      && r.dropMatches[itemId] == targetId
      && forall k | k in v.dropMatches && k != itemId :: r.dropMatches[k] == v.dropMatches[k]
    ensures itemId == "" || v.isAnswered ==> r.dropMatches == v.dropMatches
  {
    var matches := if itemId != "" && !v.isAnswered then v.dropMatches[itemId := targetId] else v.dropMatches;
    v.(dropMatches := matches, draggedItem := None)
  }

  // ----- Auto-submit and the submit button --------------------------------------

  /** `items.every(item => matches[item.id])`: every item has a non-empty placement. */
  function AllPlaced(items: seq<DragDropItem>, matches: map<string, string>): (r: bool)
    ensures r <==> forall i | 0 <= i < |items| :: items[i].id in matches && matches[items[i].id] != ""
  {
    if items == [] then true
    else
      var rest := AllPlaced(items[1..], matches);
      assert forall i | 1 <= i < |items| :: items[i] == items[1..][i - 1];
      (items[0].id in matches && matches[items[0].id] != "") && rest
  }

  /** The drag-drop auto-submit trigger: every item placed and not yet answered. */
  predicate AutoSubmitTrigger(q: Question, v: QuestionView) {
    q.body.DragDrop? && AllPlaced(q.body.items, v.dropMatches) && !v.isAnswered
  }

  /** The trigger fires exactly when every item has a non-empty placement on an
      unanswered drag-drop question; one unplaced item keeps it off. */
  lemma AutoSubmitTriggerExact(q: Question, v: QuestionView)
    requires q.body.DragDrop?
    ensures AutoSubmitTrigger(q, v) <==>
      !v.isAnswered &&
      forall i | 0 <= i < |q.body.items| ::
        q.body.items[i].id in v.dropMatches && v.dropMatches[q.body.items[i].id] != ""
    ensures forall i | 0 <= i < |q.body.items| ::
      q.body.items[i].id !in v.dropMatches ==> !AutoSubmitTrigger(q, v)
  {
  }

  /** The effect that runs when the trigger holds: the placement map becomes the
      recorded answer, which enables the submit button. */
  function AutoSubmitEffect(q: Question, v: QuestionView): (r: QuestionView)
    ensures AutoSubmitTrigger(q, v) ==> r == v.(userAnswer := Some(Placement(v.dropMatches)))
    ensures !AutoSubmitTrigger(q, v) ==> r == v
  {
    if AutoSubmitTrigger(q, v) then v.(userAnswer := Some(Placement(v.dropMatches))) else v
  }

  /** The submit button is shown while unanswered and enabled when an answer is
      recorded, that answer is not the empty text, and, for drag-drop, at least
      one item is placed. */
  predicate SubmitEnabled(q: Question, v: QuestionView) {
    && !v.isAnswered
    && v.userAnswer.Some?
    && v.userAnswer != Some(Typed(""))
    && !(q.body.DragDrop? && |v.dropMatches| == 0)
  }

  /** An enabled button always leads to a submission. */
  lemma SubmitEnabledSubmits(q: Question, v: QuestionView, timeSpent: int)
    requires SubmitEnabled(q, v)
    ensures Submit(q, v, timeSpent).1.Some?
  {
  }

  /** Placing each item, in order, on its declared target. */
  function DropAll(v: QuestionView, items: seq<DragDropItem>): QuestionView {
    if items == [] then v
    else
      var last := items[|items| - 1];
      Drop(DropAll(v, items[..|items| - 1]), last.id, last.correctTargetId)
  }

  /** Drops never change whether the question is answered, nor the recorded answer. */
  lemma {:induction false} DropAllKeepsAnswered(v: QuestionView, items: seq<DragDropItem>)
    ensures DropAll(v, items).isAnswered == v.isAnswered
    ensures DropAll(v, items).userAnswer == v.userAnswer
  {
    if items != [] {
      DropAllKeepsAnswered(v, items[..|items| - 1]);
    }
  }

  /** Placing every item (distinct, non-empty ids) on its declared target from
      an unanswered view maps each item to its correct target. */
  lemma {:induction false} DropAllPlacesEveryItem(v: QuestionView, items: seq<DragDropItem>)
    requires !v.isAnswered
    requires NoDup(ItemIds(items))
    requires forall i | 0 <= i < |items| :: items[i].id != ""
    ensures forall i | 0 <= i < |items| ::
      items[i].id in DropAll(v, items).dropMatches &&
      DropAll(v, items).dropMatches[items[i].id] == items[i].correctTargetId
  {
    if items != [] {
      var init := items[..|items| - 1];
      var last := items[|items| - 1];
      assert NoDup(ItemIds(init)) by {
        forall i, j | 0 <= i < j < |init|
          ensures ItemIds(init)[i] != ItemIds(init)[j]
        {
          assert ItemIds(items)[i] != ItemIds(items)[j];
        }
      }
      DropAllPlacesEveryItem(v, init);
      DropAllKeepsAnswered(v, init);
      var before := DropAll(v, init);
      var after := DropAll(v, items);
      forall i | 0 <= i < |items|
        ensures items[i].id in after.dropMatches && after.dropMatches[items[i].id] == items[i].correctTargetId
      {
        if i < |items| - 1 {
          assert ItemIds(items)[i] != ItemIds(items)[|items| - 1];
          assert items[i] == init[i];
        }
      }
    }
  }

  /** Placing every item of a well-formed drag-drop question on its declared
      target fires the auto-submit trigger, and submitting the view the effect
      leaves (the Submit press that follows) is marked correct and earns the
      full reward. */
  lemma CorrectPlacementAutoSubmitsCorrectly(q: Question, timeSpent: int)
    requires q.body.DragDrop? && WellFormedQuestion(q)
    requires forall i | 0 <= i < |q.body.items| ::
               q.body.items[i].id != "" && q.body.items[i].correctTargetId != ""
    ensures AutoSubmitTrigger(q, DropAll(FreshView, q.body.items))
    ensures var r := Submit(q, AutoSubmitEffect(q, DropAll(FreshView, q.body.items)), timeSpent).1;
            r.Some? && r.value.isCorrect && r.value.xpEarned == q.xpReward
  {
    DropAllPlacesEveryItem(FreshView, q.body.items);
    DropAllKeepsAnswered(FreshView, q.body.items);
  }

  /** The 500 ms auto-submit timer as written: its callback is the
      `handleSubmit` of the render that scheduled it, so it submits the view
      from before the effect recorded the placements. It can submit only if
      an answer was recorded before the effect ran. */
  function AutoSubmitTimerAsWritten(q: Question, v: QuestionView, timeSpent: int): (r: Option<QuestionResult>)
    ensures r.Some? ==> AutoSubmitTrigger(q, v) && v.userAnswer.Some?
  {
    if AutoSubmitTrigger(q, v) then Submit(q, v, timeSpent).1 else None
  }

  /** On a fresh drag-drop question nothing records an answer before the
      effect, so the timer fires with all items placed yet submits nothing;
      only the submit button, which the effect enables, submits. */
  lemma AutoSubmitTimerSubmitsNothing(q: Question, timeSpent: int)
    requires q.body.DragDrop? && |q.body.items| > 0
    requires forall i | 0 <= i < |q.body.items| ::
               q.body.items[i].id != "" && q.body.items[i].correctTargetId != ""
    requires NoDup(ItemIds(q.body.items))
    ensures AutoSubmitTrigger(q, DropAll(FreshView, q.body.items))
    ensures AutoSubmitTimerAsWritten(q, DropAll(FreshView, q.body.items), timeSpent).None?
    ensures SubmitEnabled(q, AutoSubmitEffect(q, DropAll(FreshView, q.body.items)))
  {
    var items := q.body.items;
    DropAllPlacesEveryItem(FreshView, items);
    DropAllKeepsAnswered(FreshView, items);
    var v := DropAll(FreshView, items);
    assert items[0].id in v.dropMatches;
  }
}
