/** The quiz data model: questions of three variants, the answers a learner can
    give to each, the per-question result record, the quiz state record, and
    the shipped four-question bank. */
module QuestionTypes {
  import opened Wrappers

  datatype Difficulty = Easy | Medium | Hard
  datatype Subject = Science | Technology | Engineering | Mathematics
  /** Whether a short-answer field is a text or a number input. The check
      ignores it; a number input hands over only a numeric string or the empty
      string, which typing here does not enforce. */
  datatype AnswerKind = TextInput | NumberInput

  datatype DragDropItem = DragDropItem(id: string, content: string, correctTargetId: string)
  datatype DragDropTarget = DragDropTarget(id: string, content: string, description: Option<string>)

  /** The variant-specific part of a question, tagged like the source's `type` field. */
  datatype Body =
    | MultipleChoice(options: seq<string>, correctAnswer: int)
    | DragDrop(items: seq<DragDropItem>, targets: seq<DragDropTarget>)
    | ShortAnswer(correctAnswers: seq<string>, answerType: AnswerKind)

  datatype Question = Question(
    id: int,
    prompt: string,
    xpReward: int,
    difficulty: Difficulty,
    subject: Subject,
    body: Body)

  /** A learner's answer, keyed like the question variant: the index of the chosen
      option, the typed text, or the item-id to target-id placement map. */
  datatype Answer =
    | Choice(index: int)
    | Typed(text: string)
    | Placement(matches: map<string, string>)

  datatype QuestionResult = QuestionResult(
    questionId: int,
    isCorrect: bool,
    userAnswer: Answer,
    xpEarned: int,
    timeSpent: int)

  /** The state the quiz screen keeps between answers. `startTime` is a clock
      reading supplied by the caller. */
  datatype QuizState = QuizState(
    currentQuestionIndex: int,
    totalQuestions: int,
    score: int,
    totalXP: int,
    results: seq<QuestionResult>,
    isComplete: bool,
    startTime: int)

  // ----- Aggregates ---------------------------------------------------------

  /** The XP a quiz advertises: the sum of its questions' rewards (a left fold from 0). */
  function MaxXP(qs: seq<Question>): int {
    if qs == [] then 0 else MaxXP(qs[..|qs| - 1]) + qs[|qs| - 1].xpReward
  }

  /** Number of correct results. */
  function CountCorrect(rs: seq<QuestionResult>): (n: nat)
    ensures n <= |rs|
  {
    if rs == [] then 0
    else CountCorrect(rs[..|rs| - 1]) + (if rs[|rs| - 1].isCorrect then 1 else 0)
  }

  /** Sum of the XP earned over results. */
  function SumXpEarned(rs: seq<QuestionResult>): int {
    if rs == [] then 0 else SumXpEarned(rs[..|rs| - 1]) + rs[|rs| - 1].xpEarned
  }

  // ----- Well-formedness of authored questions ------------------------------

  function ItemIds(items: seq<DragDropItem>): (ids: seq<string>)
    ensures |ids| == |items|
    ensures forall i | 0 <= i < |items| :: ids[i] == items[i].id
  {
    seq(|items|, i requires 0 <= i < |items| => items[i].id)
  }

  function TargetIds(targets: seq<DragDropTarget>): (ids: seq<string>)
    ensures |ids| == |targets|
    ensures forall i | 0 <= i < |targets| :: ids[i] == targets[i].id
  {
    seq(|targets|, i requires 0 <= i < |targets| => targets[i].id)
  }

  function QuestionIds(qs: seq<Question>): (ids: seq<int>)
    ensures |ids| == |qs|
    ensures forall i | 0 <= i < |qs| :: ids[i] == qs[i].id
  {
    seq(|qs|, i requires 0 <= i < |qs| => qs[i].id)
  }

  /** The invariants an authored question is expected to satisfy: a positive
      reward; for multiple choice an in-bounds correct index; for drag-drop
      distinct item ids, distinct target ids and every item's correct target
      among the targets; for short answer at least one accepted answer. */
  predicate WellFormedQuestion(q: Question) {
    && q.xpReward > 0
    && match q.body
       case MultipleChoice(options, correctAnswer) =>
         0 <= correctAnswer < |options|
       case DragDrop(items, targets) =>
         && NoDup(ItemIds(items))
         && NoDup(TargetIds(targets))
         && forall i | 0 <= i < |items| :: items[i].correctTargetId in TargetIds(targets)
       case ShortAnswer(correctAnswers, _) =>
         |correctAnswers| > 0
  }

  /** A question set: every question well formed and question ids distinct. */
  predicate WellFormedSet(qs: seq<Question>) {
    && (forall i | 0 <= i < |qs| :: WellFormedQuestion(qs[i]))
    && NoDup(QuestionIds(qs))
  }

  /** With non-negative rewards, a prefix of a set advertises no more XP than the set. */
  lemma {:induction false} MaxXPPrefix(qs: seq<Question>, k: nat)
    requires k <= |qs|
    requires forall i | 0 <= i < |qs| :: qs[i].xpReward >= 0
    ensures 0 <= MaxXP(qs[..k]) <= MaxXP(qs)
  {
    if k < |qs| {
      var init := qs[..|qs| - 1];
      assert init[..k] == qs[..k];
      MaxXPPrefix(init, k);
    } else {
      assert qs[..k] == qs;
      if qs != [] {
        MaxXPPrefix(qs[..|qs| - 1], |qs| - 1);
        assert qs[..|qs| - 1][..|qs| - 1] == qs[..|qs| - 1];
      }
    }
  }

  // ----- The shipped bank -----------------------------------------------------

  const MockQuestions: seq<Question> := [
    Question(1, "Which planet is known as the 'Red Planet'?", 25, Easy, Science,
      MultipleChoice(["Venus", "Mars", "Jupiter", "Saturn"], 1)),
    Question(2, "Match each planet to its correct description:", 40, Medium, Science,
      DragDrop(
        [ DragDropItem("earth", "\U{1F30D} Earth", "target-earth"),
          DragDropItem("mars", "\U{1F534} Mars", "target-mars"),
          DragDropItem("jupiter", "\U{1FA90} Jupiter", "target-jupiter") ],
        [ DragDropTarget("target-earth", "Has water and life", Some("The only known planet with life")),
          DragDropTarget("target-mars", "The Red Planet", Some("Known for its rusty color")),
          DragDropTarget("target-jupiter", "Largest planet", Some("A gas giant with many moons")) ])),
    Question(3, "How many moons does Earth have?", 15, Easy, Science,
      ShortAnswer(["1", "one", "One"], TextInput)),
    Question(4, "What is the speed of light in a vacuum?", 35, Hard, Science,
      MultipleChoice(["299,792,458 m/s", "150,000,000 m/s", "384,400 km/s", "1,000,000 m/s"], 0))
  ]

  /** The shipped bank is well formed. */
  lemma MockQuestionsWellFormed()
    ensures WellFormedSet(MockQuestions)
  {
    var dd := MockQuestions[1].body;
    assert ItemIds(dd.items) == ["earth", "mars", "jupiter"];
    assert TargetIds(dd.targets) == ["target-earth", "target-mars", "target-jupiter"];
    assert QuestionIds(MockQuestions) == [1, 2, 3, 4];
  }

  /** The shipped bank advertises 115 XP. */
  lemma MockQuestionsMaxXP()
    ensures MaxXP(MockQuestions) == 115
  {
    var q := MockQuestions;
    assert q[..|q| - 1] == q[..3] && q[..3][..2] == q[..2] && q[..2][..1] == q[..1];
    assert MaxXP(q[..1]) == 25;
    assert MaxXP(q[..2]) == 65;
    assert MaxXP(q[..3]) == 80;
  }
}
