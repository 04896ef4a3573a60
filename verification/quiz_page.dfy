/** The quiz selection page: three quiz sets, the page state (active quiz,
    its title, the ids of completed sets) and the start/complete/exit handlers. */
module QuizPage {
  import opened Wrappers
  import opened QuestionTypes
  import QuestionCheck
  import Text

  datatype QuizSet = QuizSet(
    id: string,
    title: string,
    description: string,
    difficulty: string,
    questions: seq<Question>,
    estimatedTime: string,
    maxXP: int)

  datatype PageState = PageState(
    activeQuiz: Option<seq<Question>>,
    quizTitle: string,
    completedQuizzes: seq<string>)

  const InitialPage: PageState := PageState(None, "", [])

  const RocketScienceQuestions: seq<Question> := [
    Question(101, "What is the main principle behind rocket propulsion?", 30, Medium, Engineering,
      MultipleChoice(["Newton's Third Law", "Bernoulli's Principle", "Conservation of Energy", "Gravity"], 0)),
    Question(102, "What is the escape velocity from Earth in km/s? (Round to nearest whole number)", 40, Hard, Mathematics,
      ShortAnswer(["11", "eleven"], NumberInput)),
    Question(103, "Match rocket components to their functions:", 35, Medium, Engineering,
      DragDrop(
        [ DragDropItem("engine", "\U{1F680} Engine", "target-propulsion"),
          DragDropItem("fuel-tank", "\U{26FD} Fuel Tank", "target-storage"),
          DragDropItem("guidance", "\U{1F9ED} Guidance System", "target-navigation") ],
        [ DragDropTarget("target-propulsion", "Provides thrust", Some("Creates the force to move the rocket")),
          DragDropTarget("target-storage", "Stores propellant", Some("Holds fuel and oxidizer")),
          DragDropTarget("target-navigation", "Controls direction", Some("Steers the rocket to its destination")) ]))
  ]

  const SpaceMathQuestions: seq<Question> := [
    Question(201, "If light travels 300,000 km per second, how many minutes does it take to reach Earth from the Sun? (150 million km away)",
      50, Hard, Mathematics, ShortAnswer(["8.33", "8", "8.3"], NumberInput)),
    Question(202, "What happens to gravitational force when the distance between two objects doubles?",
      45, Hard, Mathematics, MultipleChoice(["It doubles", "It halves", "It becomes 1/4", "It stays the same"], 2))
  ]

  /** The three sets; the first computes its maximum XP from its questions, the
      other two state it as a literal. */
  const QuizSets: seq<QuizSet> := [
    QuizSet("space-basics", "Space Basics", "Test your knowledge of planets, stars, and space exploration",
      "Beginner", MockQuestions, "8 min", MaxXP(MockQuestions)),
    QuizSet("rocket-science", "Rocket Science", "Learn about propulsion, trajectories, and space missions",
      "Intermediate", RocketScienceQuestions, "6 min", 105),
    QuizSet("space-math", "Space Mathematics", "Calculate distances, velocities, and orbital mechanics",
      "Advanced", SpaceMathQuestions, "4 min", 95)
  ]

  function SetIds(sets: seq<QuizSet>): (ids: seq<string>)
    ensures |ids| == |sets|
    ensures forall i | 0 <= i < |sets| :: ids[i] == sets[i].id
  {
    seq(|sets|, i requires 0 <= i < |sets| => sets[i].id)
  }

  function SetTitles(sets: seq<QuizSet>): (titles: seq<string>)
    ensures |titles| == |sets|
    ensures forall i | 0 <= i < |sets| :: titles[i] == sets[i].title
  {
    seq(|sets|, i requires 0 <= i < |sets| => sets[i].title)
  }

  lemma RocketScienceWellFormed()
    ensures WellFormedSet(RocketScienceQuestions)
  {
    var rs := RocketScienceQuestions;
    assert ItemIds(rs[2].body.items) == ["engine", "fuel-tank", "guidance"];
    assert TargetIds(rs[2].body.targets) == ["target-propulsion", "target-storage", "target-navigation"];
    assert QuestionIds(rs) == [101, 102, 103];
  }

  lemma RocketScienceMaxXP()
    ensures MaxXP(RocketScienceQuestions) == 105
  {
    var rs := RocketScienceQuestions;
    assert rs[..|rs| - 1] == rs[..2] && rs[..2][..1] == rs[..1];
    assert MaxXP(rs[..1]) == 30;
    assert MaxXP(rs[..2]) == 70;
  }

  lemma SpaceMathWellFormed()
    ensures WellFormedSet(SpaceMathQuestions)
    ensures MaxXP(SpaceMathQuestions) == 95
  {
    var sm := SpaceMathQuestions;
    assert QuestionIds(sm) == [201, 202];
    assert sm[..|sm| - 1] == sm[..1];
    assert MaxXP(sm[..1]) == 50;
  }

  /** Every shipped set is well formed and advertises exactly the sum of its
      questions' rewards. */
  lemma QuizSetsWellFormed()
    ensures forall i | 0 <= i < |QuizSets| ::
              WellFormedSet(QuizSets[i].questions) && QuizSets[i].maxXP == MaxXP(QuizSets[i].questions)
  {
    forall i | 0 <= i < |QuizSets|
      ensures WellFormedSet(QuizSets[i].questions) && QuizSets[i].maxXP == MaxXP(QuizSets[i].questions)
    {
      if i == 0 {
        MockQuestionsWellFormed();
      } else if i == 1 {
        RocketScienceWellFormed();
        RocketScienceMaxXP();
      } else {
        SpaceMathWellFormed();
      }
    }
  }

  /** Set ids and titles are distinct. */
  lemma QuizSetsDistinct()
    ensures NoDup(SetIds(QuizSets)) && NoDup(SetTitles(QuizSets))
  {
    assert SetIds(QuizSets) == ["space-basics", "rocket-science", "space-math"];
    assert SetTitles(QuizSets) == ["Space Basics", "Rocket Science", "Space Mathematics"];
  }

  /** `quizSets.find(q => q.title === title)`: the first set with that title. */
  function FindByTitle(sets: seq<QuizSet>, title: string): (r: Option<QuizSet>)
    ensures r.Some? ==> r.value in sets && r.value.title == title
    ensures r.None? ==> forall i | 0 <= i < |sets| :: sets[i].title != title
  {
    if sets == [] then None
    else if sets[0].title == title then Some(sets[0])
    else
      var rest := FindByTitle(sets[1..], title);
      assert forall i | 1 <= i < |sets| :: sets[i] == sets[1..][i - 1];
      rest
  }

  /** With distinct titles, looking a set up by its own title finds that set. */
  lemma {:induction false} FindByOwnTitle(sets: seq<QuizSet>, k: int)
    requires NoDup(SetTitles(sets)) && 0 <= k < |sets|
    ensures FindByTitle(sets, sets[k].title) == Some(sets[k])
  {
    if k > 0 {
      assert SetTitles(sets)[0] != SetTitles(sets)[k];
      var rest := sets[1..];
      assert NoDup(SetTitles(rest)) by {
        forall i, j | 0 <= i < j < |rest|
          ensures SetTitles(rest)[i] != SetTitles(rest)[j]
        {
          assert SetTitles(sets)[i + 1] != SetTitles(sets)[j + 1];
        }
      }
      FindByOwnTitle(rest, k - 1);
    }
  }

  /** `handleQuizStart`: the chosen set's questions become active under its title. */
  function HandleQuizStart(p: PageState, qs: QuizSet): (r: PageState)
    ensures r.activeQuiz == Some(qs.questions) && r.quizTitle == qs.title
    ensures r.completedQuizzes == p.completedQuizzes
  {
    p.(activeQuiz := Some(qs.questions), quizTitle := qs.title)
  }

  /** `handleQuizExit`: back to the selection list. */
  function HandleQuizExit(p: PageState): (r: PageState)
    ensures r.activeQuiz.None? && r.quizTitle == ""
    ensures r.completedQuizzes == p.completedQuizzes
  {
    p.(activeQuiz := None, quizTitle := "")
  }

  /** `handleQuizComplete`: the set with the active title is marked completed
      unless it already is; the second component is the total XP written to the
      log. */
  function HandleQuizComplete(p: PageState, results: seq<QuestionResult>, finalScore: int): (r: (PageState, int))
    ensures r.1 == SumXpEarned(results)
    ensures r.0.activeQuiz == p.activeQuiz && r.0.quizTitle == p.quizTitle
    ensures NoDup(p.completedQuizzes) ==> NoDup(r.0.completedQuizzes)
    ensures forall c | c in p.completedQuizzes :: c in r.0.completedQuizzes
    ensures forall c | c in r.0.completedQuizzes && c !in p.completedQuizzes ::
              exists i | 0 <= i < |QuizSets| :: c == QuizSets[i].id && QuizSets[i].title == p.quizTitle
    ensures |r.0.completedQuizzes| <= |p.completedQuizzes| + 1
  {
    var current := FindByTitle(QuizSets, p.quizTitle);
    var completed :=
      if current.Some? && current.value.id !in p.completedQuizzes
      then p.completedQuizzes + [current.value.id]
      else p.completedQuizzes;
    (p.(completedQuizzes := completed), SumXpEarned(results))
  }

  /** The page invariant: completed ids are distinct ids of shipped sets. */
  predicate PageInvariant(p: PageState) {
    && NoDup(p.completedQuizzes)
    && forall i | 0 <= i < |p.completedQuizzes| :: p.completedQuizzes[i] in SetIds(QuizSets)
  }

  /** Completing keeps the invariant: anything added is the id of a shipped set. */
  lemma CompletePreservesInvariant(p: PageState, results: seq<QuestionResult>, finalScore: int)
    requires PageInvariant(p)
    ensures PageInvariant(HandleQuizComplete(p, results, finalScore).0)
  {
    var r := HandleQuizComplete(p, results, finalScore).0;
    forall i | 0 <= i < |r.completedQuizzes|
      ensures r.completedQuizzes[i] in SetIds(QuizSets)
    {
      var c := r.completedQuizzes[i];
      if c !in p.completedQuizzes {
        var j :| 0 <= j < |QuizSets| && c == QuizSets[j].id && QuizSets[j].title == p.quizTitle;
        assert SetIds(QuizSets)[j] == c;
      }
    }
  }

  /** Under the invariant at most three sets are ever listed as completed. */
  lemma InvariantBoundsCompleted(p: PageState)
    requires PageInvariant(p)
    ensures |p.completedQuizzes| <= |QuizSets|
  {
    var ids := set x | x in SetIds(QuizSets);
    assert ids == {"space-basics", "rocket-science", "space-math"} by {
      assert SetIds(QuizSets) == ["space-basics", "rocket-science", "space-math"];
    }
    NoDupBoundedBy(p.completedQuizzes, ids);
  }

  /** Starting a shipped set and completing it marks that set completed. */
  lemma StartThenCompleteMarksSet(p: PageState, k: int, results: seq<QuestionResult>, finalScore: int)
    requires 0 <= k < |QuizSets|
    ensures QuizSets[k].id in HandleQuizComplete(HandleQuizStart(p, QuizSets[k]), results, finalScore).0.completedQuizzes
  {
    QuizSetsDistinct();
    FindByOwnTitle(QuizSets, k);
  }

  /** Short answers are compared after lower-casing and trimming, and only as
      text. The escape-velocity field is a number input, so what it can hand
      over is "11", accepted, or "11.0", rejected although numerically equal;
      the checker would also accept " Eleven ", which that field cannot produce. */
  lemma EscapeVelocityAnswers()
    ensures RocketScienceQuestions[1].body.ShortAnswer?
    ensures RocketScienceQuestions[1].body.answerType == NumberInput
    ensures QuestionCheck.Check(RocketScienceQuestions[1], Typed("11"))
    ensures !QuestionCheck.Check(RocketScienceQuestions[1], Typed("11.0"))
    ensures QuestionCheck.Check(RocketScienceQuestions[1], Typed(" Eleven "))
  {
    var q := RocketScienceQuestions[1];
    assert q.body == ShortAnswer(["11", "eleven"], NumberInput);
    AcceptsDigits(q);
    AcceptsPaddedWord(q);
    RejectsDecimal(q);
  }

  lemma AcceptsDigits(q: Question)
    requires q.body == ShortAnswer(["11", "eleven"], NumberInput)
    ensures QuestionCheck.Check(q, Typed("11"))
  {
    Text.NormalizeDigits();
    QuestionCheck.ShortAnswerAccepts(q, "11", 0);
  }

  lemma AcceptsPaddedWord(q: Question)
    requires q.body == ShortAnswer(["11", "eleven"], NumberInput)
    ensures QuestionCheck.Check(q, Typed(" Eleven "))
  {
    Text.NormalizePadded();
    QuestionCheck.ShortAnswerAccepts(q, " Eleven ", 1);
  }

  lemma RejectsDecimal(q: Question)
    requires q.body == ShortAnswer(["11", "eleven"], NumberInput)
    ensures !QuestionCheck.Check(q, Typed("11.0"))
  {
    var accepted := q.body.correctAnswers;
    Text.NormalizePadded();
    Text.NormalizeDigits();
    forall i | 0 <= i < |accepted|
      ensures Text.Normalize(accepted[i]) != Text.Normalize("11.0")
    {
      if i == 0 {
        assert Text.Normalize(accepted[i]) == "11";
      } else {
        assert Text.Normalize(accepted[i]) == "eleven";
      }
    }
    QuestionCheck.ShortAnswerRejects(q, "11.0");
  }
}
