/** The quiz screen: a `QuizState` over a fixed list of questions, with the
    transitions the screen performs — initialise/restart, the Start button on
    the intro screen, and recording an answer — plus the performance message
    shown on the results screen.

    Recording an answer is one atomic step here: the source appends the result
    and updates score and XP at once, then advances or completes 100 ms later;
    nothing else can happen in between, so the two updates are merged. Clock
    readings (`now`) are parameters. */
module QuizSession {
  import opened Wrappers
  import opened QuestionTypes
  import QuestionCheck
  import Percent

  /** What `onComplete` receives: all results and the final score. */
  datatype Completion = Completion(results: seq<QuestionResult>, finalScore: int)

  /** The state the quiz starts in, and the state `restartQuiz` installs. */
  function Init(questions: seq<Question>, now: int): (s: QuizState)
    ensures s.currentQuestionIndex == 0 && s.score == 0 && s.totalXP == 0
    ensures s.results == [] && !s.isComplete
    ensures s.totalQuestions == |questions| && s.startTime == now
  {
    QuizState(0, |questions|, 0, 0, [], false, now)
  }

  /** `restartQuiz`: the prior state is discarded entirely. */
  function Restart(prior: QuizState, questions: seq<Question>, now: int): (s: QuizState)
    ensures s == Init(questions, now)
  {
    QuizState(0, |questions|, 0, 0, [], false, now)
  }

  /** Restarting forgets everything about the prior run and shows the intro again. */
  lemma RestartForgetsPrior(s1: QuizState, s2: QuizState, questions: seq<Question>, now: int)
    ensures Restart(s1, questions, now) == Restart(s2, questions, now)
    ensures IsIntro(Restart(s1, questions, now))
    ensures Consistent(questions, Restart(s1, questions, now))
  {
  }

  /** The intro screen is shown while no question has been answered and the
      index is 0; there is no separate "started" flag. */
  predicate IsIntro(s: QuizState) {
    s.currentQuestionIndex == 0 && s.results == []
  }

  /** The Start button: resets the index to 0 and takes a new start time,
      keeping everything else; so on the intro screen it stays on the intro. */
  function Start(s: QuizState, now: int): (r: QuizState)
    ensures r.currentQuestionIndex == 0 && r.startTime == now
    ensures r.results == s.results && r.score == s.score && r.totalXP == s.totalXP
    ensures r.isComplete == s.isComplete && r.totalQuestions == s.totalQuestions
    ensures IsIntro(s) ==> IsIntro(r)
  {
    s.(currentQuestionIndex := 0, startTime := now)
  }

  /** On the intro screen Start changes nothing but the start time, so the intro
      condition still holds afterwards: as written, Start never leaves the intro. */
  lemma StartOnlyRestamps(s: QuizState, now: int)
    requires IsIntro(s)
    ensures Start(s, now) == s.(startTime := now)
    ensures IsIntro(Start(s, now))
  {
  }

  /** On a consistent state the intro test recognises exactly a run with no
      answers that is not complete, and such a run has earned nothing. */
  lemma IntroIffUnplayed(questions: seq<Question>, s: QuizState)
    requires Consistent(questions, s)
    ensures IsIntro(s) <==> s.results == [] && !s.isComplete
    ensures IsIntro(s) ==> s.score == 0 && s.totalXP == 0
  {
  }

  // ----- Corrected intro handling ---------------------------------------------

  /** The quiz state with an explicit flag recording that Start was pressed; the
      intro is shown until then. This is the behaviour the Start button
      evidently intends, which the index/results test cannot express. */
  datatype Session = Session(state: QuizState, started: bool)

  function NewSession(questions: seq<Question>, now: int): (sess: Session)
    ensures ShowsIntro(sess) && sess.state == Init(questions, now)
  {
    Session(Init(questions, now), false)
  }

  predicate ShowsIntro(sess: Session) {
    !sess.started
  }

  /** Start leaves the intro and, as in the source, only re-stamps the start time. */
  function SessionStart(sess: Session, now: int): (r: Session)
    ensures !ShowsIntro(r)
    ensures r.state == Start(sess.state, now)
  {
    Session(Start(sess.state, now), true)
  }

  /** Answering goes through `Answer` unchanged and never returns to the intro. */
  function SessionAnswer(questions: seq<Question>, sess: Session, result: QuestionResult): (r: (Session, Option<Completion>))
    ensures ShowsIntro(r.0) == ShowsIntro(sess)
    ensures (r.0.state, r.1) == Answer(questions, sess.state, result)
  {
    var (next, report) := Answer(questions, sess.state, result);
    (Session(next, sess.started), report)
  }

  /** "Take Again" returns to the intro of a fresh run. */
  function SessionRestart(sess: Session, questions: seq<Question>, now: int): (r: Session)
    ensures ShowsIntro(r) && r.state == Init(questions, now)
  {
    NewSession(questions, now)
  }

  /** On a fresh quiz, the corrected Start leaves the intro while the
      as-written one does not, and both leave the same quiz state. */
  lemma SessionStartLeavesIntro(questions: seq<Question>, t0: int, t1: int)
    ensures ShowsIntro(NewSession(questions, t0))
    ensures !ShowsIntro(SessionStart(NewSession(questions, t0), t1))
    ensures IsIntro(Start(Init(questions, t0), t1))
    ensures SessionStart(NewSession(questions, t0), t1).state == Start(Init(questions, t0), t1)
  {
  }

  /** `handleAnswer`: append the result, add 1 to the score if it is correct
      and its XP to the total; then either complete (the answered question was
      the last) and report, or move to the next question. */
  function Answer(questions: seq<Question>, s: QuizState, result: QuestionResult): (r: (QuizState, Option<Completion>))
    ensures r.0.results == s.results + [result]
    ensures r.0.score == s.score + (if result.isCorrect then 1 else 0)
    ensures r.0.totalXP == s.totalXP + result.xpEarned
    ensures r.0.totalQuestions == s.totalQuestions && r.0.startTime == s.startTime
    ensures s.currentQuestionIndex + 1 >= |questions| ==>
      && r.0.isComplete
      && r.0.currentQuestionIndex == s.currentQuestionIndex
      && r.1 == Some(Completion(r.0.results, r.0.score))
    ensures s.currentQuestionIndex + 1 < |questions| ==>
      && r.0.isComplete == s.isComplete
      && r.0.currentQuestionIndex == s.currentQuestionIndex + 1
      && r.1 == None
  {
    var newResults := s.results + [result];
    var newScore := if result.isCorrect then s.score + 1 else s.score;
    var newTotalXP := s.totalXP + result.xpEarned;
    var recorded := s.(score := newScore, totalXP := newTotalXP, results := newResults);
    if s.currentQuestionIndex + 1 >= |questions| then
      (recorded.(isComplete := true), Some(Completion(newResults, newScore)))
    else
      (recorded.(currentQuestionIndex := s.currentQuestionIndex + 1), None)
  }

  /** The state invariant: score counts the correct results, total XP sums the
      XP earned, and the results line up with the questions — one result per
      question before the cursor while in progress, one per question once
      complete (the cursor then stays on the last question). */
  predicate Consistent(questions: seq<Question>, s: QuizState) {
    && s.score == CountCorrect(s.results)
    && s.totalXP == SumXpEarned(s.results)
    && s.score <= |s.results|
    && s.totalQuestions == |questions|
    && (if s.isComplete
        then |s.results| == |questions| && s.currentQuestionIndex == |questions| - 1
        else s.currentQuestionIndex == |s.results| && (s.results == [] || |s.results| < |questions|))
  }

  /** Answering the displayed question (one exists while the quiz is in
      progress) preserves the invariant. */
  lemma AnswerPreservesConsistent(questions: seq<Question>, s: QuizState, result: QuestionResult)
    requires Consistent(questions, s) && !s.isComplete
    requires 0 <= s.currentQuestionIndex < |questions|
    ensures Consistent(questions, Answer(questions, s, result).0)
  {
    var rs := s.results + [result];
    assert rs[..|rs| - 1] == s.results;
  }

  /** The states reached by answering `rs` in order from a fresh start. */
  function Replay(questions: seq<Question>, now: int, rs: seq<QuestionResult>): QuizState {
    if rs == [] then Init(questions, now)
    else Answer(questions, Replay(questions, now, rs[..|rs| - 1]), rs[|rs| - 1]).0
  }

  /** Answering `k` of `n` questions from a fresh start keeps the invariant,
      records exactly those results, and completes exactly when `k == n`. */
  lemma {:induction false} ReplayConsistent(questions: seq<Question>, now: int, rs: seq<QuestionResult>)
    requires 0 < |questions| && |rs| <= |questions|
    ensures var s := Replay(questions, now, rs);
            && Consistent(questions, s)
            && s.results == rs
            && s.score == CountCorrect(rs)
            && s.totalXP == SumXpEarned(rs)
            && (s.isComplete <==> |rs| == |questions|)
  {
    if rs != [] {
      var init := rs[..|rs| - 1];
      ReplayConsistent(questions, now, init);
      AnswerPreservesConsistent(questions, Replay(questions, now, init), rs[|rs| - 1]);
      assert init + [rs[|rs| - 1]] == rs;
    }
  }

  /** `rs` are the results of answering the first `|rs|` questions in order:
      matching ids, the reward when correct and nothing otherwise. */
  predicate ResultsFor(questions: seq<Question>, rs: seq<QuestionResult>) {
    && |rs| <= |questions|
    && forall i | 0 <= i < |rs| ::
         && rs[i].questionId == questions[i].id
         && rs[i].xpEarned == (if rs[i].isCorrect then questions[i].xpReward else 0)
  }

  /** With non-negative rewards the XP earned never exceeds what the answered
      questions advertise. */
  lemma {:induction false} EarnedAtMostAdvertised(questions: seq<Question>, rs: seq<QuestionResult>)
    requires ResultsFor(questions, rs)
    requires forall i | 0 <= i < |questions| :: questions[i].xpReward >= 0
    ensures 0 <= SumXpEarned(rs) <= MaxXP(questions[..|rs|])
  {
    if rs != [] {
      var k := |rs| - 1;
      assert ResultsFor(questions, rs[..k]);
      EarnedAtMostAdvertised(questions, rs[..k]);
      assert questions[..|rs|][..k] == questions[..k];
    }
  }

  /** Once complete, the total XP is at most the quiz's advertised maximum. */
  lemma CompletedXpAtMostMax(questions: seq<Question>, now: int, rs: seq<QuestionResult>)
    requires 0 < |questions| && |rs| == |questions|
    requires ResultsFor(questions, rs)
    requires forall i | 0 <= i < |questions| :: questions[i].xpReward >= 0
    ensures Replay(questions, now, rs).isComplete
    ensures 0 <= Replay(questions, now, rs).totalXP <= MaxXP(questions)
  {
    var s := Replay(questions, now, rs);
    ReplayConsistent(questions, now, rs);
    assert s.isComplete && s.totalXP == SumXpEarned(rs);
    EarnedAtMostAdvertised(questions, rs);
    assert questions[..|rs|] == questions;
  }

  /** The completion report is the full result list with the final score. */
  lemma CompletionReport(questions: seq<Question>, now: int, rs: seq<QuestionResult>, last: QuestionResult)
    requires |rs| + 1 == |questions|
    ensures var c := Answer(questions, Replay(questions, now, rs), last).1;
            c == Some(Completion(rs + [last], CountCorrect(rs + [last])))
  {
    var s := Replay(questions, now, rs);
    ReplayConsistent(questions, now, rs);
    assert s.results == rs && s.score == CountCorrect(rs);
    assert !s.isComplete && s.currentQuestionIndex == |rs|;
    var all := rs + [last];
    assert all[..|all| - 1] == rs;
    assert CountCorrect(all) == s.score + (if last.isCorrect then 1 else 0);
  }

  // ----- Performance message ------------------------------------------------------

  datatype Performance = Outstanding | GreatJob | NotBad | KeepLearning

  /** How good a band is: higher is better. */
  function Rank(p: Performance): nat {
    match p
    case Outstanding => 3
    case GreatJob => 2
    case NotBad => 1
    case KeepLearning => 0
  }

  /** The accuracy the message is chosen by, `score / n * 100`, unrounded. */
  function Accuracy(score: int, n: nat): real
    requires n > 0
  {
    (score as real) / (n as real) * 100.0
  }

  /** `getPerformanceMessage`: accuracy `score / n * 100` compared with 90, 70 and
      50 in that order. With `n == 0` the accuracy is `Infinity` for a positive
      score and `NaN` otherwise. */
  function PerformanceFor(score: int, n: nat): (r: Performance)
    ensures n > 0 ==> (r == Outstanding <==> Accuracy(score, n) >= 90.0)
    ensures n > 0 ==> (r == GreatJob <==> 70.0 <= Accuracy(score, n) < 90.0)
    ensures n > 0 ==> (r == NotBad <==> 50.0 <= Accuracy(score, n) < 70.0)
    ensures n > 0 ==> (r == KeepLearning <==> Accuracy(score, n) < 50.0)
    ensures n == 0 ==> (r == Outstanding <==> score > 0) && (r == KeepLearning <==> score <= 0)
  {
    if n == 0 then (if score > 0 then Outstanding else KeepLearning)
    else
      Percent.RatioAtLeast(score, n, 90);
      Percent.RatioAtLeast(score, n, 70);
      Percent.RatioAtLeast(score, n, 50);
      if score * 100 >= 90 * n then Outstanding
      else if score * 100 >= 70 * n then GreatJob
      else if score * 100 >= 50 * n then NotBad
      else KeepLearning
  }

  /** A higher score never gets a worse message; all correct is Outstanding and
      none correct is Keep learning. */
  lemma PerformanceMonotone(s1: int, s2: int, n: nat)
    requires s1 <= s2
    ensures Rank(PerformanceFor(s1, n)) <= Rank(PerformanceFor(s2, n))
    ensures n > 0 ==> PerformanceFor(n, n) == Outstanding
    ensures PerformanceFor(0, n) == KeepLearning
  {
  }

  /** The band agrees with the rounded accuracy only up to rounding: the bands
      use the exact ratio, so 89.5% shows as 90% yet is not Outstanding. */
  lemma BandUsesExactRatio()
    ensures Percent.RoundedPercent(179, 200) == Some(90)
    ensures PerformanceFor(179, 200) == GreatJob
  {
  }
}
