/** The lesson dialog: learn, answer the quiz, and award the lesson's XP
    once every answer was right (src/components/lesson-dialog.tsx). */
module LessonDialog {
  import opened Wrappers
  import opened Progression
  import opened LessonsView

  datatype Step = Learn | Quiz | Complete

  /** `currentStep`, `currentQuizIndex`, `selectedAnswer`, `showResult`,
      `correctAnswers`. */
  datatype State = State(step: Step, index: nat, selected: Option<int>, showResult: bool, correct: nat)

  const Start: State := State(Learn, 0, None, false, 0)

  /** Questions answered so far: those before the current one, and the
      current one once its result shows. */
  function Answered(s: State): nat {
    s.index + if s.showResult then 1 else 0
  }

  /** What holds between events: the index names a question, no more right
      answers than answers, a shown result follows a chosen option, and the
      complete step is reached on the last question with its result shown. */
  ghost predicate Inv(lesson: Lesson, s: State) {
    && |lesson.quiz| >= 1
    && s.index < |lesson.quiz|
    && s.correct <= Answered(s)
    && (s.showResult ==> s.selected.Some?)
    && (s.step == Learn ==> s == Start)
    && (s.step == Complete ==> s.showResult && s.index == |lesson.quiz| - 1)
  }

  lemma StartInv(lesson: Lesson)
    requires |lesson.quiz| >= 1
    ensures Inv(lesson, Start)
  {
  }

  /** "Start Quiz" on the learn step. */
  function StartQuiz(lesson: Lesson, s: State): (r: State)
    requires Inv(lesson, s)
    ensures Inv(lesson, r)
    ensures s.step == Learn ==> r.step == Quiz && r.index == 0 && r.correct == 0 && !r.showResult
    ensures s.step != Learn ==> r == s
  {
    if s.step == Learn then s.(step := Quiz) else s
  }

  /** Clicking option `i`: ignored while a result is shown. */
  function SelectAnswer(lesson: Lesson, s: State, i: int): (r: State)
    requires Inv(lesson, s)
    ensures Inv(lesson, r)
    ensures s.step == Quiz && !s.showResult ==> r == s.(selected := Some(i))
    ensures !(s.step == Quiz && !s.showResult) ==> r == s
  {
    if s.step == Quiz && !s.showResult then s.(selected := Some(i)) else s
  }

  /** Whether the chosen option is the right one for the current question. */
  predicate IsCorrect(lesson: Lesson, s: State)
    requires s.index < |lesson.quiz|
  {
    s.selected == Some(lesson.quiz[s.index].correctAnswer)
  }

  /** `handleQuizAnswer`, up to the timer: with an option chosen and no
      result shown, show the result and count a right answer; otherwise
      (nothing chosen, or the button disabled) nothing happens. */
  function SubmitAnswer(lesson: Lesson, s: State): (r: State)
    requires Inv(lesson, s)
    ensures Inv(lesson, r)
    ensures s.step == Quiz && s.selected.Some? && !s.showResult ==>
              && r.showResult && r.index == s.index && r.selected == s.selected
              && r.correct == s.correct + (if IsCorrect(lesson, s) then 1 else 0)
    ensures !(s.step == Quiz && s.selected.Some? && !s.showResult) ==> r == s
  {
    if s.step == Quiz && s.selected.Some? && !s.showResult then
      s.(showResult := true, correct := s.correct + if IsCorrect(lesson, s) then 1 else 0)
    else s
  }

  /** The result timer firing after a submitted answer: move to the next
      question, or, after the last one, finish, awarding the lesson's XP when
      the lesson is not yet completed and every answer was right. The timer
      is pending exactly when a result shows on the quiz step. */
  function ResultTimeout(lesson: Lesson, s: State, isCompleted: bool): (r: (State, Option<nat>))
    requires Inv(lesson, s)
    ensures Inv(lesson, r.0)
    ensures r.1.Some? <==> s.step == Quiz && s.showResult && s.index == |lesson.quiz| - 1
                           && !isCompleted && s.correct == |lesson.quiz|
    ensures r.1.Some? ==> r.1.value == lesson.xpReward
    ensures s.step == Quiz && s.showResult && s.index < |lesson.quiz| - 1 ==>
              r.0 == s.(index := s.index + 1, selected := None, showResult := false)
    ensures s.step == Quiz && s.showResult && s.index == |lesson.quiz| - 1 ==> r.0 == s.(step := Complete)
    ensures !(s.step == Quiz && s.showResult) ==> r == (s, None)
  {
    if !(s.step == Quiz && s.showResult) then (s, None)
    else if s.index < |lesson.quiz| - 1 then
      (s.(index := s.index + 1, selected := None, showResult := false), None)
    else
      var award := if !isCompleted && s.correct >= |lesson.quiz| then Some(lesson.xpReward) else None;
      (s.(step := Complete), award)
  }

  /** "Retake Quiz" on the complete step. */
  function RetakeQuiz(lesson: Lesson, s: State): (r: State)
    requires Inv(lesson, s)
    ensures Inv(lesson, r)
    ensures s.step == Complete ==> r == State(Quiz, 0, None, false, 0)
    ensures s.step != Complete ==> r == s
  {
    if s.step == Complete then State(Quiz, 0, None, false, 0) else s
  }

  /** The earned-XP badge of the complete step, as written: it reads the
      `isCompleted` prop, which the award itself sets. */
  predicate ShowsXpEarned(lesson: Lesson, s: State, isCompleted: bool) {
    s.step == Complete && !isCompleted && s.correct == |lesson.quiz|
  }

  /** The badge as evidently intended: shown on the complete step reached by
      the run that earned the XP. `earned` says whether that run awarded. */
  predicate ShowsXpEarnedIntended(s: State, earned: bool) {
    s.step == Complete && earned
  }

  // ---------------------------------------------------------------------------
  // A dialog session against the progress

  datatype Event = StartQuizClicked | OptionClicked(option: int) | SubmitClicked | TimerFired | RetakeClicked

  /** One event; an award is passed on to the lessons view's `onComplete`,
      and `isCompleted` is read from the progress as the view passes it. */
  function Step1(lesson: Lesson, s: State, p: UserProgress, e: Event): (r: (State, UserProgress, bool))
    requires Inv(lesson, s) && Valid(p)
    ensures Inv(lesson, r.0) && Valid(r.1)
    ensures r.2 <==> !IsLessonCompleted(p, lesson.id) && IsLessonCompleted(r.1, lesson.id)
    ensures IsLessonCompleted(p, lesson.id) ==> r.1 == p
    ensures |r.1.completedLessons| == |p.completedLessons| + (if r.2 then 1 else 0)
  {
    match e
    case StartQuizClicked => (StartQuiz(lesson, s), p, false)
    case OptionClicked(i) => (SelectAnswer(lesson, s, i), p, false)
    case SubmitClicked => (SubmitAnswer(lesson, s), p, false)
    case RetakeClicked => (RetakeQuiz(lesson, s), p, false)
    case TimerFired =>
      var (s', award) := ResultTimeout(lesson, s, IsLessonCompleted(p, lesson.id));
      if award.Some? then
        OperationsPreserveValid(p, lesson.id, lesson.xpReward);
        var q := OnLessonComplete(p, lesson);
        OperationsPreserveValid(CompleteLesson(p, lesson.id, lesson.xpReward), FirstFiveBadge, 0);
        (s', q, true)
      else (s', p, false)
  }

  /** The learn step is left only for the quiz, and only by "Start Quiz". */
  lemma LearnOnlyToQuiz(lesson: Lesson, s: State, p: UserProgress, e: Event)
    requires Inv(lesson, s) && Valid(p) && s.step == Learn
    ensures var r := Step1(lesson, s, p, e);
            (r.0.step == Learn || r.0.step == Quiz) && r.1 == p && !r.2
    ensures Step1(lesson, s, p, e).0.step == Quiz <==> e == StartQuizClicked
  {
  }

  /** A whole session: the final dialog state, the final progress and the
      number of XP awards made. */
  function Session(lesson: Lesson, s: State, p: UserProgress, events: seq<Event>): (r: (State, UserProgress, nat))
    requires Inv(lesson, s) && Valid(p)
    ensures Inv(lesson, r.0) && Valid(r.1)
    decreases |events|
  {
    if events == [] then (s, p, 0)
    else
      var (s', p', awarded) := Step1(lesson, s, p, events[0]);
      var (s'', p'', n) := Session(lesson, s', p', events[1..]);
      (s'', p'', n + if awarded then 1 else 0)
  }

  /** Whether the run on screen earned the XP: set by an award, kept while
      the dialog stays on the complete step, dropped otherwise. */
  function NextEarned(lesson: Lesson, s: State, p: UserProgress, e: Event, earned: bool): bool
    requires Inv(lesson, s) && Valid(p)
  {
    var r := Step1(lesson, s, p, e);
    r.2 || (earned && s.step == Complete && r.0.step == Complete)
  }

  /** The earned flag at the end of a session. */
  function EarnedAfter(lesson: Lesson, s: State, p: UserProgress, earned: bool, events: seq<Event>): bool
    requires Inv(lesson, s) && Valid(p)
    decreases |events|
  {
    if events == [] then earned
    else
      var r := Step1(lesson, s, p, events[0]);
      EarnedAfter(lesson, r.0, r.1, NextEarned(lesson, s, p, events[0], earned), events[1..])
  }

  /** Once a run has ended with every answer right, the lesson is completed,
      whether this run or an earlier one completed it. */
  ghost predicate AllRightMeansCompleted(lesson: Lesson, s: State, p: UserProgress) {
    s.step == Complete && s.correct == |lesson.quiz| ==> IsLessonCompleted(p, lesson.id)
  }

  lemma StepKeepsAllRightMeansCompleted(lesson: Lesson, s: State, p: UserProgress, e: Event)
    requires Inv(lesson, s) && Valid(p) && AllRightMeansCompleted(lesson, s, p)
    ensures var r := Step1(lesson, s, p, e);
            AllRightMeansCompleted(lesson, r.0, r.1)
  {
  }

  /** As written, the "+XP Earned" badge never shows: every run that ends
      with all answers right either awards, which completes the lesson and
      flips the prop the badge reads, or finds the lesson completed already. */
  lemma {:induction false} XpBadgeNeverShows(lesson: Lesson, s: State, p: UserProgress, events: seq<Event>)
    requires Inv(lesson, s) && Valid(p) && AllRightMeansCompleted(lesson, s, p)
    ensures var r := Session(lesson, s, p, events);
            !ShowsXpEarned(lesson, r.0, IsLessonCompleted(r.1, lesson.id))
    ensures var r := Session(lesson, s, p, events);
            AllRightMeansCompleted(lesson, r.0, r.1)
    decreases |events|
  {
    if events != [] {
      var (s', p', awarded) := Step1(lesson, s, p, events[0]);
      StepKeepsAllRightMeansCompleted(lesson, s, p, events[0]);
      XpBadgeNeverShows(lesson, s', p', events[1..]);
    }
  }

  /** With the intended badge, one event makes it appear exactly when that
      event awards the XP, and then it does appear. */
  lemma IntendedBadgeFollowsAward(lesson: Lesson, s: State, p: UserProgress, e: Event, earned: bool)
    requires Inv(lesson, s) && Valid(p)
    ensures var r := Step1(lesson, s, p, e);
            r.2 ==> ShowsXpEarnedIntended(r.0, NextEarned(lesson, s, p, e, earned))
    ensures var r := Step1(lesson, s, p, e);
            ShowsXpEarnedIntended(r.0, NextEarned(lesson, s, p, e, earned)) && !ShowsXpEarnedIntended(s, earned) ==> r.2
  {
  }

  /** Over a whole session from a state without the flag, the intended
      badge shows at the end only if the XP was awarded in that session. */
  lemma {:induction false} IntendedBadgeMeansAward(lesson: Lesson, s: State, p: UserProgress, earned: bool, events: seq<Event>)
    requires Inv(lesson, s) && Valid(p)
    ensures EarnedAfter(lesson, s, p, earned, events) ==> earned || Session(lesson, s, p, events).2 >= 1
    decreases |events|
  {
    if events != [] {
      var (s', p', awarded) := Step1(lesson, s, p, events[0]);
      IntendedBadgeMeansAward(lesson, s', p', NextEarned(lesson, s, p, events[0], earned), events[1..]);
    }
  }

  /** However the dialog is used (retakes included), a lesson's XP is
      awarded at most once, never for a lesson already completed, and an
      award leaves the lesson completed. */
  lemma {:induction false} AwardedAtMostOnce(lesson: Lesson, s: State, p: UserProgress, events: seq<Event>)
    requires Inv(lesson, s) && Valid(p)
    ensures var r := Session(lesson, s, p, events);
            && r.2 <= 1
            && (IsLessonCompleted(p, lesson.id) ==> r.2 == 0)
            && (r.2 == 1 ==> IsLessonCompleted(r.1, lesson.id))
    decreases |events|
  {
    if events != [] {
      var (s', p', awarded) := Step1(lesson, s, p, events[0]);
      AwardedAtMostOnce(lesson, s', p', events[1..]);
      if awarded {
        AfterAwardNoMore(lesson, s', p', events[1..]);
      }
    }
  }

  /** Once the lesson is completed, nothing more is awarded for it. */
  lemma {:induction false} AfterAwardNoMore(lesson: Lesson, s: State, p: UserProgress, events: seq<Event>)
    requires Inv(lesson, s) && Valid(p) && IsLessonCompleted(p, lesson.id)
    ensures Session(lesson, s, p, events).2 == 0
    ensures Session(lesson, s, p, events).1 == p
    decreases |events|
  {
    if events != [] {
      var (s', p', awarded) := Step1(lesson, s, p, events[0]);
      AfterAwardNoMore(lesson, s', p', events[1..]);
    }
  }

  /** The happy path for a one-question lesson: start, pick the right
      option, submit, let the timer fire; the XP is awarded. */
  lemma RightAnswerAwards(lesson: Lesson, p: UserProgress)
    requires |lesson.quiz| == 1 && Valid(p) && !IsLessonCompleted(p, lesson.id)
    ensures Session(lesson, Start, p,
                    [StartQuizClicked, OptionClicked(lesson.quiz[0].correctAnswer), SubmitClicked, TimerFired]).2 == 1
  {
    var events := [StartQuizClicked, OptionClicked(lesson.quiz[0].correctAnswer), SubmitClicked, TimerFired];
    var s1 := StartQuiz(lesson, Start);
    var s2 := SelectAnswer(lesson, s1, lesson.quiz[0].correctAnswer);
    var s3 := SubmitAnswer(lesson, s2);
    assert s3.correct == 1;
    assert Session(lesson, s3, p, [TimerFired]).2 == 1;
    assert events[3..] == [TimerFired];
    assert Session(lesson, s2, p, events[2..]).2 == 1;
    assert Session(lesson, s1, p, events[1..]).2 == 1;
  }

  /** On the happy path the XP is awarded, yet the badge as written is
      hidden on the complete step while the intended one shows. */
  lemma RightAnswerBadges(lesson: Lesson, p: UserProgress)
    requires |lesson.quiz| == 1 && Valid(p) && !IsLessonCompleted(p, lesson.id)
    ensures var events := [StartQuizClicked, OptionClicked(lesson.quiz[0].correctAnswer), SubmitClicked, TimerFired];
            var r := Session(lesson, Start, p, events);
            && r.2 == 1 && r.0.step == Complete
            && !ShowsXpEarned(lesson, r.0, IsLessonCompleted(r.1, lesson.id))
            && ShowsXpEarnedIntended(r.0, EarnedAfter(lesson, Start, p, false, events))
  {
    var events := [StartQuizClicked, OptionClicked(lesson.quiz[0].correctAnswer), SubmitClicked, TimerFired];
    RightAnswerAwards(lesson, p);
    XpBadgeNeverShows(lesson, Start, p, events);
    var s1 := StartQuiz(lesson, Start);
    var s2 := SelectAnswer(lesson, s1, lesson.quiz[0].correctAnswer);
    var s3 := SubmitAnswer(lesson, s2);
    assert s3.correct == 1;
    assert events[3..] == [TimerFired];
    assert Session(lesson, s3, p, [TimerFired]).0.step == Complete;
    assert Session(lesson, s2, p, events[2..]).0.step == Complete;
    assert Session(lesson, s1, p, events[1..]).0.step == Complete;
    assert EarnedAfter(lesson, s3, p, false, [TimerFired]);
    assert EarnedAfter(lesson, s2, p, false, events[2..]);
    assert EarnedAfter(lesson, s1, p, false, events[1..]);
  }

  /** A wrong option on a one-question lesson earns nothing. */
  lemma WrongAnswerDoesNotAward(lesson: Lesson, p: UserProgress, option: int)
    requires |lesson.quiz| == 1 && Valid(p) && option != lesson.quiz[0].correctAnswer
    ensures Session(lesson, Start, p, [StartQuizClicked, OptionClicked(option), SubmitClicked, TimerFired]).2 == 0
  {
    var events := [StartQuizClicked, OptionClicked(option), SubmitClicked, TimerFired];
    var s1 := StartQuiz(lesson, Start);
    var s2 := SelectAnswer(lesson, s1, option);
    var s3 := SubmitAnswer(lesson, s2);
    assert s3.correct == 0;
    assert Session(lesson, s3, p, [TimerFired]).2 == 0;
    assert events[3..] == [TimerFired];
    assert Session(lesson, s2, p, events[2..]).2 == 0;
    assert Session(lesson, s1, p, events[1..]).2 == 0;
  }
}
