/** The lesson catalog, unlocking and the lesson-completion callback
    (src/components/lessons-view.tsx). */
module LessonsView {
  import opened Progression

  datatype Difficulty = Beginner | Intermediate | Advanced

  /** One quiz question: its options and the index of the right one. */
  datatype QuizItem = QuizItem(question: string, options: seq<string>, correctAnswer: nat)

  datatype Lesson = Lesson(
    id: string,
    title: string,
    difficulty: Difficulty,
    xpReward: nat,
    requiredLevel: nat,
    quiz: seq<QuizItem>)

  const Lessons: seq<Lesson> := [
    Lesson("variables-1", "Introduction to Variables", Beginner, 50, 1,
      [QuizItem("What keyword is used to declare a variable in JavaScript?",
                ["var", "let", "const", "All of the above"], 3)]),
    Lesson("functions-1", "Creating Functions", Beginner, 60, 1,
      [QuizItem("What keyword is used to define a function?",
                ["func", "function", "def", "method"], 1)]),
    Lesson("conditionals-1", "If Statements", Beginner, 55, 2,
      [QuizItem("Which operator checks if two values are equal?",
                ["=", "==", "===", "equals"], 2)]),
    Lesson("loops-1", "Understanding Loops", Intermediate, 70, 3,
      [QuizItem("What does i++ do in a for loop?",
                ["Decreases i by 1", "Increases i by 1", "Multiplies i by 1", "Nothing"], 1)]),
    Lesson("arrays-1", "Working with Arrays", Intermediate, 65, 4,
      [QuizItem("What is the index of the first element in an array?",
                ["1", "0", "-1", "It depends"], 1)])
  ]

  const FirstFiveBadge := "first-five"

  /** The number of completed lessons that earns the first-five badge. */
  const FirstFiveCount: nat := 5

  ghost predicate DistinctIds(ls: seq<Lesson>) {
    forall i, j :: 0 <= i < j < |ls| ==> ls[i].id != ls[j].id
  }

  /** A lesson that can be taken and awarded: positive reward, a real
      level requirement, at least one question, and every answer index
      naming one of its options. */
  ghost predicate WellFormedLesson(l: Lesson) {
    && l.xpReward > 0
    && l.requiredLevel >= 1
    && |l.quiz| >= 1
    && forall q :: q in l.quiz ==> q.correctAnswer < |q.options|
  }

  /** Five lessons with distinct ids, each well formed, worth 300 XP in all. */
  lemma LessonCatalogWellFormed()
    ensures |Lessons| == 5 && DistinctIds(Lessons)
    ensures forall l :: l in Lessons ==> WellFormedLesson(l)
    ensures Lessons[0].xpReward + Lessons[1].xpReward + Lessons[2].xpReward
            + Lessons[3].xpReward + Lessons[4].xpReward == 300
  {
  }

  /** `isLessonUnlocked`. */
  predicate IsLessonUnlocked(p: UserProgress, lesson: Lesson) {
    p.level >= lesson.requiredLevel
  }

  /** `isLessonCompleted`. */
  predicate IsLessonCompleted(p: UserProgress, lessonId: string) {
    lessonId in p.completedLessons
  }

  /** At the start exactly the two level-1 lessons are open. */
  lemma UnlockedAtStart()
    ensures forall l :: l in Lessons ==> (IsLessonUnlocked(Initial, l) <==> l.id == "variables-1" || l.id == "functions-1")
  {
  }

  /** No operation on the progress closes a lesson that is open. */
  lemma UnlockedStaysUnlocked(p: UserProgress, lesson: Lesson, id: string, amount: nat)
    requires p.xpToNextLevel >= 1 && IsLessonUnlocked(p, lesson)
    ensures IsLessonUnlocked(AddXP(p, amount), lesson)
    ensures IsLessonUnlocked(CompleteLesson(p, id, amount), lesson)
    ensures IsLessonUnlocked(CompleteChallenge(p, id, amount), lesson)
    ensures IsLessonUnlocked(EarnBadge(p, id), lesson)
  {
  }

  /** The dialog's `onComplete`: record the lesson (with its XP), then ask
      for the first-five badge when the list held four lessons before. */
  function OnLessonComplete(p: UserProgress, lesson: Lesson): (r: UserProgress)
    requires p.xpToNextLevel >= 1
    ensures r.completedLessons == CompleteLesson(p, lesson.id, lesson.xpReward).completedLessons
    ensures IsLessonCompleted(r, lesson.id)
    ensures FirstFiveBadge in r.badges <==> FirstFiveBadge in p.badges || |p.completedLessons| + 1 == FirstFiveCount
    ensures r.badges == p.badges || r.badges == p.badges + [FirstFiveBadge]
    ensures r.completedChallenges == p.completedChallenges && r.streak == p.streak
    ensures r.characterType == p.characterType
    ensures r.xpToNextLevel >= 1 && r.level >= p.level
    ensures !IsLessonCompleted(p, lesson.id) ==> Gained(p, r, lesson.xpReward)
    ensures IsLessonCompleted(p, lesson.id) ==>
              r.xp == p.xp && r.level == p.level && r.xpToNextLevel == p.xpToNextLevel
  {
    var q := CompleteLesson(p, lesson.id, lesson.xpReward);
    if |p.completedLessons| + 1 == FirstFiveCount then EarnBadge(q, FirstFiveBadge) else q
  }

  /** The first-five badge is held exactly when five lessons are done. */
  ghost predicate FirstFiveMatchesCount(p: UserProgress) {
    FirstFiveBadge in p.badges <==> |p.completedLessons| >= FirstFiveCount
  }

  /** Completing a lesson not yet done keeps the badge in step with the
      count: the badge arrives with the fifth lesson, never earlier, and
      the rest of the state stays valid. */
  lemma OnLessonCompleteKeepsFirstFive(p: UserProgress, lesson: Lesson)
    requires Valid(p) && FirstFiveMatchesCount(p) && !IsLessonCompleted(p, lesson.id)
    ensures Valid(OnLessonComplete(p, lesson))
    ensures FirstFiveMatchesCount(OnLessonComplete(p, lesson))
    ensures |OnLessonComplete(p, lesson).completedLessons| == |p.completedLessons| + 1
  {
    OperationsPreserveValid(p, lesson.id, lesson.xpReward);
    OperationsPreserveValid(CompleteLesson(p, lesson.id, lesson.xpReward), FirstFiveBadge, 0);
  }

  lemma InitialMatchesFirstFive()
    ensures FirstFiveMatchesCount(Initial)
  {
  }
}
