/** The coding-challenge catalog, unlocking and the challenge-completion
    callback (src/components/challenges-view.tsx). */
module ChallengesView {
  import opened Progression
  import LessonsView

  datatype Difficulty = Easy | Medium | Hard

  /** One test case, as display text: the input and the expected output. */
  datatype TestCase = TestCase(input: string, expected: string)

  datatype Challenge = Challenge(
    id: string,
    title: string,
    difficulty: Difficulty,
    xpReward: nat,
    requiredLevel: nat,
    starterCode: string,
    testCases: seq<TestCase>,
    hints: seq<string>)

  const Challenges: seq<Challenge> := [
    Challenge("challenge-1", "Double the Number", Easy, 80, 2,
      "function doubleNumber(num) {\n  // Your code here\n  \n}\n\n// Test your function\nconsole.log(doubleNumber(5)); // Should output: 10",
      [TestCase("5", "10"), TestCase("0", "0"), TestCase("-3", "-6")],
      ["Use the * operator to multiply", "Remember to use the return keyword"]),
    Challenge("challenge-2", "Even or Odd", Easy, 85, 3,
      "function isEven(num) {\n  // Your code here\n  \n}\n\n// Test your function\nconsole.log(isEven(4)); // Should output: true\nconsole.log(isEven(7)); // Should output: false",
      [TestCase("4", "true"), TestCase("7", "false"), TestCase("0", "true")],
      ["Use the modulo operator (%) to find the remainder", "If num % 2 equals 0, the number is even"]),
    Challenge("challenge-3", "Sum Array", Medium, 100, 5,
      "function sumArray(numbers) {\n  // Your code here\n  \n}\n\n// Test your function\nconsole.log(sumArray([1, 2, 3, 4])); // Should output: 10",
      [TestCase("[1, 2, 3, 4]", "10"), TestCase("[0, 0, 0]", "0"), TestCase("[5, -3, 2]", "4")],
      ["Initialize a variable to store the sum", "Use a for loop to iterate through the array",
       "Add each element to your sum variable"]),
    Challenge("challenge-4", "Reverse String", Medium, 95, 4,
      "function reverseString(str) {\n  // Your code here\n  \n}\n\n// Test your function\nconsole.log(reverseString(\"hello\")); // Should output: \"olleh\"",
      [TestCase("\"hello\"", "\"olleh\""), TestCase("\"code\"", "\"edoc\""), TestCase("\"a\"", "\"a\"")],
      ["You can convert a string to an array using split()", "Arrays have a reverse() method",
       "Use join() to convert the array back to a string"]),
    Challenge("challenge-5", "FizzBuzz", Hard, 120, 6,
      "function fizzBuzz(n) {\n  // Your code here\n  \n}\n\n// Test your function\nfizzBuzz(15);",
      [TestCase("3", "Fizz"), TestCase("5", "Buzz"), TestCase("15", "FizzBuzz")],
      ["Check for divisibility by both 3 and 5 first", "Use the modulo operator (%)",
       "Use if-else statements for the conditions"])
  ]

  const ChallengeMasterBadge := "challenge-master"

  /** The number of completed challenges that earns the challenge-master badge. */
  const ChallengeMasterCount: nat := 3

  ghost predicate DistinctIds(cs: seq<Challenge>) {
    forall i, j :: 0 <= i < j < |cs| ==> cs[i].id != cs[j].id
  }

  /** A challenge that can be attempted and awarded. */
  ghost predicate WellFormedChallenge(c: Challenge) {
    c.xpReward > 0 && c.requiredLevel >= 2 && |c.testCases| >= 1 && |c.hints| >= 1
  }

  /** Five challenges with distinct ids, none open at level 1, each with at
      least one test case and one hint, worth 480 XP in all. */
  lemma ChallengeCatalogWellFormed()
    ensures |Challenges| == 5 && DistinctIds(Challenges)
    ensures forall c :: c in Challenges ==> WellFormedChallenge(c)
    ensures Challenges[0].xpReward + Challenges[1].xpReward + Challenges[2].xpReward
            + Challenges[3].xpReward + Challenges[4].xpReward == 480
  {
  }

  /** `isChallengeUnlocked`. */
  predicate IsChallengeUnlocked(p: UserProgress, c: Challenge) {
    p.level >= c.requiredLevel
  }

  /** `isChallengeCompleted`. */
  predicate IsChallengeCompleted(p: UserProgress, challengeId: string) {
    challengeId in p.completedChallenges
  }

  /** At the start no challenge is open; the first opens at level 2. */
  lemma LockedAtStart()
    ensures forall c :: c in Challenges ==> !IsChallengeUnlocked(Initial, c)
    ensures forall c :: c in Challenges ==> (IsChallengeUnlocked(Initial.(level := 2), c) <==> c.id == "challenge-1")
  {
  }

  /** No operation on the progress closes a challenge that is open. */
  lemma UnlockedStaysUnlocked(p: UserProgress, c: Challenge, id: string, amount: nat)
    requires p.xpToNextLevel >= 1 && IsChallengeUnlocked(p, c)
    ensures IsChallengeUnlocked(AddXP(p, amount), c)
    ensures IsChallengeUnlocked(CompleteLesson(p, id, amount), c)
    ensures IsChallengeUnlocked(CompleteChallenge(p, id, amount), c)
    ensures IsChallengeUnlocked(EarnBadge(p, id), c)
  {
  }

  /** The dialog's `onComplete`: record the challenge (with its XP), then
      ask for the challenge-master badge when two were done before. */
  function OnChallengeComplete(p: UserProgress, c: Challenge): (r: UserProgress)
    requires p.xpToNextLevel >= 1
    ensures r.completedChallenges == CompleteChallenge(p, c.id, c.xpReward).completedChallenges
    ensures IsChallengeCompleted(r, c.id)
    ensures ChallengeMasterBadge in r.badges <==>
              ChallengeMasterBadge in p.badges || |p.completedChallenges| + 1 == ChallengeMasterCount
    ensures r.badges == p.badges || r.badges == p.badges + [ChallengeMasterBadge]
    ensures r.completedLessons == p.completedLessons && r.streak == p.streak
    ensures r.characterType == p.characterType
    ensures r.xpToNextLevel >= 1 && r.level >= p.level
    ensures !IsChallengeCompleted(p, c.id) ==> Gained(p, r, c.xpReward)
    ensures IsChallengeCompleted(p, c.id) ==>
              r.xp == p.xp && r.level == p.level && r.xpToNextLevel == p.xpToNextLevel
  {
    var q := CompleteChallenge(p, c.id, c.xpReward);
    if |p.completedChallenges| + 1 == ChallengeMasterCount then EarnBadge(q, ChallengeMasterBadge) else q
  }

  /** The challenge-master badge is held exactly when three challenges are done. */
  ghost predicate ChallengeMasterMatchesCount(p: UserProgress) {
    ChallengeMasterBadge in p.badges <==> |p.completedChallenges| >= ChallengeMasterCount
  }

  /** Completing a challenge not yet done keeps both count badges in step:
      challenge-master arrives with the third challenge and first-five is
      untouched; the state stays valid. */
  lemma OnChallengeCompleteKeepsBadges(p: UserProgress, c: Challenge)
    requires Valid(p) && ChallengeMasterMatchesCount(p) && LessonsView.FirstFiveMatchesCount(p)
    requires !IsChallengeCompleted(p, c.id)
    ensures Valid(OnChallengeComplete(p, c))
    ensures ChallengeMasterMatchesCount(OnChallengeComplete(p, c))
    ensures LessonsView.FirstFiveMatchesCount(OnChallengeComplete(p, c))
    ensures |OnChallengeComplete(p, c).completedChallenges| == |p.completedChallenges| + 1
  {
    OperationsPreserveValid(p, c.id, c.xpReward);
    OperationsPreserveValid(CompleteChallenge(p, c.id, c.xpReward), ChallengeMasterBadge, 0);
  }

  /** Completing a lesson never touches the challenge-master badge. */
  lemma OnLessonCompleteKeepsChallengeMaster(p: UserProgress, lesson: LessonsView.Lesson)
    requires p.xpToNextLevel >= 1 && ChallengeMasterMatchesCount(p)
    ensures ChallengeMasterMatchesCount(LessonsView.OnLessonComplete(p, lesson))
  {
  }
}
