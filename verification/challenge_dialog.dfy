/** The challenge dialog: edit code, run the simulated tests, and award the
    challenge's XP when all pass (src/components/challenge-dialog.tsx). */
module ChallengeDialog {
  import opened Wrappers
  import opened Progression
  import opened ChallengesView

  // ---------------------------------------------------------------------------
  // Result messages

  function DigitChar(d: nat): (c: char)
    requires d < 10
    ensures '0' <= c <= '9'
  {
    "0123456789"[d]
  }

  function DigitValue(c: char): nat
    requires '0' <= c <= '9'
  {
    c as nat - '0' as nat
  }

  /** The decimal form of `n`, as a template literal prints a non-negative integer. */
  function Decimal(n: nat): (s: string)
    ensures |s| >= 1
    ensures forall i :: 0 <= i < |s| ==> '0' <= s[i] <= '9'
    ensures |s| > 1 ==> s[0] != '0'
  {
    if n < 10 then [DigitChar(n)] else Decimal(n / 10) + [DigitChar(n % 10)]
  }

  /** Reads a string of decimal digits back as a number. */
  function ValueOf(s: string): nat
    requires forall i :: 0 <= i < |s| ==> '0' <= s[i] <= '9'
  {
    if s == [] then 0 else 10 * ValueOf(s[..|s| - 1]) + DigitValue(s[|s| - 1])
  }

  /** Reading the printed number gives the number back. */
  lemma {:induction false} DecimalRoundTrip(n: nat)
    ensures ValueOf(Decimal(n)) == n
  {
    if n >= 10 {
      var s := Decimal(n);
      assert s[..|s| - 1] == Decimal(n / 10);
      DecimalRoundTrip(n / 10);
    }
  }

  /** One `{ passed, message }` entry. */
  datatype TestResult = TestResult(passed: bool, message: string)

  const CheckMark := "\U{2713}"

  /** The message for test `index` (0-based). */
  function Message(index: nat, passed: bool, expected: string): (m: string)
    ensures |m| > 5 && m[..5] == "Test "
  {
    "Test " + Decimal(index + 1) + (if passed then " passed " + CheckMark else " failed - Expected " + expected)
  }

  /** Messages for different tests differ, and say whether the test passed. */
  lemma MessagesDistinguishTests(i: nat, j: nat, passed: bool, expected: string)
    requires i != j
    ensures Message(i, passed, expected) != Message(j, passed, expected)
  {
    var a := Decimal(i + 1);
    var b := Decimal(j + 1);
    var ma := Message(i, passed, expected);
    var mb := Message(j, passed, expected);
    if ma == mb {
      var ta := if passed then " passed " + CheckMark else " failed - Expected " + expected;
      assert ma == "Test " + a + ta;
      assert mb == "Test " + b + ta;
      DigitsThenSpace(a, b, ta, ta);
      DecimalRoundTrip(i + 1);
      DecimalRoundTrip(j + 1);
    }
  }

  /** Where the parts of "Test " + a + t sit. */
  lemma Layout(a: string, t: string)
    ensures forall k :: 0 <= k < |a| ==> ("Test " + a + t)[5 + k] == a[k]
    ensures |t| >= 1 ==> ("Test " + a + t)[5 + |a|] == t[0]
  {
  }

  /** Two digit strings, each followed by a space, can be told apart. */
  lemma DigitsThenSpace(a: string, b: string, ta: string, tb: string)
    requires forall i :: 0 <= i < |a| ==> '0' <= a[i] <= '9'
    requires forall i :: 0 <= i < |b| ==> '0' <= b[i] <= '9'
    requires |ta| >= 1 && ta[0] == ' ' && |tb| >= 1 && tb[0] == ' '
    requires "Test " + a + ta == "Test " + b + tb
    ensures a == b
  {
    Layout(a, ta);
    Layout(b, tb);
    if |a| == |b| {
      var x := "Test " + a + ta;
      assert forall k :: 0 <= k < |a| ==> a[k] == x[5 + k] == b[k];
    }
  }

  // ---------------------------------------------------------------------------
  // The dialog

  /** `code` and `testResults`. */
  datatype State = State(code: string, results: seq<TestResult>)

  /** The dialog opens on the starter code, with no results. */
  function Open(c: Challenge): (s: State)
    ensures s.code == c.starterCode && s.results == []
  {
    State(c.starterCode, [])
  }

  /** Typing in the editor. */
  function Edit(s: State, code: string): (r: State)
    ensures r.code == code && r.results == s.results
  {
    s.(code := code)
  }

  /** "Reset": the starter code again; results stay as they are. */
  function Reset(c: Challenge, s: State): (r: State)
    ensures r.code == c.starterCode && r.results == s.results
  {
    s.(code := c.starterCode)
  }

  /** `runTests`. `passes` is the simulated test runner's verdict on the code; it
      is the same for every test case. One result per test case, in order;
      the XP is awarded when every result passed (vacuously so with no test
      cases) and the challenge is not yet completed. */
  function RunTests(c: Challenge, s: State, passes: string -> bool, isCompleted: bool): (r: (State, Option<nat>))
    ensures r.0.code == s.code
    ensures |r.0.results| == |c.testCases|
    ensures forall i :: 0 <= i < |r.0.results| ==>
              && r.0.results[i].passed == passes(s.code)
              && r.0.results[i].message == Message(i, passes(s.code), c.testCases[i].expected)
    ensures r.1.Some? <==> !isCompleted && (forall i :: 0 <= i < |r.0.results| ==> r.0.results[i].passed)
    ensures r.1.Some? ==> r.1.value == c.xpReward
  {
    var passed := passes(s.code);
    var results := seq(|c.testCases|, i requires 0 <= i < |c.testCases| =>
                         TestResult(passed, Message(i, passed, c.testCases[i].expected)));
    var allPassed := forall i :: 0 <= i < |results| ==> results[i].passed;
    (s.(results := results), if allPassed && !isCompleted then Some(c.xpReward) else None)
  }

  /** The "Challenge Complete" banner: a non-empty list of passed results. */
  predicate ShowsComplete(s: State) {
    |s.results| > 0 && forall i :: 0 <= i < |s.results| ==> s.results[i].passed
  }

  /** With at least one test case, the banner shows after a run exactly when
      the test runner accepted the code, and an award implies the banner. */
  lemma BannerMatchesVerdict(c: Challenge, s: State, passes: string -> bool, isCompleted: bool)
    requires |c.testCases| >= 1
    ensures ShowsComplete(RunTests(c, s, passes, isCompleted).0) <==> passes(s.code)
    ensures RunTests(c, s, passes, isCompleted).1.Some? ==> ShowsComplete(RunTests(c, s, passes, isCompleted).0)
  {
    var r := RunTests(c, s, passes, isCompleted).0;
    assert r.results[0].passed == passes(s.code);
  }

  // ---------------------------------------------------------------------------
  // A dialog session against the progress

  datatype Event = Typed(code: string) | ResetClicked | RunClicked

  /** One event; an award is passed on to the challenges view's `onComplete`,
      and `isCompleted` is read from the progress as the view passes it. */
  function Step1(c: Challenge, s: State, p: UserProgress, passes: string -> bool, e: Event): (r: (State, UserProgress, bool))
    requires Valid(p)
    ensures Valid(r.1)
    ensures r.2 <==> !IsChallengeCompleted(p, c.id) && IsChallengeCompleted(r.1, c.id)
    ensures IsChallengeCompleted(p, c.id) ==> r.1 == p
  {
    match e
    case Typed(code) => (Edit(s, code), p, false)
    case ResetClicked => (Reset(c, s), p, false)
    case RunClicked =>
      var (s', award) := RunTests(c, s, passes, IsChallengeCompleted(p, c.id));
      if award.Some? then
        OperationsPreserveValid(p, c.id, c.xpReward);
        var q := OnChallengeComplete(p, c);
        OperationsPreserveValid(CompleteChallenge(p, c.id, c.xpReward), ChallengeMasterBadge, 0);
        (s', q, true)
      else (s', p, false)
  }

  /** A whole session: final dialog state, final progress, number of awards. */
  function Session(c: Challenge, s: State, p: UserProgress, passes: string -> bool, events: seq<Event>): (r: (State, UserProgress, nat))
    requires Valid(p)
    ensures Valid(r.1)
    decreases |events|
  {
    if events == [] then (s, p, 0)
    else
      var (s', p', awarded) := Step1(c, s, p, passes, events[0]);
      var (s'', p'', n) := Session(c, s', p', passes, events[1..]);
      (s'', p'', n + if awarded then 1 else 0)
  }

  /** Once the challenge is completed, no run awards anything again. */
  lemma {:induction false} AfterAwardNoMore(c: Challenge, s: State, p: UserProgress, passes: string -> bool, events: seq<Event>)
    requires Valid(p) && IsChallengeCompleted(p, c.id)
    ensures Session(c, s, p, passes, events).2 == 0
    ensures Session(c, s, p, passes, events).1 == p
    decreases |events|
  {
    if events != [] {
      var (s', p', awarded) := Step1(c, s, p, passes, events[0]);
      AfterAwardNoMore(c, s', p', passes, events[1..]);
    }
  }

  /** Retries included, a challenge's XP is awarded at most once, never for
      a challenge already completed, and an award leaves it completed. */
  lemma {:induction false} AwardedAtMostOnce(c: Challenge, s: State, p: UserProgress, passes: string -> bool, events: seq<Event>)
    requires Valid(p)
    ensures var r := Session(c, s, p, passes, events);
            && r.2 <= 1
            && (IsChallengeCompleted(p, c.id) ==> r.2 == 0)
            && (r.2 == 1 ==> IsChallengeCompleted(r.1, c.id))
    decreases |events|
  {
    if events != [] {
      var (s', p', awarded) := Step1(c, s, p, passes, events[0]);
      AwardedAtMostOnce(c, s', p', passes, events[1..]);
      if awarded {
        AfterAwardNoMore(c, s', p', passes, events[1..]);
      }
    }
  }
}
