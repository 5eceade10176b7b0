/** The user's progression state and its operations (src/App.tsx):
    XP with a multi-level-up loop, idempotent lesson and challenge
    completion, and idempotent badge awards. */
module Progression {
  import opened Sequences

  datatype UserProgress = UserProgress(
    level: nat,
    xp: nat,
    xpToNextLevel: nat,
    streak: nat,
    completedLessons: seq<string>,
    completedChallenges: seq<string>,
    badges: seq<string>,
    characterType: string)

  const FirstThreshold: nat := 100

  /** The state a session starts from. */
  const Initial: UserProgress := UserProgress(1, 0, FirstThreshold, 0, [], [], [], "wizard")

  /** The state invariant: a level of at least 1, XP below a positive
      threshold, and each id listed at most once. */
  ghost predicate Valid(p: UserProgress) {
    && p.level >= 1
    && p.xpToNextLevel >= 1
    && p.xp < p.xpToNextLevel
    && NoDuplicates(p.completedLessons)
    && NoDuplicates(p.completedChallenges)
    && NoDuplicates(p.badges)
  }

  // ---------------------------------------------------------------------------
  // Thresholds

  /** `Math.floor(t * 1.5)` on a natural number. */
  function Grow(t: nat): (g: nat)
    ensures t <= g
    ensures t >= 1 ==> t < g || t == 1
  {
    t + t / 2
  }

  /** `Grow` is exactly the floor of one and a half times the threshold. */
  lemma GrowIsFloorOfOneAndAHalf(t: nat)
    ensures Grow(t) as real <= 1.5 * t as real < Grow(t) as real + 1.0
  {
    var q := t / 2;
    if t % 2 == 0 {
      assert t == 2 * q;
      assert Grow(t) == 3 * q;
      assert 1.5 * t as real == 3.0 * q as real;
    } else {
      assert t == 2 * q + 1;
      assert Grow(t) == 3 * q + 1;
      assert 1.5 * t as real == 3.0 * q as real + 1.5;
    }
  }

  /** The threshold after `k` level-ups starting from threshold `t`. */
  function Threshold(t: nat, k: nat): nat
    decreases k
  {
    if k == 0 then t else Threshold(Grow(t), k - 1)
  }

  /** The XP consumed by `k` level-ups starting from threshold `t`. */
  function Consumed(t: nat, k: nat): nat
    decreases k
  {
    if k == 0 then 0 else t + Consumed(Grow(t), k - 1)
  }

  lemma {:induction false} ThresholdStep(t: nat, k: nat)
    decreases k
    ensures Threshold(t, k + 1) == Grow(Threshold(t, k))
  {
    if k > 0 {
      ThresholdStep(Grow(t), k - 1);
    }
  }

  lemma {:induction false} ConsumedStep(t: nat, k: nat)
    decreases k
    ensures Consumed(t, k + 1) == Consumed(t, k) + Threshold(t, k)
  {
    if k > 0 {
      ConsumedStep(Grow(t), k - 1);
    }
  }

  lemma {:induction false} ThresholdMonotone(t: nat, k: nat)
    decreases k
    ensures t <= Threshold(t, k)
  {
    if k > 0 {
      ThresholdMonotone(Grow(t), k - 1);
    }
  }

  /** Level-ups compose: `n` then `k` more is `n + k` from the start. */
  lemma {:induction false} ThresholdCompose(t: nat, n: nat, k: nat)
    ensures Threshold(t, n + k) == Threshold(Threshold(t, n), k)
    ensures Consumed(t, n + k) == Consumed(t, n) + Consumed(Threshold(t, n), k)
    decreases n
  {
    if n > 0 {
      ThresholdCompose(Grow(t), n - 1, k);
    }
  }

  /** With a positive threshold, more level-ups consume strictly more XP. */
  lemma {:induction false} ConsumedStrictlyIncreasing(t: nat, k1: nat, k2: nat)
    requires t >= 1 && k1 < k2
    ensures Consumed(t, k1) + Threshold(t, k1) <= Consumed(t, k2)
    decreases k2 - k1
  {
    ConsumedStep(t, k1);
    if k1 + 1 < k2 {
      ConsumedStrictlyIncreasing(t, k1 + 1, k2);
      ConsumedStep(t, k1 + 1);
    }
  }

  // ---------------------------------------------------------------------------
  // addXP

  /** `prev` became `next` by gaining `amount` XP: the level rose by some
      `k >= 0`, the threshold was grown `k` times, the XP spent on those `k`
      thresholds plus the XP kept is exactly the XP held plus `amount`, and
      what is kept lies below the new threshold. */
  ghost predicate Gained(prev: UserProgress, next: UserProgress, amount: nat) {
    && next.level >= prev.level
    && next.xpToNextLevel == Threshold(prev.xpToNextLevel, next.level - prev.level)
    && prev.xp + amount == next.xp + Consumed(prev.xpToNextLevel, next.level - prev.level)
    && next.xp < next.xpToNextLevel
  }

  /** The `while (newXP >= newXPToNext)` loop, one pass per call. */
  function LevelUp(xp: nat, level: nat, t: nat): (r: (nat, nat, nat))
    requires t >= 1
    ensures r.1 >= level && t <= r.2
    ensures r.2 == Threshold(t, r.1 - level)
    ensures xp == r.0 + Consumed(t, r.1 - level)
    ensures r.0 < r.2
    decreases xp
  {
    if xp < t then (xp, level, t) else LevelUp(xp - t, level + 1, Grow(t))
  }

  /** `addXP`: only the XP, the level and the threshold change, and they
      change as `Gained` describes; level and threshold never go down. */
  function AddXP(p: UserProgress, amount: nat): (r: UserProgress)
    requires p.xpToNextLevel >= 1
    ensures Gained(p, r, amount)
    ensures r.xpToNextLevel >= p.xpToNextLevel
    ensures r == p.(xp := r.xp, level := r.level, xpToNextLevel := r.xpToNextLevel)
  {
    var (xp, level, t) := LevelUp(p.xp + amount, p.level, p.xpToNextLevel);
    p.(xp := xp, level := level, xpToNextLevel := t)
  }

  /** `Gained` leaves no freedom: the outcome it describes is unique, so it
      is a complete specification of `AddXP`. */
  lemma GainedIsUnique(p: UserProgress, amount: nat, r1: UserProgress, r2: UserProgress)
    requires p.xpToNextLevel >= 1
    requires Gained(p, r1, amount) && Gained(p, r2, amount)
    ensures r1.level == r2.level && r1.xp == r2.xp && r1.xpToNextLevel == r2.xpToNextLevel
  {
    var t := p.xpToNextLevel;
    var k1 := r1.level - p.level;
    var k2 := r2.level - p.level;
    if k1 < k2 {
      ConsumedStrictlyIncreasing(t, k1, k2);
    } else if k2 < k1 {
      ConsumedStrictlyIncreasing(t, k2, k1);
    }
  }

  /** The literal loop of `addXP`, which computes the same state. */
  method AddXPLoop(p: UserProgress, amount: nat) returns (r: UserProgress)
    requires p.xpToNextLevel >= 1
    ensures Gained(p, r, amount)
    ensures r == p.(xp := r.xp, level := r.level, xpToNextLevel := r.xpToNextLevel)
    ensures r == AddXP(p, amount)
  {
    var newXP: nat := p.xp + amount;
    var newLevel := p.level;
    var newXPToNext := p.xpToNextLevel;
    while newXP >= newXPToNext
      invariant newLevel >= p.level && newXPToNext >= 1
      invariant newXPToNext == Threshold(p.xpToNextLevel, newLevel - p.level)
      invariant p.xp + amount == newXP + Consumed(p.xpToNextLevel, newLevel - p.level)
      decreases newXP
    {
      ThresholdStep(p.xpToNextLevel, newLevel - p.level);
      ConsumedStep(p.xpToNextLevel, newLevel - p.level);
      newXP := newXP - newXPToNext;
      newLevel := newLevel + 1;
      newXPToNext := Grow(newXPToNext);
    }
    r := p.(xp := newXP, level := newLevel, xpToNextLevel := newXPToNext);
    GainedIsUnique(p, amount, r, AddXP(p, amount));
  }

  /** From a valid state, gaining nothing changes nothing. */
  lemma AddZeroXP(p: UserProgress)
    requires Valid(p)
    ensures AddXP(p, 0) == p
  {
  }

  /** From the initial state 250 XP crosses the thresholds 100 and 150. */
  lemma AddXPFromInitial()
    ensures AddXP(Initial, 250) == Initial.(level := 3, xp := 0, xpToNextLevel := 225)
  {
    assert LevelUp(250, 1, 100) == LevelUp(150, 2, 150) == LevelUp(0, 3, 225);
  }

  // ---------------------------------------------------------------------------
  // Completion and badges

  /** `completeLesson`: a new id is appended once and its reward gained; an
      id already listed leaves the whole state as it is. */
  function CompleteLesson(p: UserProgress, lessonId: string, xpReward: nat): (r: UserProgress)
    requires p.xpToNextLevel >= 1
    ensures lessonId in p.completedLessons ==> r == p
    ensures lessonId !in p.completedLessons ==>
              && r.completedLessons == p.completedLessons + [lessonId]
              && Gained(p, r, xpReward)
              && r == p.(completedLessons := r.completedLessons, xp := r.xp, level := r.level,
                         xpToNextLevel := r.xpToNextLevel)
  {
    if lessonId in p.completedLessons then p
    else AddXP(p.(completedLessons := p.completedLessons + [lessonId]), xpReward)
  }

  /** `completeChallenge`: the same rule for challenges. */
  function CompleteChallenge(p: UserProgress, challengeId: string, xpReward: nat): (r: UserProgress)
    requires p.xpToNextLevel >= 1
    ensures challengeId in p.completedChallenges ==> r == p
    ensures challengeId !in p.completedChallenges ==>
              && r.completedChallenges == p.completedChallenges + [challengeId]
              && Gained(p, r, xpReward)
              && r == p.(completedChallenges := r.completedChallenges, xp := r.xp, level := r.level,
                         xpToNextLevel := r.xpToNextLevel)
  {
    if challengeId in p.completedChallenges then p
    else AddXP(p.(completedChallenges := p.completedChallenges + [challengeId]), xpReward)
  }

  /** `earnBadge`: appends a badge not yet held; otherwise nothing changes. */
  function EarnBadge(p: UserProgress, badgeId: string): (r: UserProgress)
    ensures badgeId in r.badges
    ensures badgeId in p.badges ==> r == p
    ensures badgeId !in p.badges ==> r == p.(badges := p.badges + [badgeId])
  {
    if badgeId in p.badges then p else p.(badges := p.badges + [badgeId])
  }

  lemma AppendNewKeepsNoDuplicates(s: seq<string>, x: string)
    requires NoDuplicates(s) && x !in s
    ensures NoDuplicates(s + [x])
  {
  }

  /** Repeating a completion or a badge award is a no-op: the second call
      returns what the first produced, whatever reward it names. */
  lemma CompletionIsIdempotent(p: UserProgress, id: string, xpReward: nat, otherReward: nat)
    requires p.xpToNextLevel >= 1
    ensures var q := CompleteLesson(p, id, xpReward);
            q.xpToNextLevel >= 1 && CompleteLesson(q, id, otherReward) == q
    ensures var q := CompleteChallenge(p, id, xpReward);
            q.xpToNextLevel >= 1 && CompleteChallenge(q, id, otherReward) == q
    ensures EarnBadge(EarnBadge(p, id), id) == EarnBadge(p, id)
  {
  }

  /** Every operation keeps the state invariant, so no id is ever listed twice
      and XP always stays below the threshold. */
  lemma OperationsPreserveValid(p: UserProgress, id: string, amount: nat)
    requires Valid(p)
    ensures Valid(AddXP(p, amount))
    ensures Valid(CompleteLesson(p, id, amount))
    ensures Valid(CompleteChallenge(p, id, amount))
    ensures Valid(EarnBadge(p, id))
  {
    if id !in p.completedLessons {
      AppendNewKeepsNoDuplicates(p.completedLessons, id);
    }
    if id !in p.completedChallenges {
      AppendNewKeepsNoDuplicates(p.completedChallenges, id);
    }
    if id !in p.badges {
      AppendNewKeepsNoDuplicates(p.badges, id);
    }
  }

  /** Any run of `addXP` calls keeps the invariant, and the level only rises. */
  function AddAll(p: UserProgress, amounts: seq<nat>): (r: UserProgress)
    requires Valid(p)
    ensures Valid(r) && r.level >= p.level
    ensures r.xpToNextLevel >= p.xpToNextLevel
    decreases |amounts|
  {
    if amounts == [] then p
    else
      OperationsPreserveValid(p, "", amounts[0]);
      AddAll(AddXP(p, amounts[0]), amounts[1..])
  }

  // ---------------------------------------------------------------------------
  // Total XP earned

  /** A state on the level curve: its threshold is the one reached from the
      first threshold after `level - 1` level-ups, as for every state
      reachable from `Initial`. */
  ghost predicate OnLevelCurve(p: UserProgress) {
    p.level >= 1 && p.xpToNextLevel == Threshold(FirstThreshold, p.level - 1)
  }

  /** All XP ever gained: what is held plus every threshold consumed since
      level 1. */
  function TotalXpEarned(p: UserProgress): nat
    requires p.level >= 1
  {
    p.xp + Consumed(FirstThreshold, p.level - 1)
  }

  /** Gaining XP keeps a state on the level curve and raises the total by
      exactly the amount gained. */
  lemma AddXPAccumulates(p: UserProgress, amount: nat)
    requires Valid(p) && OnLevelCurve(p)
    ensures OnLevelCurve(AddXP(p, amount))
    ensures TotalXpEarned(AddXP(p, amount)) == TotalXpEarned(p) + amount
  {
    ThresholdMonotone(FirstThreshold, p.level - 1);
    var r := AddXP(p, amount);
    ThresholdCompose(FirstThreshold, p.level - 1, r.level - p.level);
    assert p.level - 1 + (r.level - p.level) == r.level - 1;
  }

  function Sum(amounts: seq<nat>): nat {
    if amounts == [] then 0 else amounts[0] + Sum(amounts[1..])
  }

  /** Along any run of `addXP` calls the total grows by the sum of the amounts. */
  lemma {:induction false} AddAllAccumulates(p: UserProgress, amounts: seq<nat>)
    requires Valid(p) && OnLevelCurve(p)
    ensures OnLevelCurve(AddAll(p, amounts))
    ensures TotalXpEarned(AddAll(p, amounts)) == TotalXpEarned(p) + Sum(amounts)
    decreases |amounts|
  {
    if amounts != [] {
      AddXPAccumulates(p, amounts[0]);
      OperationsPreserveValid(p, "", amounts[0]);
      AddAllAccumulates(AddXP(p, amounts[0]), amounts[1..]);
    }
  }

  /** So from the initial state the total is exactly the XP ever awarded. */
  lemma TotalFromInitial(amounts: seq<nat>)
    ensures Valid(Initial) && TotalXpEarned(AddAll(Initial, amounts)) == Sum(amounts)
  {
    AddAllAccumulates(Initial, amounts);
  }
}
