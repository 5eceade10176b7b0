/** The figures the progress dashboard derives from the progression state
    (src/components/progress-dashboard.tsx). */
module ProgressDashboard {
  import opened Progression

  /** The level bar, `(xp / xpToNextLevel) * 100`. */
  function CompletionPercentage(p: UserProgress): (pct: real)
    requires p.xpToNextLevel >= 1
    ensures p.xp < p.xpToNextLevel ==> 0.0 <= pct < 100.0
  {
    (p.xp as real / p.xpToNextLevel as real) * 100.0
  }

  /** "N XP until Level L+1". */
  function XpUntilNextLevel(p: UserProgress): (n: int)
    ensures p.xp < p.xpToNextLevel ==> n >= 1
  {
    p.xpToNextLevel - p.xp
  }

  /** The two figures describe the same bar: the part filled and the part
      still missing make up the whole. */
  lemma BarAddsUp(p: UserProgress)
    requires p.xpToNextLevel >= 1
    ensures CompletionPercentage(p) + (XpUntilNextLevel(p) as real / p.xpToNextLevel as real) * 100.0 == 100.0
  {
    var t := p.xpToNextLevel as real;
    assert p.xp as real / t + (p.xpToNextLevel - p.xp) as real / t == t / t;
  }

  /** The figure is exact: gaining that much XP levels up once, with
      nothing left over, and any less does not level up. */
  lemma XpUntilNextLevelIsExact(p: UserProgress, less: nat)
    requires Valid(p) && less < XpUntilNextLevel(p)
    ensures var r := AddXP(p, XpUntilNextLevel(p) as nat);
            r.level == p.level + 1 && r.xp == 0 && r.xpToNextLevel == Grow(p.xpToNextLevel)
    ensures AddXP(p, less).level == p.level
  {
    assert LevelUp(p.xpToNextLevel, p.level, p.xpToNextLevel) == LevelUp(0, p.level + 1, Grow(p.xpToNextLevel));
  }

  datatype Rank = Novice | Apprentice | Expert

  /** "Current Rank". */
  function RankOf(level: int): Rank {
    if level < 5 then Novice else if level < 10 then Apprentice else Expert
  }

  function RankOrdinal(r: Rank): nat {
    match r
    case Novice => 0
    case Apprentice => 1
    case Expert => 2
  }

  /** A higher level never shows a lower rank, and each rank has its range. */
  lemma RankMonotone(l1: int, l2: int)
    requires l1 <= l2
    ensures RankOrdinal(RankOf(l1)) <= RankOrdinal(RankOf(l2))
    ensures RankOf(l1) == Novice <==> l1 < 5
    ensures RankOf(l1) == Expert <==> l1 >= 10
  {
  }

  // ---------------------------------------------------------------------------
  // Total XP

  /** "Total XP Earned" as the dashboard (and the profile view) compute it:
      every completed level counted as 100 XP. */
  function TotalXpShown(p: UserProgress): (n: int)
    ensures p.level >= 1 ==> n >= p.xp
  {
    p.xp + (p.level - 1) * 100
  }

  /** Thresholds only grow, so `k` level-ups consume at least `k` times
      the first threshold, and strictly more once two thresholds are
      crossed from a threshold of at least 2. */
  lemma {:induction false} ConsumedAtLeast(t: nat, k: nat)
    ensures Consumed(t, k) >= t * k
    ensures t >= 2 && k >= 2 ==> Consumed(t, k) > t * k
    decreases k
  {
    if k > 0 {
      ConsumedAtLeast(Grow(t), k - 1);
      assert Grow(t) * (k - 1) >= t * (k - 1) by {
        MultiplyMonotone(t, Grow(t), k - 1);
      }
      if t >= 2 && k >= 2 {
        assert Grow(t) * (k - 1) > t * (k - 1) by {
          MultiplyStrict(t, Grow(t), k - 1);
        }
      }
    }
  }

  lemma MultiplyMonotone(a: nat, b: nat, k: nat)
    requires a <= b
    ensures a * k <= b * k
  {
  }

  lemma MultiplyStrict(a: nat, b: nat, k: nat)
    requires a < b && k >= 1
    ensures a * k < b * k
  {
  }

  /** On the level curve the shown total never exceeds the XP actually
      gained, and equals it only up to level 2: from level 3 on it
      undercounts, because it prices every level at the first threshold. */
  lemma TotalXpShownUndercounts(p: UserProgress)
    requires OnLevelCurve(p)
    ensures TotalXpShown(p) <= TotalXpEarned(p)
    ensures TotalXpShown(p) == TotalXpEarned(p) <==> p.level <= 2
  {
    ConsumedAtLeast(FirstThreshold, p.level - 1);
    if p.level == 2 {
      assert Consumed(FirstThreshold, 1) == FirstThreshold + Consumed(Grow(FirstThreshold), 0);
    }
  }

  /** A concrete case: 250 XP gained from the start shows as 200. */
  lemma TotalXpShownCounterexample()
    ensures var p := AddXP(Initial, 250);
            TotalXpShown(p) == 200 && TotalXpEarned(p) == 250
  {
    AddXPFromInitial();
    assert Consumed(FirstThreshold, 2) == 100 + Consumed(150, 1) == 100 + 150 + Consumed(225, 0);
  }
}
