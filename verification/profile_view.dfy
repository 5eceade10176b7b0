/** The profile page: badge gallery, overall progress and stats
    (src/components/profile-view.tsx). */
module ProfileView {
  import opened Progression
  import opened Sequences
  import LessonsView
  import ChallengesView

  datatype BadgeInfo = BadgeInfo(id: string, name: string, description: string)

  const AllBadges: seq<BadgeInfo> := [
    BadgeInfo("first-lesson", "First Steps", "Complete your first lesson"),
    BadgeInfo("first-five", "Learning Streak", "Complete 5 lessons"),
    BadgeInfo("challenge-master", "Challenge Master", "Complete 3 challenges"),
    BadgeInfo("level-five", "Rising Star", "Reach Level 5"),
    BadgeInfo("perfect-score", "Perfectionist", "Get 100% on any quiz"),
    BadgeInfo("week-streak", "Dedicated Learner", "Maintain a 7-day streak")
  ]

  const TotalLessons: nat := 5
  const TotalChallenges: nat := 5

  /** `allBadges.filter(...)` on whether the id is held: `held` picks the
      earned list, `!held` the locked one. Catalog order is kept. */
  function FilterBadges(bs: seq<BadgeInfo>, ids: seq<string>, held: bool): (r: seq<BadgeInfo>)
    ensures forall b :: b in r <==> b in bs && ((b.id in ids) == held)
    ensures |r| <= |bs|
  {
    if bs == [] then []
    else (if (bs[0].id in ids) == held then [bs[0]] else []) + FilterBadges(bs[1..], ids, held)
  }

  function EarnedBadges(p: UserProgress): seq<BadgeInfo> {
    FilterBadges(AllBadges, p.badges, true)
  }

  function LockedBadges(p: UserProgress): seq<BadgeInfo> {
    FilterBadges(AllBadges, p.badges, false)
  }

  /** The two lists split the catalog: together they are as long as it,
      and each catalog badge is in exactly the one its id says. */
  lemma {:induction false} EarnedAndLockedPartition(bs: seq<BadgeInfo>, ids: seq<string>)
    ensures |FilterBadges(bs, ids, true)| + |FilterBadges(bs, ids, false)| == |bs|
    ensures forall b :: b in bs ==> (b in FilterBadges(bs, ids, true) <==> b !in FilterBadges(bs, ids, false))
  {
    if bs != [] {
      EarnedAndLockedPartition(bs[1..], ids);
    }
  }

  /** Filtering keeps catalog order: the lists for a catalog split in two
      are the lists for each part, one after the other. */
  lemma {:induction false} FilterKeepsOrder(a: seq<BadgeInfo>, b: seq<BadgeInfo>, ids: seq<string>, held: bool)
    ensures FilterBadges(a + b, ids, held) == FilterBadges(a, ids, held) + FilterBadges(b, ids, held)
  {
    if a != [] {
      assert (a + b)[0] == a[0];
      assert (a + b)[1..] == a[1..] + b;
      FilterKeepsOrder(a[1..], b, ids, held);
    } else {
      assert a + b == b;
    }
  }

  /** Six badges with distinct ids, among them the two the views award. */
  lemma BadgeCatalogWellFormed()
    ensures |AllBadges| == 6
    ensures forall i, j :: 0 <= i < j < |AllBadges| ==> AllBadges[i].id != AllBadges[j].id
    ensures AllBadges[1].id == LessonsView.FirstFiveBadge && AllBadges[2].id == ChallengesView.ChallengeMasterBadge
  {
  }

  /** `progressPercentage`: completed lessons and challenges over the ten
      activities. */
  function ProgressPercentage(p: UserProgress): (pct: real)
    ensures pct >= 0.0
    ensures pct == 0.0 <==> p.completedLessons == [] && p.completedChallenges == []
  {
    ((|p.completedLessons| + |p.completedChallenges|) as real / (TotalLessons + TotalChallenges) as real) * 100.0
  }

  function LessonIds(): (ids: seq<string>)
    ensures |ids| == |LessonsView.Lessons|
  {
    seq(|LessonsView.Lessons|, i requires 0 <= i < |LessonsView.Lessons| => LessonsView.Lessons[i].id)
  }

  function ChallengeIds(): (ids: seq<string>)
    ensures |ids| == |ChallengesView.Challenges|
  {
    seq(|ChallengesView.Challenges|, i requires 0 <= i < |ChallengesView.Challenges| => ChallengesView.Challenges[i].id)
  }

  /** A list without repeats drawn from a catalog is no longer than it. */
  lemma {:induction false} NoLongerThanCatalog(s: seq<string>, catalog: seq<string>)
    requires NoDuplicates(s) && forall x :: x in s ==> x in catalog
    ensures |s| <= |catalog|
    decreases |s|
  {
    if s != [] {
      var x := s[|s| - 1];
      assert x in s;
      var i :| 0 <= i < |catalog| && catalog[i] == x;
      var rest := catalog[..i] + catalog[i + 1..];
      forall y | y in s[..|s| - 1] ensures y in rest {
        var j :| 0 <= j < |s| - 1 && s[j] == y;
        assert y != x;
        assert y in s;
        var k :| 0 <= k < |catalog| && catalog[k] == y;
        if k < i { assert rest[k] == y; } else { assert rest[k - 1] == y; }
      }
      NoLongerThanCatalog(s[..|s| - 1], rest);
    }
  }

  /** With only catalog ids, each listed once, the bar stays within 100%,
      and reaches it exactly when every lesson and challenge is done. */
  lemma ProgressAtMostHundred(p: UserProgress)
    requires NoDuplicates(p.completedLessons) && NoDuplicates(p.completedChallenges)
    requires forall x :: x in p.completedLessons ==> x in LessonIds()
    requires forall x :: x in p.completedChallenges ==> x in ChallengeIds()
    ensures ProgressPercentage(p) <= 100.0
    ensures ProgressPercentage(p) == 100.0 <==> |p.completedLessons| == TotalLessons && |p.completedChallenges| == TotalChallenges
  {
    NoLongerThanCatalog(p.completedLessons, LessonIds());
    NoLongerThanCatalog(p.completedChallenges, ChallengeIds());
  }

  /** The badges the views can award. */
  predicate Awardable(id: string) {
    id == LessonsView.FirstFiveBadge || id == ChallengesView.ChallengeMasterBadge
  }

  /** Only first-five and challenge-master are ever awarded: from a state
      holding no other badge, neither completion callback adds one, so the
      other four stay locked. */
  lemma OtherBadgesStayLocked(p: UserProgress, lesson: LessonsView.Lesson, c: ChallengesView.Challenge)
    requires p.xpToNextLevel >= 1 && forall b :: b in p.badges ==> Awardable(b)
    ensures forall b :: b in LessonsView.OnLessonComplete(p, lesson).badges ==> Awardable(b)
    ensures forall b :: b in ChallengesView.OnChallengeComplete(p, c).badges ==> Awardable(b)
    ensures forall i :: 0 <= i < |AllBadges| ==> (Awardable(AllBadges[i].id) <==> i == 1 || i == 2)
  {
  }
}
