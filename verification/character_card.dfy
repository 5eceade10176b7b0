/** The character card: avatar, title and stats derived from the progress
    (src/components/character-card.tsx). */
module CharacterCard {
  import opened Progression
  import LessonsView

  /** `getCharacterEmoji`: wizards change with level, other types do not. */
  function CharacterEmoji(characterType: string, level: int): (e: string)
    ensures characterType != "wizard" ==> e == "\U{1F468}\U{200D}\U{1F4BB}"
    ensures characterType == "wizard" ==> |e| >= 4 && e[..4] == "\U{1F9D9}\U{200D}" + (if 5 <= level < 10 then "\U{2640}" else "\U{2642}") + "\U{FE0F}"
  {
    if characterType == "wizard" then
      if level < 5 then "\U{1F9D9}\U{200D}\U{2642}\U{FE0F}"
      else if level < 10 then "\U{1F9D9}\U{200D}\U{2640}\U{FE0F}\U{2728}"
      else "\U{1F9D9}\U{200D}\U{2642}\U{FE0F}\U{26A1}"
    else "\U{1F468}\U{200D}\U{1F4BB}"
  }

  /** A wizard's avatar takes three forms, one per level band. */
  lemma WizardEmojiBands(l1: int, l2: int)
    ensures (l1 < 5 && l2 < 5) || (5 <= l1 < 10 && 5 <= l2 < 10) || (l1 >= 10 && l2 >= 10)
            <==> CharacterEmoji("wizard", l1) == CharacterEmoji("wizard", l2)
  {
  }

  /** `getCharacterTitle`, as its rank among the four titles. */
  function TitleTier(level: int): (n: nat)
    ensures n <= 3
  {
    if level < 5 then 0 else if level < 10 then 1 else if level < 15 then 2 else 3
  }

  const Titles: seq<string> := ["Code Apprentice", "Code Wizard", "Code Master", "Code Grandmaster"]

  function CharacterTitle(level: int): (t: string)
    ensures t in Titles
  {
    Titles[TitleTier(level)]
  }

  /** The title changes exactly at levels 5, 10 and 15, and never goes back. */
  lemma TitleMonotone(l1: int, l2: int)
    requires l1 <= l2
    ensures TitleTier(l1) <= TitleTier(l2)
    ensures TitleTier(l1) == TitleTier(l1 + 1) <==> l1 != 4 && l1 != 9 && l1 != 14
  {
  }

  /** Power, Wisdom and Focus. */
  datatype Stats = Stats(power: int, wisdom: int, focus: int)

  function StatsOf(p: UserProgress): (s: Stats)
    ensures s.power >= 0 && s.wisdom >= 0 && s.focus >= 0
    ensures s.power % 10 == 0 && s.wisdom % 5 == 0 && s.focus % 3 == 0
  {
    Stats(p.level * 10, |p.completedLessons| * 5, p.streak * 3)
  }

  /** Each stat follows its own input and nothing else: it is ordered
      exactly as the level, the lesson count or the streak is, and each
      further level, lesson or streak day adds 10, 5 or 3. */
  lemma StatsMonotone(p: UserProgress, q: UserProgress)
    ensures StatsOf(p).power <= StatsOf(q).power <==> p.level <= q.level
    ensures StatsOf(p).wisdom <= StatsOf(q).wisdom <==> |p.completedLessons| <= |q.completedLessons|
    ensures StatsOf(p).focus <= StatsOf(q).focus <==> p.streak <= q.streak
    ensures StatsOf(q).power - StatsOf(p).power == 10 * (q.level - p.level)
    ensures StatsOf(q).wisdom - StatsOf(p).wisdom == 5 * (|q.completedLessons| - |p.completedLessons|)
    ensures StatsOf(q).focus - StatsOf(p).focus == 3 * (q.streak - p.streak)
  {
  }

  /** Completing a new lesson raises Wisdom by exactly 5 and never lowers
      Power or Focus; gaining XP leaves Wisdom and Focus alone. */
  lemma StatsFollowProgress(p: UserProgress, lesson: LessonsView.Lesson, amount: nat)
    requires p.xpToNextLevel >= 1 && !LessonsView.IsLessonCompleted(p, lesson.id)
    ensures var s := StatsOf(p);
            var r := StatsOf(LessonsView.OnLessonComplete(p, lesson));
            r.wisdom == s.wisdom + 5 && r.power >= s.power && r.focus == s.focus
    ensures var s := StatsOf(p);
            var r := StatsOf(AddXP(p, amount));
            r.wisdom == s.wisdom && r.power >= s.power && r.focus == s.focus
  {
  }
}
