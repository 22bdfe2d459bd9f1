/** The achievements page: mastered-lesson count, earned badges, the streak panel and the
    level ladder. */
module AchievementsPage {
  import Seqs
  import L = LearningContext

  datatype Badge = Badge(key: string, name: string, icon: string, description: string,
                         xpBonus: nat, unlocks: string)

  predicate IsMasteredRow(p: L.LessonProgress) {
    p.status == L.Status.Mastered
  }

  predicate IsDoneRow(p: L.LessonProgress) {
    L.IsDone(p.status)
  }

  /** `masteredLessons`: the progress rows marked mastered. */
  function MasteredLessons(ps: seq<L.LessonProgress>): (n: nat)
    ensures n <= |ps|
  {
    Seqs.Count(ps, IsMasteredRow)
  }

  lemma MasteredLessonsPositive(ps: seq<L.LessonProgress>)
    ensures MasteredLessons(ps) > 0 <==> exists i :: 0 <= i < |ps| && ps[i].status == L.Status.Mastered
  {
    Seqs.CountPositive(ps, IsMasteredRow);
  }

  /** Whether any progress row is completed or mastered. */
  predicate AnyDone(ps: seq<L.LessonProgress>) {
    exists i :: 0 <= i < |ps| && L.IsDone(ps[i].status)
  }

  /** `earnedBadges`: the filter's test does not look at the badge, so it keeps every badge
      once any lesson is completed or mastered, and none before. */
  function EarnedBadges(badges: seq<Badge>, ps: seq<L.LessonProgress>): (r: seq<Badge>)
    ensures AnyDone(ps) ==> r == badges
    ensures !AnyDone(ps) ==> r == []
  {
    if badges == [] then []
    else (if AnyDone(ps) then [badges[0]] else []) + EarnedBadges(badges[1..], ps)
  }

  /** The badge card's `isEarned`. */
  predicate IsEarned(badges: seq<Badge>, ps: seq<L.LessonProgress>, key: string) {
    exists b :: b in EarnedBadges(badges, ps) && b.key == key
  }

  /** All or nothing: a badge in the collection is earned exactly when some lesson is done,
      and the count shown is either the whole collection or zero. */
  lemma BadgesAllOrNothing(badges: seq<Badge>, ps: seq<L.LessonProgress>, b: Badge)
    requires b in badges
    ensures IsEarned(badges, ps, b.key) <==> AnyDone(ps)
    ensures |EarnedBadges(badges, ps)| == if AnyDone(ps) then |badges| else 0
  {
  }

  /** Completing a lesson with a passing score earns every badge. */
  lemma PassingEarnsAll(ps: seq<L.LessonProgress>, lessonId: string, score: real, now: int,
                        all: seq<Badge>)
    requires L.FindProgress(ps, lessonId).Some? && score >= 70.0
    ensures EarnedBadges(all, L.AfterComplete(ps, lessonId, score, now)) == all
  {
    L.CompleteRecord(ps, lessonId, score, now);
    var k := L.FindProgress(ps, lessonId).value;
    assert L.IsDone(L.AfterComplete(ps, lessonId, score, now)[k].status);
  }

  // ---------------------------------------------------------------------------------------
  // Streak

  /** The streak is a fixed seven days. */
  const StreakDays: nat := 7

  function StreakXp(days: nat): (xp: nat)
    ensures xp == days * 10
  {
    days * 10
  }

  /** The fire-week banner needs a full week. */
  predicate FireWeek(days: nat) {
    days >= 7
  }

  /** Day `i` of the seven-day calendar is lit when it lies within the streak. */
  predicate DayLit(days: nat, i: nat) {
    i < days
  }

  /** With the fixed streak the panel shows 70 XP, every calendar day lit, and the banner. */
  lemma FixedStreakPanel()
    ensures StreakXp(StreakDays) == 70 && FireWeek(StreakDays)
    ensures forall i: nat :: i < 7 ==> DayLit(StreakDays, i)
  {
  }

  // ---------------------------------------------------------------------------------------
  // Level ladder

  const LevelOrder: seq<L.Level> := [L.A1, L.A2, L.B1, L.B2, L.C1, L.C2]

  datatype Rung = Done | Current | Locked

  /** Ladder position `idx` for a user at `userLevel`: `isCompleted` (the user's index is
      above), `isCurrent` (the level text is the user's) and `isLocked` (the index is below). */
  predicate RungCompleted(userLevel: L.Level, idx: nat) { L.LevelIndex(userLevel) > idx }
  predicate RungCurrent(userLevel: L.Level, idx: nat) requires idx < 6 {
    L.LevelName(userLevel) == L.LevelName(LevelOrder[idx])
  }
  predicate RungLocked(userLevel: L.Level, idx: nat) { L.LevelIndex(userLevel) < idx }

  /** The rung the styling picks: completed first, then current, else locked. */
  function RungOf(userLevel: L.Level, idx: nat): (r: Rung)
    requires idx < 6
    ensures r == Done <==> L.LevelIndex(userLevel) > idx
    ensures r == Current <==> L.LevelIndex(userLevel) == idx
    ensures r == Locked <==> L.LevelIndex(userLevel) < idx
  {
    LevelOrderIndex(idx);
    if RungCompleted(userLevel, idx) then Done
    else if RungCurrent(userLevel, idx) then (NameAgreesWithIndex(userLevel, idx); Current)
    else (NameAgreesWithIndex(userLevel, idx); Locked)
  }

  lemma LevelOrderIndex(idx: nat)
    requires idx < 6
    ensures L.LevelIndex(LevelOrder[idx]) == idx
  {
  }

  lemma NameAgreesWithIndex(userLevel: L.Level, idx: nat)
    requires idx < 6
    ensures RungCurrent(userLevel, idx) <==> L.LevelIndex(userLevel) == idx
  {
    LevelOrderIndex(idx);
    L.ParseLevelName(userLevel);
    L.ParseLevelName(LevelOrder[idx]);
  }

  /** Exactly one of completed, current and locked holds on every rung. */
  lemma ExactlyOneRung(userLevel: L.Level, idx: nat)
    requires idx < 6
    ensures RungCompleted(userLevel, idx) || RungCurrent(userLevel, idx) || RungLocked(userLevel, idx)
    ensures !(RungCompleted(userLevel, idx) && RungCurrent(userLevel, idx))
    ensures !(RungCompleted(userLevel, idx) && RungLocked(userLevel, idx))
    ensures !(RungCurrent(userLevel, idx) && RungLocked(userLevel, idx))
  {
    NameAgreesWithIndex(userLevel, idx);
  }

  /** The ladder has exactly one current rung. */
  lemma OneCurrentRung(userLevel: L.Level)
    ensures RungOf(userLevel, L.LevelIndex(userLevel)) == Current
    ensures forall idx: nat :: idx < 6 && idx != L.LevelIndex(userLevel) ==> RungOf(userLevel, idx) != Current
  {
  }

  /** The bar fill of a rung, in percent: full, three quarters, empty. */
  function BarFill(r: Rung): (pct: nat)
    ensures pct <= 100
    ensures r.Locked? <==> pct == 0
  {
    match r
    case Done => 100
    case Current => 75
    case Locked => 0
  }
}
