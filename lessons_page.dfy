/** The lesson list: the level filter, each lesson's status, and which lessons are locked. */
module LessonsPage {
  import opened Optional
  import L = LearningContext

  /** `isLessonLocked`: a lesson more than one level above the user's level is locked. */
  predicate IsLocked(lessonLevel: L.Level, userLevel: L.Level) {
    L.LevelIndex(lessonLevel) > L.LevelIndex(userLevel) + 1
  }

  /** The user's own level, every level below it and the next one up are open; everything from
      two levels up is locked. */
  lemma LockedLevels(userLevel: L.Level, lessonLevel: L.Level)
    ensures L.LevelIndex(lessonLevel) <= L.LevelIndex(userLevel) ==> !IsLocked(lessonLevel, userLevel)
    ensures L.LevelIndex(lessonLevel) == L.LevelIndex(userLevel) + 1 ==> !IsLocked(lessonLevel, userLevel)
    ensures L.LevelIndex(lessonLevel) >= L.LevelIndex(userLevel) + 2 ==> IsLocked(lessonLevel, userLevel)
  {
  }

  /** A lesson locked for some level is locked at every higher lesson level, and unlocked for
      every higher user level once unlocked. */
  lemma LockMonotone(a: L.Level, b: L.Level, u: L.Level, v: L.Level)
    requires L.LevelIndex(a) <= L.LevelIndex(b) && L.LevelIndex(u) <= L.LevelIndex(v)
    ensures IsLocked(a, v) ==> IsLocked(b, u)
  {
  }

  /** Concrete: an A1 user has A1 and A2 open and B1 locked; a C1 user has nothing locked. */
  lemma LockExamples()
    ensures !IsLocked(L.A1, L.A1) && !IsLocked(L.A2, L.A1) && IsLocked(L.B1, L.A1) && IsLocked(L.C2, L.A1)
    ensures forall l: L.Level :: !IsLocked(l, L.C1)
  {
  }

  /** `getLessonStatus`: not started without a progress row, otherwise the first row's status. */
  function LessonStatus(ps: seq<L.LessonProgress>, lessonId: string): (s: L.Status)
    ensures (forall j :: 0 <= j < |ps| ==> ps[j].lessonId != lessonId) ==> s == L.Status.NotStarted
    ensures forall j :: (0 <= j < |ps| && ps[j].lessonId == lessonId
                         && forall k :: 0 <= k < j ==> ps[k].lessonId != lessonId) ==> s == ps[j].status
  {
    match L.FindProgress(ps, lessonId)
    case Some(i) => ps[i].status
    case None => L.Status.NotStarted
  }

  /** Once a lesson is started the list shows it in progress; completing it then shows the
      status its score earned. */
  lemma StatusAfterStartAndComplete(ps: seq<L.LessonProgress>, lessonId: string, now: int,
                                    score: real, later: int)
    ensures LessonStatus(L.AfterStart(ps, lessonId, now), lessonId) == L.InProgress
    ensures LessonStatus(L.AfterComplete(L.AfterStart(ps, lessonId, now), lessonId, score, later), lessonId)
            == L.StatusFor(score)
  {
    L.StartRecord(ps, lessonId, now);
    L.CompleteRecord(L.AfterStart(ps, lessonId, now), lessonId, score, later);
  }

  /** The level filter: `'all'` keeps every lesson, a level name keeps the lessons at that
      level, in their order. */
  function Filtered(lessons: seq<L.Lesson>, filter: string): (r: seq<L.Lesson>)
    ensures |r| <= |lessons|
    ensures forall l :: l in r <==> l in lessons && (filter == "all" || L.LevelName(l.level) == filter)
  {
    if lessons == [] then []
    else
      var rest := Filtered(lessons[1..], filter);
      if filter == "all" || L.LevelName(lessons[0].level) == filter then [lessons[0]] + rest else rest
  }

  lemma {:induction false} FilterAll(lessons: seq<L.Lesson>)
    ensures Filtered(lessons, "all") == lessons
  {
    if lessons != [] {
      FilterAll(lessons[1..]);
    }
  }

  /** A level button keeps the lessons at that level and only them. */
  lemma FilterLevel(lessons: seq<L.Lesson>, level: L.Level)
    ensures forall l :: l in Filtered(lessons, L.LevelName(level)) <==> l in lessons && l.level == level
  {
    forall l: L.Lesson ensures L.LevelName(l.level) == L.LevelName(level) <==> l.level == level {
      L.ParseLevelName(l.level);
      L.ParseLevelName(level);
    }
    assert L.LevelName(level) != "all";
  }

  /** A click on a lesson card: a locked card leaves the page as it is, any other opens the
      lesson. */
  function AfterLessonClick(selected: Option<string>, lesson: L.Lesson, userLevel: L.Level): (r: Option<string>)
    ensures IsLocked(lesson.level, userLevel) ==> r == selected
    ensures !IsLocked(lesson.level, userLevel) ==> r == Some(lesson.id)
  {
    if IsLocked(lesson.level, userLevel) then selected else Some(lesson.id)
  }

  /** The recommended cards open without a lock check; that is safe, because every
      recommended lesson is at the user's level and so never locked. */
  lemma RecommendedNeverLocked(lessons: seq<L.Lesson>, ps: seq<L.LessonProgress>, userLevel: L.Level,
                               l: L.Lesson)
    requires l in L.Recommended(lessons, ps, userLevel)
    ensures !IsLocked(l.level, userLevel)
    ensures AfterLessonClick(None, l, userLevel) == Some(l.id)
  {
  }
}
