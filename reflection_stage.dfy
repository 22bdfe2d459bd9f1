/** The reflection stage at the end of a lesson: the score emoji and headline, the phrase list,
    the badge row and the buttons. */
module ReflectionStage {
  import opened Optional
  import LessonDetail
  import LearningContext

  const Trophy: string := "\U{1F3C6}"
  const Star: string := "\U{2B50}"
  const ThumbsUp: string := "\U{1F44D}"
  const Muscle: string := "\U{1F4AA}"

  const Outstanding: string := "Outstanding Performance!"
  const GreatJob: string := "Great Job!"
  const WellDone: string := "Well Done!"
  const KeepPracticing: string := "Keep Practicing!"

  /** The band a score falls in, 0 (from 90) to 3 (below 60). */
  function Band(score: int): (b: nat)
    ensures b < 4
    ensures b == 0 <==> score >= 90
    ensures b == 1 <==> 75 <= score < 90
    ensures b == 2 <==> 60 <= score < 75
    ensures b == 3 <==> score < 60
  {
    if score >= 90 then 0 else if score >= 75 then 1 else if score >= 60 then 2 else 3
  }

  /** `getScoreEmoji`. */
  function ScoreEmoji(score: int): string {
    if score >= 90 then Trophy
    else if score >= 75 then Star
    else if score >= 60 then ThumbsUp
    else Muscle
  }

  /** `getScoreMessage`. */
  function ScoreMessage(score: int): string {
    if score >= 90 then Outstanding
    else if score >= 75 then GreatJob
    else if score >= 60 then WellDone
    else KeepPracticing
  }

  const Emojis: seq<string> := [Trophy, Star, ThumbsUp, Muscle]
  const Messages: seq<string> := [Outstanding, GreatJob, WellDone, KeepPracticing]

  /** The two threshold chains pick the same band: the emoji and the headline shown are the
      pair of the band the score is in. */
  lemma EmojiAndMessageAgree(score: int)
    ensures ScoreEmoji(score) == Emojis[Band(score)]
    ensures ScoreMessage(score) == Messages[Band(score)]
  {
  }

  /** The four emojis differ, so the emoji alone tells the band, and with it the headline. */
  lemma EmojiDeterminesMessage(s1: int, s2: int)
    requires ScoreEmoji(s1) == ScoreEmoji(s2)
    ensures Band(s1) == Band(s2)
    ensures ScoreMessage(s1) == ScoreMessage(s2)
  {
    EmojiAndMessageAgree(s1);
    EmojiAndMessageAgree(s2);
    assert Trophy[0] != Star[0] && Trophy[0] != ThumbsUp[0] && Trophy[0] != Muscle[0];
    assert Star[0] != ThumbsUp[0] && Star[0] != Muscle[0] && ThumbsUp[0] != Muscle[0];
  }

  /** A higher score never falls in a lower band. */
  lemma BandMonotone(lo: int, hi: int)
    requires lo <= hi
    ensures Band(hi) <= Band(lo)
  {
  }

  /** `learnedPhrases.slice(0, 5)`: the first five phrases, or all of them when fewer. */
  function ShownPhrases(phrases: seq<string>): (r: seq<string>)
    ensures |r| == if |phrases| < 5 then |phrases| else 5
    ensures r == phrases[..|r|]
  {
    if |phrases| <= 5 then phrases else phrases[..5]
  }

  /** Taking the shown phrases again changes nothing. */
  lemma ShownPhrasesIdempotent(phrases: seq<string>)
    ensures ShownPhrases(ShownPhrases(phrases)) == ShownPhrases(phrases)
  {
  }

  /** The badge row is shown only when there is a badge. */
  predicate ShowsBadges(badges: seq<string>) {
    |badges| > 0
  }

  /** With the badges the lesson screen passes in, the badge row appears exactly when the
      emoji is the trophy. */
  lemma BadgeRowWithTrophy(challengeScore: int)
    ensures ShowsBadges(LessonDetail.ReflectionBadges(challengeScore)) <==> ScoreEmoji(challengeScore) == Trophy
  {
    assert Trophy[0] != Star[0] && Trophy[0] != ThumbsUp[0] && Trophy[0] != Muscle[0];
  }

  datatype Action = NextLesson(path: string) | BackToDashboard

  /** The buttons: Next Lesson when `nextLessonId` is truthy (present and not the empty
      string), leading to that lesson, then always Back to Dashboard. */
  function Actions(nextLessonId: Option<string>): (r: seq<Action>)
    ensures 1 <= |r| <= 2 && r[|r| - 1] == BackToDashboard
    ensures |r| == 2 <==> nextLessonId.Some? && nextLessonId.value != ""
    ensures |r| == 2 ==> r[0] == NextLesson("/lessons/" + nextLessonId.value)
  {
    match nextLessonId
    case Some(id) => if id != "" then [NextLesson("/lessons/" + id), BackToDashboard] else [BackToDashboard]
    case None => [BackToDashboard]
  }

  /** The last lesson in the list gets no Next Lesson button. */
  lemma LastLessonHasNoNext(lessons: seq<LearningContext.Lesson>, lessonId: string)
    requires |lessons| > 0 && lessons[|lessons| - 1].id == lessonId
    requires forall j :: 0 <= j < |lessons| - 1 ==> lessons[j].id != lessonId
    ensures Actions(LessonDetail.FindNextLesson(lessons, lessonId)) == [BackToDashboard]
  {
    LessonDetail.NoNextLesson(lessons, lessonId);
  }
}
