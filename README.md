# german_bot learning-progress core in Dafny

This project models the learning-progress logic of german_bot, a German-practice web app written
in TypeScript and React, and proves properties of that model. What is modelled:

- **The spaced-repetition vocabulary store and the flashcard session.** It covers the review
  counters, the 1/3/7/14/30-day interval ladder, the due filter, case-insensitive duplicate
  rejection and removal by id.
- **The learner-adaptation rules.** It covers the grammar mastery tiers, lesson start and
  completion records, the difficulty-instruction prompt and the recommended lessons.
- **The five-stage lesson screen and its stage gates.** It covers the checklist, the guided steps,
  the challenge counter and score, the free-chat vocabulary extractor, and the stage navigation
  with its final score.
- **The aggregations and threshold classifiers of the pages.** It covers theme progress and XP,
  page totals and rounding, vocabulary buckets, lesson locking, badges, the level ladder, grade and
  emoji bands, and the practice session's accuracy and XP.

There is one Dafny module per source file, plus helper modules:

- `Optional` (an `Option` type);
- `Seqs` (sums, counts, take);
- `Text` (lower-casing, `includes`, `trim`, join, decimal rendering);
- `JsMath` (`Math.round`, `Math.floor`, `min` and `max` on exact reals);
- `Chat` (the role and message shape shared by the chat components);
- `IntSets` (the size of a set of stage numbers).

How the model represents the source:

- **State.** Every piece of React state that a handler updates is a class field. Each handler is a
  method whose postcondition gives the new state as a pure function of the old state. The
  properties are proved as lemmas about those functions.
- **Persistence.** Supabase tables are the in-memory sequences of rows the contexts hold. A write
  followed by a refresh is modelled as the refreshed state.
- **Time.** Time is an integer number of milliseconds.
- **Percentages and scores.** These are exact reals. `Math.round(x)` is `floor(x + 0.5)` and the
  JavaScript `%` truncates toward zero.
- **Strings.** Strings are sequences of Unicode characters.
- **Values from outside.** The outcome of a network call, the current time and a random pick are
  parameters of the operation that receives them.

## Model

| member | source | states |
|---|---|---|
| VocabularyContext.IntervalDays | src/contexts/VocabularyContext.tsx:130-143 | the interval is at least one day; a wrong answer gives 1 day; a right answer takes the ladder 1, 3, 7, 14, 30 days at the new correct count, 30 from the fifth on |
| VocabularyContext.Reviewed | src/contexts/VocabularyContext.tsx:129-153 | one review adds 1 to the review count and 1 to the correct count only when correct, schedules the next review `now + days × 86 400 000` ms, strictly in the future, keeps correct ≤ reviewed, and changes no other field |
| VocabularyContext.IndexOf | src/contexts/VocabularyContext.tsx:124 | the position of the first word with the id, or none when no word has it |
| VocabularyContext.AfterReview | src/contexts/VocabularyContext.tsx:120-163 | reviewing an unknown id changes nothing; otherwise exactly the found word is replaced by its reviewed form and every other word stays |
| VocabularyContext.DueWords | src/contexts/VocabularyContext.tsx:165-168 | a word is in the due list exactly when it is in the store and its next review is not after now |
| VocabularyContext.DueWordsAppend | src/contexts/VocabularyContext.tsx:167 | the due filter distributes over concatenation, so it keeps list order |
| VocabularyContext.DueWordsIdempotent | src/contexts/VocabularyContext.tsx:165-168 | filtering the due list again gives the same list |
| VocabularyContext.NonEmpty | src/contexts/VocabularyContext.tsx:87-88 | `x \|\| null`: an empty or missing string is stored as null, any other string as itself |
| VocabularyContext.NewWord | src/contexts/VocabularyContext.tsx:83-91 | the inserted row has the given texts, zero counters, is due at once, and defaults its difficulty to beginner |
| VocabularyContext.AfterAdd | src/contexts/VocabularyContext.tsx:61-100 | a German text already present (ignoring case) leaves the list unchanged; otherwise the new word is put first; either way the text is then present |
| VocabularyContext.AddTwiceIsOnce | src/contexts/VocabularyContext.tsx:72-79 | adding a text that matches an earlier one case-insensitively changes nothing |
| VocabularyContext.AddedWordIsDue | src/contexts/VocabularyContext.tsx:90 | a newly added word is in the due list at every later time |
| VocabularyContext.WithoutId | src/contexts/VocabularyContext.tsx:114 | after removal exactly the words with other ids remain |
| VocabularyContext.WithoutIdAppend | src/contexts/VocabularyContext.tsx:114 | removal distributes over concatenation, so the remaining words keep their order |
| VocabularyContext.WithoutAbsentId | src/contexts/VocabularyContext.tsx:114 | removing an id no word carries leaves the list as it was |
| VocabularyContext.RemoveUndoesAdd | src/contexts/VocabularyContext.tsx:61-118 | removing a word just added under a fresh id gives back the list before the addition |
| VocabularyContext.ReviewKeepsWellFormed | src/contexts/VocabularyContext.tsx:120-163 | a review keeps every word's counters consistent and the ids distinct |
| VocabularyContext.AddKeepsWellFormed | src/contexts/VocabularyContext.tsx:61-100 | an addition keeps counters consistent and ids distinct and below the next id |
| VocabularyContext.WithoutIdKeepsWellFormed | src/contexts/VocabularyContext.tsx:102-118 | a removal keeps the store invariant |
| VocabularyContext.ReplayCounters | src/contexts/VocabularyContext.tsx:150-151 | any sequence of reviews adds one review per answer and one correct per correct answer, and keeps correct ≤ reviewed |
| VocabularyContext.StreakFollowsLadder | src/contexts/VocabularyContext.tsx:132-139 | from a word never answered right, the (k+1)-th consecutive correct review schedules 1, 3, 7, 14, then always 30 days |
| VocabularyContext.AllCorrectCount | src/contexts/VocabularyContext.tsx:151 | a run of correct answers counts as many correct answers as answers |
| VocabularyContext.WrongAnswerResetsInterval | src/contexts/VocabularyContext.tsx:140-151 | after any history a wrong answer schedules one day ahead and leaves the correct count unchanged |
| VocabularyContext.Provider.constructor | src/contexts/VocabularyContext.tsx:33-53 | a sign-in loads the stored rows, a signed-out store holds no words; the invariant holds |
| VocabularyContext.Provider.AddWord | src/contexts/VocabularyContext.tsx:61-100 | signed in and the text new: the words become `AfterAdd` of the old ones and the id counter moves on; otherwise nothing changes |
| VocabularyContext.Provider.RemoveWord | src/contexts/VocabularyContext.tsx:102-118 | signed in: the words become `WithoutId` of the old ones; signed out: unchanged; the invariant holds |
| VocabularyContext.Provider.ReviewWord | src/contexts/VocabularyContext.tsx:120-163 | signed in: the words become `AfterReview` of the old ones; signed out: unchanged; the invariant holds |
| LearningContext.LocalLessonId | src/contexts/LearningContext.tsx:68 | a local lesson id has the form `lesson-<level>-<number>` |
| LearningContext.ParseLocalLessonIdRoundTrip | src/contexts/LearningContext.tsx:66-70 | the level and lesson number can be read back from a local id |
| LearningContext.LocalLessonIdInjective | src/contexts/LearningContext.tsx:68 | two local ids are equal only for the same level and number |
| LearningContext.LocalLessons | src/contexts/LearningContext.tsx:66-70 | the local lesson list has one lesson per catalogue entry, in order, each with its local id, level, number, title and theme |
| LearningContext.LocalLessonIdsDistinct | src/contexts/LearningContext.tsx:118-122 | catalogue entries with distinct (level, number) give distinct lesson ids |
| LearningContext.FindProgress | src/contexts/LearningContext.tsx:183 | the first progress record for the lesson, or none when there is none |
| LearningContext.StatusFor | src/contexts/LearningContext.tsx:229 | a completion never records not-started, and records completed or mastered exactly from a score of 70 |
| LearningContext.StatusForMonotone | src/contexts/LearningContext.tsx:229 | a higher score never records a lower status |
| LearningContext.AfterStart | src/contexts/LearningContext.tsx:178-220 | starting keeps the list length when a record exists and otherwise appends one, keeping every lesson id in place |
| LearningContext.StartRecord | src/contexts/LearningContext.tsx:183-210 | afterwards the record exists and is in progress; an existing record counts one more attempt and keeps its first start time, a new one starts now with no attempts; no other record changes |
| LearningContext.AfterComplete | src/contexts/LearningContext.tsx:222-247 | completing keeps the list shape, and without a record for the lesson changes nothing |
| LearningContext.CompleteRecord | src/contexts/LearningContext.tsx:226-239 | the record gets the score and the status it earns, a completion time exactly when the score is at least 70, keeps attempts and start time; no other record changes |
| LearningContext.CompleteIdempotent | src/contexts/LearningContext.tsx:222-247 | completing twice with the same score at the same time is completing once |
| LearningContext.StartKeepsNoSavedStages | src/contexts/LearningContext.tsx:189-207 | starting writes no saved stage |
| LearningContext.CompleteKeepsNoSavedStages | src/contexts/LearningContext.tsx:233-238 | completing writes no saved stage |
| LearningContext.AccuracyLinear | src/contexts/LearningContext.tsx:258-259 | the accuracy test `correct / total × 100 ≥ p` is the integer test `100 × correct ≥ p × total` |
| LearningContext.TierForLinear | src/contexts/LearningContext.tsx:261-264 | mastered iff correct ≥ 20 and accuracy ≥ 90 %; else advanced iff correct ≥ 10 and accuracy ≥ 80 %; else intermediate iff correct ≥ 5 and accuracy ≥ 70 % |
| LearningContext.TierMonotoneInCorrect | src/contexts/LearningContext.tsx:261-264 | one more correct use never lowers the tier |
| LearningContext.TierAntitoneInIncorrect | src/contexts/LearningContext.tsx:261-264 | one more incorrect use never raises the tier |
| LearningContext.TierBoundaries | src/contexts/LearningContext.tsx:261-264 | (20, 0) is mastered, (19, 0) advanced, (20, 3) advanced, (5, 2) intermediate, (4, 0) beginner |
| LearningContext.MoreWrongIsBeginner | src/contexts/LearningContext.tsx:261-264 | more incorrect than correct uses is always beginner |
| LearningContext.FindTopic | src/contexts/LearningContext.tsx:253 | the first mastery record of the topic, or none |
| LearningContext.AfterPractice | src/contexts/LearningContext.tsx:249-295 | a known topic keeps the list length, a new one is appended, and the topics stay in place |
| LearningContext.PracticeCounts | src/contexts/LearningContext.tsx:255-286 | exactly one of the two counters grows by one, chosen by `correct`; an update recomputes the tier from the new counts, a first use is inserted as beginner; other topics are unchanged |
| LearningContext.PracticeKeepsConsistent | src/contexts/LearningContext.tsx:249-295 | each record's tier stays the tier rule's value or the inserted beginner with a single use |
| LearningContext.WeakTopics | src/contexts/LearningContext.tsx:382-384 | a topic is weak exactly when some record of it is beginner with more incorrect than correct uses |
| LearningContext.WeakTopicsAppend | src/contexts/LearningContext.tsx:382-384 | the weak-topic filter keeps list order |
| LearningContext.WeakTopicsConsistent | src/contexts/LearningContext.tsx:382-384 | in a consistent mastery list, the weak topics are exactly those with more incorrect than correct uses |
| LearningContext.PromptOpensWithLevel | src/contexts/LearningContext.tsx:368 | the prompt starts with the level sentence |
| LearningContext.ExplicitPreferenceIgnoresAccuracy | src/contexts/LearningContext.tsx:370-379 | with a preference other than auto, the accuracy has no effect on the prompt |
| LearningContext.AutoAdjustmentBands | src/contexts/LearningContext.tsx:370-376 | on auto, accuracy ≥ 85 adds the performing-well sentence, below 70 the struggling one, otherwise nothing |
| LearningContext.FocusIffWeak | src/contexts/LearningContext.tsx:386-388 | the focus sentence is present exactly when some topic is weak |
| LearningContext.AutoToSimpleExample | src/contexts/LearningContext.tsx:361-379 | at accuracy 95 auto adds the performing-well sentence, simple adds its fixed sentence |
| LearningContext.Candidates | src/contexts/LearningContext.tsx:339-345 | the candidates are exactly the lessons at the level whose first record is not completed or mastered |
| LearningContext.CandidatesAppend | src/contexts/LearningContext.tsx:339-345 | the candidate filter keeps list order |
| LearningContext.SortByNumber | src/contexts/LearningContext.tsx:348 | the sort is a permutation ordered by lesson number |
| LearningContext.Recommended | src/contexts/LearningContext.tsx:337-349 | at most 5 lessons and all of them when fewer, sorted by number, drawn from the candidates, none left out having a smaller number than one kept |
| LearningContext.CompletedNotRecommended | src/contexts/LearningContext.tsx:337-349 | once a lesson is completed with a passing score it is no longer recommended |
| LearningContext.Provider.constructor | src/contexts/LearningContext.tsx:61-175 | starting up: a signed-in profile gives level, accuracy, vocabulary size and preference with their defaults, otherwise A1, 0, 0, auto; the stored lessons when any, otherwise the local lessons; a signed-in learner's stored progress and mastery rows, none otherwise |
| LearningContext.Provider.StartLesson | src/contexts/LearningContext.tsx:178-220 | signed in: the records become `AfterStart` of the old ones and the current lesson is the first lesson with the id, or none; signed out: nothing changes |
| LearningContext.Provider.CompleteLesson | src/contexts/LearningContext.tsx:222-247 | signed in: the records become `AfterComplete` of the old ones; nothing else changes |
| LearningContext.Provider.UpdateGrammarMastery | src/contexts/LearningContext.tsx:249-295 | signed in: the mastery list becomes `AfterPractice` of the old one; nothing else changes |
| LearningContext.Provider.SetComplexityPreference | src/contexts/LearningContext.tsx:318-335 | signed in: the preference is the new one; nothing else changes |
| LearningContext.Provider.AdaptiveDifficultyPrompt | src/contexts/LearningContext.tsx:351-391 | the prompt is built by successive appends and equals `DifficultyPrompt` of the current level, accuracy, preference and mastery list |
| LessonDetail.AfterStageComplete | src/components/lessons/LessonDetail.tsx:171-184 | the stage joins the completed set, and the screen moves to the next stage unless it was the last |
| LessonDetail.AfterSelect | src/components/lessons/LessonDetail.tsx:210-213 | a stage can be opened exactly when it is not after the current one or is completed; otherwise the stage stays; the completed set never changes |
| LessonDetail.AfterPrevious | src/components/lessons/LessonDetail.tsx:215-219 | back one stage unless at the first; the completed set never changes |
| LessonDetail.AfterNext | src/components/lessons/LessonDetail.tsx:221-225 | forward one stage only when the current stage is completed and not the last; the completed set never changes |
| LessonDetail.StepKeepsInOrder | src/components/lessons/LessonDetail.tsx:171-225 | every event the screen allows keeps the completed stages a prefix 1..k with the current stage at most k+1 |
| LessonDetail.RunInOrder | src/components/lessons/LessonDetail.tsx:171-225 | from a fresh attempt, any run of allowed events leaves the completed stages a prefix |
| LessonDetail.ReflectionNeverCompleted | src/components/lessons/LessonDetail.tsx:342-412 | no event completes the reflection stage, so at most four stages are ever completed |
| LessonDetail.SkipRejected | src/components/lessons/LessonDetail.tsx:210-213 | a stage after the current one that is not completed cannot be opened |
| LessonDetail.Restore | src/components/lessons/LessonDetail.tsx:61-67 | without a record nothing is restored; with one, a saved non-zero stage becomes the current stage (otherwise it stays), and a saved stage list replaces the completed set (otherwise it stays) |
| LessonDetail.NothingRestored | src/components/lessons/LessonDetail.tsx:55-68 | since the progress operations never write saved stages, opening a lesson restores nothing |
| LessonDetail.FinalScoreLinear | src/components/lessons/LessonDetail.tsx:193-200 | the final score is 14 per completed stage plus 0.3 per challenge point |
| LessonDetail.FinalScoreExamples | src/components/lessons/LessonDetail.tsx:193 | 3 stages and no challenge give 42; 5 stages give 70; 5 stages and 100 give 100; 4 stages and 100 give 86 |
| LessonDetail.FreshAttemptThresholds | src/components/lessons/LessonDetail.tsx:193 | with at most four stages the lesson is completed only from a challenge score of 47 and mastered only from 114 |
| LessonDetail.ReflectionBadges | src/components/lessons/LessonDetail.tsx:409 | at most one badge, present exactly from a challenge score of 90 |
| LessonDetail.FindNextLesson | src/components/lessons/LessonDetail.tsx:227-233 | a next lesson exists exactly when the lesson is found before the last position, and it is the one right after the first match |
| LessonDetail.NoNextLesson | src/components/lessons/LessonDetail.tsx:229-232 | a lesson not in the list, or found only last, has no next lesson |
| LessonDetail.Attempt.constructor | src/components/lessons/LessonDetail.tsx:49-52 | a fresh attempt: stage 1, nothing completed, challenge score and XP 0 |
| LessonDetail.Attempt.Open | src/components/lessons/LessonDetail.tsx:54-68 | a found lesson without a record or with a not-started record is started; the stage state is restored from the record |
| LessonDetail.Attempt.HandleStageComplete | src/components/lessons/LessonDetail.tsx:171-184 | the stage state becomes `AfterStageComplete` and the XP grows by 50 |
| LessonDetail.Attempt.HandleChallengeComplete | src/components/lessons/LessonDetail.tsx:186-189 | the challenge score is recorded and stage 4 completes |
| LessonDetail.Attempt.HandleLessonFinish | src/components/lessons/LessonDetail.tsx:191-196 | the lesson is completed with the final score of the completed stages and the challenge score |
| LessonDetail.Attempt.HandleNextLesson | src/components/lessons/LessonDetail.tsx:198-208 | the lesson is completed as on finish, then the next lesson opens when a handler is given, else the screen closes |
| LessonDetail.Attempt.CanGoToStage | src/components/lessons/LessonDetail.tsx:210-213 | answers the stage-access rule on the current state |
| LessonDetail.Attempt.SelectStage | src/components/lessons/LessonDetail.tsx:210-213 | the stage state becomes `AfterSelect` |
| LessonDetail.Attempt.GoToPreviousStage | src/components/lessons/LessonDetail.tsx:215-219 | the stage state becomes `AfterPrevious` |
| LessonDetail.Attempt.GoToNextStage | src/components/lessons/LessonDetail.tsx:221-225 | the stage state becomes `AfterNext` |
| ChallengeStage.FinalScoreBounds | src/components/lessons/ChallengeStage.tsx:122-128 | the challenge score is at most 130, and not negative when the quality points are not |
| ChallengeStage.FinalScoreExamples | src/components/lessons/ChallengeStage.tsx:124-126 | 3 exchanges score 70, 4 score 93, 5 score 100, 20 with 30 quality points score 130 |
| ChallengeStage.FinalScoreMonotone | src/components/lessons/ChallengeStage.tsx:124 | more exchanges never lower the score |
| ChallengeStage.Challenge.constructor | src/components/lessons/ChallengeStage.tsx:29-34 | a new challenge has no messages, empty input, is not loading or active, and has counted nothing |
| ChallengeStage.Challenge.Start | src/components/lessons/ChallengeStage.tsx:53-62 | starting activates the challenge and shows the scenario as its only message |
| ChallengeStage.Challenge.SetInput | src/components/lessons/ChallengeStage.tsx:268 | typing changes only the input |
| ChallengeStage.Challenge.Submit | src/components/lessons/ChallengeStage.tsx:64-75 | blank input or a pending reply does nothing; otherwise the trimmed text is posted, the input cleared, loading set and the exchange counted |
| ChallengeStage.Challenge.Settle | src/components/lessons/ChallengeStage.tsx:92-119 | a non-empty reply is posted and its non-zero quality score added; a failure posts the error text; loading ends |
| ChallengeStage.Challenge.Finish | src/components/lessons/ChallengeStage.tsx:122-130 | finishing is offered exactly from three exchanges and reports the final score |
| ChallengeStage.CountSnoc | src/components/lessons/ChallengeStage.tsx:71-74 | appending a message adds one to the user-message count exactly when it is the user's |
| GuidedConversation.ExactPhraseCompletes | src/components/lessons/GuidedConversation.tsx:148-157 | a message containing an expected phrase completes the step |
| GuidedConversation.StepCompleteIgnoresCase | src/components/lessons/GuidedConversation.tsx:153-155 | lower-casing the message does not change whether the step completes |
| GuidedConversation.NoPhraseNoCompletion | src/components/lessons/GuidedConversation.tsx:149-156 | with expected phrases of which none occurs, the step does not complete |
| GuidedConversation.MatchKeepsInOrder | src/components/lessons/GuidedConversation.tsx:112-131 | completing a step keeps the completed steps exactly those before the current one, or all of them at the last step |
| GuidedConversation.AllCompletedIffLast | src/components/lessons/GuidedConversation.tsx:42 | all steps are completed exactly when the last step is current and completed |
| GuidedConversation.Guided.constructor | src/components/lessons/GuidedConversation.tsx:33-54 | step 0, nothing completed, and the first step's opening line as the only message; a script needs at least one step, because the screen renders the current step's prompt |
| GuidedConversation.Guided.SetInput | src/components/lessons/GuidedConversation.tsx:281 | typing changes only the input |
| GuidedConversation.Guided.Submit | src/components/lessons/GuidedConversation.tsx:69-78 | blank input or a pending reply does nothing; otherwise the trimmed text is posted and loading set |
| GuidedConversation.Guided.Settle | src/components/lessons/GuidedConversation.tsx:96-145 | a non-empty reply is posted; a step the text completes is marked and, unless last, the next step opens with its line; a failure posts the error text; loading ends |
| ScenarioIntro.Toggle | src/components/lessons/ScenarioIntro.tsx:44-52 | the phrase's tick flips and no other tick changes |
| ScenarioIntro.ToggleTwice | src/components/lessons/ScenarioIntro.tsx:44-52 | ticking the same phrase twice restores the ticks |
| ScenarioIntro.ToggleCommutes | src/components/lessons/ScenarioIntro.tsx:44-52 | the order of two ticks does not matter |
| ScenarioIntro.AllReviewedIffEvery | src/components/lessons/ScenarioIntro.tsx:54 | the size test on the ticked set means every phrase is ticked |
| ScenarioIntro.Intro.constructor | src/components/lessons/ScenarioIntro.tsx:31 | nothing ticked; the gate is open from the start only without phrases |
| ScenarioIntro.Intro.TogglePhraseCompletion | src/components/lessons/ScenarioIntro.tsx:44-52 | the ticks become `Toggle` of the old ones |
| ScenarioIntro.Intro.Continue | src/components/lessons/ScenarioIntro.tsx:196-198 | the continue button works exactly when every phrase is ticked |
| LessonChat.FirstSeparator | src/components/lessons/LessonChat.tsx:59 | the first character of the split's separator class, with none before it |
| LessonChat.RunEnd | src/components/lessons/LessonChat.tsx:59 | a separator run, matched greedily as the `+` of the pattern does |
| LessonChat.Pieces | src/components/lessons/LessonChat.tsx:58-59 | splitting gives at least one piece and no piece holds a separator |
| LessonChat.LongPieces | src/components/lessons/LessonChat.tsx:60 | the kept pieces are exactly those longer than two characters |
| LessonChat.PiecesOccur | src/components/lessons/LessonChat.tsx:58-59 | every piece of the split occurs in the text |
| LessonChat.TokensSound | src/components/lessons/LessonChat.tsx:58-61 | every token is longer than two characters, holds no separator and occurs in the reply |
| LessonChat.SeparatorsOnlyNoTokens | src/components/lessons/LessonChat.tsx:58-61 | a reply made only of separators yields no token |
| LessonChat.MatchOf | src/components/lessons/LessonChat.tsx:65-67 | the first lesson word whose lower-cased German contains the lower-cased token, and none exactly when no word does |
| LessonChat.Extracted | src/components/lessons/LessonChat.tsx:64-71 | at most one word per token, each a lesson word's German and English |
| LessonChat.ExtractedAppend | src/components/lessons/LessonChat.tsx:64-71 | tokens are looked up one at a time, so extraction distributes over concatenation |
| LessonChat.ExtractedOne | src/components/lessons/LessonChat.tsx:65-70 | one token yields its match, or nothing when none is found |
| LessonChat.ExactTokenMatches | src/components/lessons/LessonChat.tsx:65-70 | a token equal to a lesson word up to case is found, and repeated tokens give repeated words |
| LessonChat.ExtractNewVocabulary | src/components/lessons/LessonChat.tsx:54-74 | the loop returns exactly the extraction of the reply's tokens |
| LessonChat.Dedup | src/components/lessons/LessonChat.tsx:123-125 | the filter keeps a subsequence with distinct German words covering the same German words |
| LessonChat.DedupKeepsFirst | src/components/lessons/LessonChat.tsx:123-125 | the first word with a given German is kept |
| LessonChat.DedupDistinct | src/components/lessons/LessonChat.tsx:123-125 | a list already free of repeats is left as it is |
| LessonChat.DedupIdempotent | src/components/lessons/LessonChat.tsx:123-125 | removing duplicates twice is the same as once |
| LessonChat.DedupKeepsPrefix | src/components/lessons/LessonChat.tsx:120-126 | the earlier detected words stay in front, in order |
| LessonChat.WithoutGerman | src/components/lessons/LessonChat.tsx:151 | removes exactly the words with the added German |
| LessonChat.WithoutGermanAppend | src/components/lessons/LessonChat.tsx:151 | the removal filter distributes over concatenation |
| LessonChat.WithoutGermanKeepsDistinct | src/components/lessons/LessonChat.tsx:151 | removal keeps the list free of repeats |
| LessonChat.DetectedKeepsPrefix | src/components/lessons/LessonChat.tsx:118-127 | after a reply the detected words stay free of repeats and keep the previous ones as prefix |
| LessonChat.MergeKeepsDistinct | src/components/lessons/LessonChat.tsx:120-126 | merging keeps the list free of repeats and the previous words in front |
| LessonChat.Session.constructor | src/components/lessons/LessonChat.tsx:28-44 | the chat opens with the welcome line naming the lesson, empty input and nothing detected |
| LessonChat.Session.SelectPrompt | src/components/lessons/LessonChat.tsx:50-52 | a scenario prompt becomes the input and nothing else changes |
| LessonChat.Session.Submit | src/components/lessons/LessonChat.tsx:76-83 | sends exactly when the trimmed input is non-empty and no reply is pending, posting the untrimmed input and clearing it |
| LessonChat.Session.Settle | src/components/lessons/LessonChat.tsx:107-139 | a reply is posted and its words merged into the detected list; a failure posts the apology; a body without `response` posts an empty message and then the apology, detected words unchanged; loading ends |
| LessonChat.Session.AddDetected | src/components/lessons/LessonChat.tsx:119-127 | an empty extraction leaves the list; otherwise the merge with duplicates removed |
| LessonChat.Session.AddToVocabulary | src/components/lessons/LessonChat.tsx:142-155 | the word goes into the signed-in user's collection at beginner level with the lesson's theme, unless its German is there; the chip is removed |
| FlashcardReview.AfterReview | src/components/vocabulary/FlashcardReview.tsx:42-50 | a review during a pending one changes no counter; otherwise one more reviewed, one more correct when right, and the card is held |
| FlashcardReview.AfterAdvance | src/components/vocabulary/FlashcardReview.tsx:52-56 | the timer moves to the next card face down and releases the hold, counts unchanged |
| FlashcardReview.AfterFlip | src/components/vocabulary/FlashcardReview.tsx:106 | a click flips the card unless a review is pending, and changes nothing else |
| FlashcardReview.OpeningConsistent | src/components/vocabulary/FlashcardReview.tsx:11-15 | the opening counters satisfy the session invariant |
| FlashcardReview.ReviewKeepsConsistent | src/components/vocabulary/FlashcardReview.tsx:42-50 | a review keeps correct ≤ reviewed ≤ index + 1 and the hold bookkeeping |
| FlashcardReview.AdvanceKeepsConsistent | src/components/vocabulary/FlashcardReview.tsx:52-56 | advancing keeps the invariant |
| FlashcardReview.FlipKeepsConsistent | src/components/vocabulary/FlashcardReview.tsx:106 | flipping keeps the invariant |
| FlashcardReview.AnswerOneCard | src/components/vocabulary/FlashcardReview.tsx:42-56 | while the due list stays as it is (the write did not go through), answering a card and letting the timer fire moves on by one card and one review, counting the right answer |
| FlashcardReview.FinishedReviewedAll | src/components/vocabulary/FlashcardReview.tsx:19-26 | while the due list stays as it is, the summary screen comes after exactly one review per due word |
| FlashcardReview.NextCard | src/components/vocabulary/FlashcardReview.tsx:42-56 | an answer and its timer on a list that stays: the next card, one more review, one more correct when right, buttons enabled |
| FlashcardReview.AccuracyBounds | src/components/vocabulary/FlashcardReview.tsx:29 | the summary accuracy lies in 0..100, is 100 when every review was right and 0 when none was |
| FlashcardReview.ProgressPercent | src/components/vocabulary/FlashcardReview.tsx:63 | the bar width is index / count × 100, below 100 while a card is shown |
| FlashcardReview.ProgressIncreases | src/components/vocabulary/FlashcardReview.tsx:63 | the bar grows strictly from card to card within one mounted session |
| FlashcardReview.Open | src/components/vocabulary/VocabularyPage.tsx:43-44 | a mounted session starts at the first card with all counters zero over the store's due words |
| FlashcardReview.AnswerCard | src/components/vocabulary/FlashcardReview.tsx:42-60 | a saved answer reloads the store and the page mounts a new session over the new due list; an answer whose write failed keeps the list and moves to the next card |
| FlashcardReview.SavedReviewLeavesDueList | src/contexts/VocabularyContext.tsx:145-170 | after a saved review the due list is the old one without the reviewed word: one word shorter, order kept, store invariant kept |
| FlashcardReview.SavedAnswerReopens | src/components/vocabulary/VocabularyPage.tsx:35-44 | after a saved answer the page shows a new session at the first card, all counters zero, over a due list one word shorter; its summary is not shown |
| FlashcardReview.SavedRunNeverSummarises | src/components/vocabulary/VocabularyPage.tsx:35-44 | answers that are all saved never show the summary and never count a review; after one answer per due word the page shows the word list |
| FlashcardReview.ThreeSavedAnswersSkipSummary | src/components/vocabulary/FlashcardReview.tsx:19-26 | three due words answered with saved writes end at the word list with no summary and no review counted |
| FlashcardReview.SnapshotReviewsAll | src/components/vocabulary/FlashcardReview.tsx:19-29 | in a session over the list it opened with, one answer per due word reaches the summary with every word reviewed once and the right answers counted |
| FlashcardReview.FailedRunIsSnapshot | src/contexts/VocabularyContext.tsx:156-162 | when no write goes through the page walks its due list exactly as the snapshot session does, and the store is unchanged |
| FlashcardReview.Session.CurrentWord | src/components/vocabulary/FlashcardReview.tsx:17-19 | the card shown is the due word at the index, none past the end |
| FlashcardReview.Session.constructor | src/components/vocabulary/VocabularyPage.tsx:43-44 | mounted only while some word is due: the first card with all counters zero, over the store's due words |
| FlashcardReview.Session.Flip | src/components/vocabulary/FlashcardReview.tsx:106 | the state becomes `AfterFlip` of the old one |
| FlashcardReview.Session.ShowAnswer | src/components/vocabulary/FlashcardReview.tsx:177 | the card is turned face up and nothing else changes |
| FlashcardReview.Session.HandleReview | src/components/vocabulary/FlashcardReview.tsx:42-61 | a click during a pending review changes nothing; a saved review for a signed-in learner updates the word's record and leaves a fresh session over a due list one shorter; otherwise the store is untouched and the counters become `AfterReview` |
| FlashcardReview.Session.Remount | src/components/vocabulary/VocabularyPage.tsx:35-44 | after the reload the session is at the first card with all counters zero over the reloaded due list |
| FlashcardReview.Session.AdvanceCard | src/components/vocabulary/FlashcardReview.tsx:52-56 | the state becomes `AfterAdvance` of the old one |
| FlashcardReview.Session.SummaryAccuracy | src/components/vocabulary/FlashcardReview.tsx:19-29 | a mounted session past its last card shows an accuracy in 0..100, and it counted one review per word of its due list |
| ProgressContext.FindTheme | src/contexts/ProgressContext.tsx:141 | the first row of the theme, and none exactly when no row has it |
| ProgressContext.ThemeStats | src/contexts/ProgressContext.tsx:184-186 | `getThemeStats`: a row of the theme, undefined exactly when there is none |
| ProgressContext.AfterThemeUpdate | src/contexts/ProgressContext.tsx:141-171 | an existing theme row is updated in place; otherwise one row is appended after the old ones |
| ProgressContext.ThemeUpdateStats | src/contexts/ProgressContext.tsx:143-168 | after an update the theme has a row whose counts are the old ones plus one conversation and the session's messages, correct messages and time, or exactly those for a new theme |
| ProgressContext.ThemeUpdateOthers | src/contexts/ProgressContext.tsx:145-168 | the rows of every other theme are unchanged |
| ProgressContext.ThemeUpdateCountsOne | src/contexts/ProgressContext.tsx:148-164 | each update adds exactly one conversation over all themes |
| ProgressContext.Latest | src/contexts/ProgressContext.tsx:64-69 | the history query: the newest `k` conversations, newest first |
| ProgressContext.LatestGrow | src/contexts/ProgressContext.tsx:68-69 | raising the limit by one adds the next older conversation when there is one |
| ProgressContext.SumCons | src/contexts/ProgressContext.tsx:181 | the reduce adds the first conversation's XP to the rest |
| ProgressContext.SaveSlidesTotal | src/contexts/ProgressContext.tsx:180-182 | after a save the total shown gains the new XP and loses that of the conversation pushed out of the newest twenty |
| ProgressContext.LatestAllTotal | src/contexts/ProgressContext.tsx:180-182 | with at most twenty conversations the total shown is the sum over all of them |
| ProgressContext.TotalXpUndercounts | src/contexts/ProgressContext.tsx:63-69 | with more than twenty conversations and positive XP on the oldest, the total shown is below the sum |
| ProgressContext.LatestOfSuffix | src/contexts/ProgressContext.tsx:68-69 | only the newest `k` conversations matter to the query |
| ProgressContext.OlderPositive | src/contexts/ProgressContext.tsx:181 | a list of non-negative XP starting with a positive one sums to more than zero |
| ProgressContext.Provider.constructor | src/contexts/ProgressContext.tsx:40-72 | a signed-in provider loads the rows and the newest twenty conversations; a signed-out one holds nothing |
| ProgressContext.Provider.SaveConversation | src/contexts/ProgressContext.tsx:80-127 | for a signed-in user the conversation is stored, the user's XP raised by its XP when the user row exists, and the history reloaded; otherwise nothing changes |
| ProgressContext.Provider.UpdateThemeProgress | src/contexts/ProgressContext.tsx:129-178 | for a signed-in user the rows become `AfterThemeUpdate`; otherwise nothing changes |
| LessonsPage.LockedLevels | src/components/lessons/LessonsPage.tsx:44-51 | a lesson is locked exactly when its level is two or more above the user's; the user's level and the next are open |
| LessonsPage.LockMonotone | src/components/lessons/LessonsPage.tsx:44-51 | a harder lesson or a lower user level never unlocks a locked lesson |
| LessonsPage.LockExamples | src/components/lessons/LessonsPage.tsx:46-50 | an A1 user sees A1 and A2 open and B1 to C2 locked; nothing is locked from C1 |
| LessonsPage.LessonStatus | src/components/lessons/LessonsPage.tsx:34-42 | not started without a progress row, otherwise the first row's status |
| LessonsPage.StatusAfterStartAndComplete | src/components/lessons/LessonsPage.tsx:38-42 | after starting a lesson it shows in progress, and after completing it the status the score earns |
| LessonsPage.Filtered | src/components/lessons/LessonsPage.tsx:30-32 | `all` keeps every lesson, any other filter exactly the lessons of that level name |
| LessonsPage.FilterAll | src/components/lessons/LessonsPage.tsx:30-31 | the `all` filter returns the list unchanged |
| LessonsPage.FilterLevel | src/components/lessons/LessonsPage.tsx:30-32 | a level button keeps exactly the lessons of that level |
| LessonsPage.AfterLessonClick | src/components/lessons/LessonsPage.tsx:159-166 | clicking a locked card does nothing; an open one selects the lesson |
| LessonsPage.RecommendedNeverLocked | src/components/lessons/LessonsPage.tsx:107-112 | a recommended lesson is never locked, so its card always opens it |
| VocabularyPage.Filtered | src/components/vocabulary/VocabularyPage.tsx:13-17 | the shown words are exactly the collection's words the chosen filter keeps |
| VocabularyPage.FilterAllKeepsAll | src/components/vocabulary/VocabularyPage.tsx:14 | the `all` filter shows the whole collection in order |
| VocabularyPage.DueFilterIsDue | src/components/vocabulary/VocabularyPage.tsx:15 | the `due` filter shows exactly the words whose next review has arrived |
| VocabularyPage.NoDifficultyNotInLevelFilter | src/components/vocabulary/VocabularyPage.tsx:16 | a word without a level is in no level filter, yet is labelled and coloured as beginner |
| VocabularyPage.ProgressColorOf | src/components/vocabulary/VocabularyPage.tsx:19-24 | gray at zero correct answers, yellow at 1-2, light green at 3-4, green from 5 |
| VocabularyPage.ColorMonotone | src/components/vocabulary/VocabularyPage.tsx:19-24 | a review never moves a word to a lower colour |
| VocabularyPage.IncorrectCount | src/components/vocabulary/VocabularyPage.tsx:179 | wrong answers are reviews minus right ones, not negative for a sound record |
| VocabularyPage.BarWidth | src/components/vocabulary/VocabularyPage.tsx:189 | the bar is 20% per correct answer, capped at full from five |
| VocabularyPage.CountsMatchColors | src/components/vocabulary/VocabularyPage.tsx:88-94 | the mastered tile counts the green words, the learning tile the yellow and light green ones |
| VocabularyPage.CountsPartition | src/components/vocabulary/VocabularyPage.tsx:79-94 | mastered, learning and untouched words add up to the total |
| VocabularyPage.MasteredLearningDisjoint | src/components/vocabulary/VocabularyPage.tsx:88-94 | no word is counted as both mastered and learning |
| VocabularyPage.Badge | src/components/vocabulary/VocabularyPage.tsx:26-33 | intermediate and advanced get their own colours, any other text the beginner colour |
| VocabularyPage.BadgeOfLevel | src/components/vocabulary/VocabularyPage.tsx:26-33 | each level gets its own badge colour |
| ProgressPage.TotalTimeMinutes | src/components/progress/ProgressPage.tsx:20-22 | the minutes tile is the floor of all practice seconds over sixty |
| ProgressPage.FloorDivision | src/components/progress/ProgressPage.tsx:20-22 | `Math.floor` of the real quotient is integer division for a positive divisor |
| ProgressPage.SumsOrdered | src/components/progress/ProgressPage.tsx:18-19 | with sound rows the correct total is between zero and the message total |
| ProgressPage.AccuracyBounds | src/components/progress/ProgressPage.tsx:23 | overall and per-theme accuracy lie in 0..100 for sound rows |
| ProgressPage.SingleThemeAccuracy | src/components/progress/ProgressPage.tsx:23 | with one theme the overall accuracy is that theme's |
| ProgressPage.TotalsAfterUpdate | src/components/progress/ProgressPage.tsx:17-22 | after a session update the tiles gain one conversation and the session's messages, correct messages and seconds |
| ProgressPage.AvgTimeMinutes | src/components/progress/ProgressPage.tsx:95 | the average is defined exactly for rows with a conversation |
| ProgressPage.UpdateKeepsCountsPositive | src/components/progress/ProgressPage.tsx:95 | rows written only by updates always have a conversation, so every average is defined |
| ProgressPage.JsRemainder | src/components/progress/ProgressPage.tsx:184 | JavaScript's `%`: the Euclidean remainder for non-negative operands, and below the divisor in size |
| ProgressPage.DurationRecombines | src/components/progress/ProgressPage.tsx:184 | the minutes and seconds shown for a duration give it back, seconds below sixty |
| ProgressPage.FindThemeInfo | src/components/progress/ProgressPage.tsx:26-31 | the first theme with the id, none exactly when there is none |
| ProgressPage.ThemeName | src/components/progress/ProgressPage.tsx:25-28 | a known theme's name, else the id itself |
| ProgressPage.ThemeIcon | src/components/progress/ProgressPage.tsx:30-33 | a known theme's icon, else the fallback books emoji |
| ProgressPage.Utf8Four | src/components/progress/ProgressPage.tsx:32 | the four UTF-8 bytes of a supplementary code point |
| ProgressPage.FallbackIconMisdecoded | src/components/progress/ProgressPage.tsx:32 | the fallback as written is the four bytes of U+1F4DA read as Windows-1252, four characters and not the emoji |
| ProgressPage.FallbackIconIsOneEmoji | src/components/progress/ProgressPage.tsx:32 | the corrected fallback is the single character U+1F4DA whose misdecoding gives the text as written |
| AchievementsPage.MasteredLessons | src/components/achievements/AchievementsPage.tsx:11 | the mastered count is at most the number of progress rows |
| AchievementsPage.MasteredLessonsPositive | src/components/achievements/AchievementsPage.tsx:11 | the mastered count is positive exactly when some row is mastered |
| AchievementsPage.EarnedBadges | src/components/achievements/AchievementsPage.tsx:13-20 | the filter's test ignores the badge: every badge once any lesson is completed or mastered, none before |
| AchievementsPage.BadgesAllOrNothing | src/components/achievements/AchievementsPage.tsx:14-20 | a badge is shown earned exactly when some lesson is done, and the count is the whole collection or zero |
| AchievementsPage.PassingEarnsAll | src/components/achievements/AchievementsPage.tsx:14-20 | completing a lesson of the list with 70 or more earns every badge |
| AchievementsPage.StreakXp | src/components/achievements/AchievementsPage.tsx:22-23 | the streak XP is ten per day |
| AchievementsPage.FixedStreakPanel | src/components/achievements/AchievementsPage.tsx:99-114 | with the fixed seven-day streak: 70 XP, all seven days lit and the fire-week banner |
| AchievementsPage.RungOf | src/components/achievements/AchievementsPage.tsx:199-215 | a rung below the user's level is done, the user's own is current, one above is locked |
| AchievementsPage.LevelOrderIndex | src/components/achievements/AchievementsPage.tsx:199 | the ladder lists the levels in their order |
| AchievementsPage.NameAgreesWithIndex | src/components/achievements/AchievementsPage.tsx:200-201 | comparing level text picks the same rung as comparing indices |
| AchievementsPage.ExactlyOneRung | src/components/achievements/AchievementsPage.tsx:200-202 | exactly one of completed, current and locked holds on every rung |
| AchievementsPage.OneCurrentRung | src/components/achievements/AchievementsPage.tsx:201 | the ladder has exactly one current rung, the user's level |
| AchievementsPage.BarFill | src/components/achievements/AchievementsPage.tsx:227-232 | the bar is full, three quarters or empty, and empty exactly on a locked rung |
| LessonCompletionModal.BandsNest | src/components/lessons/LessonCompletionModal.tsx:49-51 | mastered implies completed implies passed |
| LessonCompletionModal.GradeOf | src/components/lessons/LessonCompletionModal.tsx:53-58 | mastered from 90, completed from 70, passed from 50, try again below |
| LessonCompletionModal.GradeMonotone | src/components/lessons/LessonCompletionModal.tsx:53-58 | a higher score never shows a lower grade |
| LessonCompletionModal.GradeAgreesWithStatus | src/components/lessons/LessonCompletionModal.tsx:53-58 | the modal's grade matches the status recorded for the same score; passed and try again both leave the lesson in progress |
| LessonCompletionModal.Encouragement | src/components/lessons/LessonCompletionModal.tsx:155-160 | of the four guarded lines exactly one shows, the grade's own |
| LessonCompletionModal.Buttons | src/components/lessons/LessonCompletionModal.tsx:164-188 | a failing score offers only Try Again, a passing one Review Lesson and Next Lesson |
| LessonCompletionModal.TopIconOf | src/components/lessons/LessonCompletionModal.tsx:88-94 | trophy when mastered, star when completed, award otherwise |
| LessonCompletionModal.View | src/components/lessons/LessonCompletionModal.tsx:47-188 | nothing while closed; otherwise the grade, the rounded score, the XP, the badge, the one encouragement line, the buttons and confetti exactly for a passing score |
| ReflectionStage.Band | src/components/lessons/ReflectionStage.tsx:63-75 | the score band: from 90, from 75, from 60, below 60 |
| ReflectionStage.EmojiAndMessageAgree | src/components/lessons/ReflectionStage.tsx:63-75 | the emoji and the headline shown are the pair of the score's band |
| ReflectionStage.EmojiDeterminesMessage | src/components/lessons/ReflectionStage.tsx:63-75 | two scores with the same emoji get the same headline |
| ReflectionStage.BandMonotone | src/components/lessons/ReflectionStage.tsx:63-75 | a higher score never falls in a lower band |
| ReflectionStage.ShownPhrases | src/components/lessons/ReflectionStage.tsx:177 | the first five phrases, or all when fewer |
| ReflectionStage.ShownPhrasesIdempotent | src/components/lessons/ReflectionStage.tsx:177 | cutting the list again changes nothing |
| ReflectionStage.BadgeRowWithTrophy | src/components/lessons/ReflectionStage.tsx:142 | with the badges the lesson screen passes, the badge row shows exactly alongside the trophy |
| ReflectionStage.Actions | src/components/lessons/ReflectionStage.tsx:242-256 | Next Lesson to `/lessons/<id>` exactly for a present, non-empty next id, and Back to Dashboard always last |
| ReflectionStage.LastLessonHasNoNext | src/components/lessons/ReflectionStage.tsx:242 | after the last lesson of the list only Back to Dashboard is offered |
| App.Turns | src/App.tsx:59-69 | the conversation history holds each posted message's role and text, in order |
| App.TurnsAppend | src/App.tsx:67-68 | posting a message extends the history by exactly that turn |
| App.UserCount | src/App.tsx:179 | the user messages are at most all messages |
| App.ExplainedCount | src/App.tsx:180 | the corrections with an explanation are at most all corrections |
| App.CorrectCount | src/App.tsx:180 | correct messages plus explained corrections make the user messages |
| App.SessionAccuracy | src/App.tsx:181 | zero without user messages, otherwise the share of correct messages in percent |
| App.SessionXp | src/App.tsx:183 | exactly the larger of 10 and the floor of five per user message plus a tenth of the accuracy |
| App.SessionScoreBounds | src/App.tsx:179-183 | with no more explained corrections than user messages the accuracy is in 0..100 and the XP in 10..5n+10 |
| App.FlawlessSession | src/App.tsx:180-183 | a session without explained corrections scores 100 and 5n+10 XP |
| App.MoreCorrectionsThanMessages | src/App.tsx:180-183 | one user message with two explained corrections scores -100 and the minimum 10 XP |
| App.DurationSeconds | src/App.tsx:182 | the floor of the elapsed milliseconds in seconds |
| App.SessionRecord | src/App.tsx:179-193 | the saved conversation carries the theme, the duration, the session accuracy and the `SessionXp` of the message count and that accuracy, at least 10 |
| App.SessionStats | src/App.tsx:195-199 | the theme update carries the user messages, the correct ones and the duration |
| App.MoodAfter | src/App.tsx:115-119 | celebrating for a reply without errors, encouraging for one with errors |
| App.Posting | src/App.tsx:59-67 | posting appends one message and changes nothing else in the conversation |
| App.Replied | src/App.tsx:109-119 | a reply replaces the corrections, errors flag, tips and reinforcement and sets the mood |
| App.Asked | src/App.tsx:82-88 | the user's text is appended, the character thinks, and the previous reply's feedback stays |
| App.SavedMidTurn | src/App.tsx:86-193 | a conversation saved while its reply is pending counts the unanswered message and scores it with the previous reply's corrections |
| App.LateReplyLands | src/App.tsx:109-126 | a reply that settles late replaces the feedback of the conversation then on screen and appends its text to it |
| App.LateReplyAfterReset | src/App.tsx:106-216 | a reply settling after a reset is the cleared conversation's only message |
| App.TranscriptionPosts | src/App.tsx:82-134 | a transcription posts the user's text, then the assistant's answer with its audio only when speech succeeded |
| App.TranscriptionMood | src/App.tsx:109-138 | the mood follows the reply when it is answered and returns to happy on any failure; a failed request keeps the last feedback |
| App.LastReplyCorrectionsOnly | src/App.tsx:109 | the corrections counted are those of the last reply alone |
| App.Shell.constructor | src/App.tsx:26-37 | the practice page, no theme, empty conversation, happy mood, and the start time now |
| App.Shell.AddMessage | src/App.tsx:59-69 | the conversation becomes `Posting` of the old one and the history gains the turn |
| App.Shell.SelectTheme | src/App.tsx:41-80 | the theme is selected, the clock restarted, the feedback cleared and the chosen greeting is the only message |
| App.Shell.ApplyReply | src/App.tsx:109-119 | the conversation becomes `Replied` of the old one |
| App.Shell.HandleTranscription | src/App.tsx:82-88 | without a theme nothing changes; otherwise the conversation becomes `Asked` of the old one and processing starts |
| App.Shell.Conclude | src/App.tsx:106-141 | the conversation on screen when the request settles becomes `Concluded` of it, and processing ends |
| App.Shell.MoodTimerFires | src/App.tsx:132-134 | the timer sets the mood back to happy; the rest of the conversation, the theme, the page, the clock and the processing flag stay |
| App.Shell.ResetConversation | src/App.tsx:176-216 | a signed-in user with a theme and messages saves the record, raises the total XP by its `xpEarned` when a total is loaded, and adds the theme stats; otherwise the progress is untouched; the clock stays; the conversation is cleared and the practice page shown |
| App.Shell.Save | src/App.tsx:186-199 | the record is appended, the total XP raised by its `xpEarned` when loaded, and the theme stats added |
| App.Shell.Clear | src/App.tsx:205-212 | the theme, conversation, history and feedback are cleared, the mood is happy and the practice page shown; the clock and flags stay |

## Where the code decides

The model follows the code where it differs from how the app's own documentation describes its
behaviour:

- **The reflection stage is never completed.** The reflection stage's finish button calls the
  lesson-finish handler directly, so stage 5 never joins the completed set. A fresh attempt
  therefore scores at most 56 from stages. Completing a lesson needs a challenge score of at least
  47, and mastering it needs at least 114. See `LessonDetail.ReflectionNeverCompleted` and
  `LessonDetail.FreshAttemptThresholds`.
- **No exchange cap.** `MAX_MESSAGES` in the challenge stage is declared and never read, so the
  number of exchanges is unbounded.
- **A completion can lower the status.** `completeLesson` overwrites the status from the latest
  score, so a worse second attempt lowers the status, and an in-progress result clears the
  completion time.
- **Saved stages are never restored.** Neither progress operation writes the saved stage fields,
  so opening a lesson never restores stages (`LessonDetail.NothingRestored`).
- **The session score uses only the last reply.** The practice session's score counts the
  corrections of the last reply only, because each reply replaces the list. The correct count can
  therefore go negative (`App.LastReplyCorrectionsOnly`, `App.MoreCorrectionsThanMessages`).
- **Badges are all or nothing.** The achievements badge filter ignores the badge it tests, so
  either every badge is earned or none is.
- **Next Lesson skips completion.** The reflection stage's Next Lesson button asks the router
  for `/lessons/<id>` and does not call the `onNextLesson` handler the lesson screen passes. That
  handler is not among the props the stage declares, so on this path the lesson is not completed.
- **The completion modal is unused.** No component renders the lesson completion modal. It is
  modelled from its own props.
- **The lesson screens are not mounted.** The entry point `src/main.tsx:9-18` mounts only the
  auth, progress and vocabulary providers around `App`. No learning provider and no router are
  mounted. So `useLearning` (`src/contexts/LearningContext.tsx:418-421`) throws in the lessons
  page, the lesson screen, the guided conversation, the lesson chat, the challenge stage and the
  achievements page, and the reflection stage's `useNavigate` (`ReflectionStage.tsx:38`) has no
  router. This is read from the source and not executed; the auth provider is not part of this
  model. The `LearningContext`, `LessonsPage`, `LessonDetail`, `GuidedConversation`,
  `LessonChat`, `ChallengeStage`, `ReflectionStage` and `AchievementsPage` modules describe those
  screens as they would behave once the provider and a router are mounted.
- **Lesson chat replies are always the apology.** The lesson chat sends `message`,
  `conversationHistory` and `systemPrompt` only (`LessonChat.tsx:100-104`). Without a guided or
  challenge flag, the conversation service takes its practice path and answers 400 when no theme
  is given (`api/conversation.ts:120-121`), so the chat throws (`LessonChat.tsx:107`) and posts
  its apology (`LessonChat.tsx:128-136`). This is read from the source and not executed; the service is not part
  of this model, and `LessonChat.Session.Settle` takes the reply as a parameter.
- **A practice turn can be interrupted.** While the practice screen waits for the conversation
  service only the recorder is disabled; Change Theme stays enabled. A reset in between saves a
  conversation whose last user message has no reply, scored with the previous reply's
  corrections (`App.SavedMidTurn`). The late reply then lands in the conversation on screen: in
  the cleared one it is the only message (`App.LateReplyLands`, `App.LateReplyAfterReset`). The
  handler is therefore modelled as two steps, `App.Shell.HandleTranscription` and
  `App.Shell.Conclude`.

## Left out

- **Persistence.** Supabase queries, their errors and the refresh round trips are left out. A
  write that succeeds is modelled by its effect on the rows. A failed write is swallowed by the
  source's `catch`; only the flashcard session models it (the `saved` parameter of
  `FlashcardReview.Session.HandleReview`), because there it decides what the page shows. The
  `loading` flags are left out, except that the vocabulary page's spinner unmounts the flashcard
  session, which `FlashcardReview.Session.Remount` models.
- **Sign-in.** Authentication is a constant `signedIn` per provider and per screen. Sign-in, the
  profile row and the auth modals are not part of this model.
- **The conversation service.** The `/api/conversation`, `/api/transcribe` and `/api/speak`
  services are not part of this model. Their answers are operation parameters (`Reply`,
  `Outcome`). The prompt text sent to them is left out.
  `LessonChat.Reply` also has `NoResponse`, a body without `response`; the `undefined` content
  it posts is modelled as the empty string.
- **Audio and speech.** Audio playback, `isSpeaking` and speech recognition are left out. A
  failure of speech synthesis is the `SpeechFailed` outcome.
- **Timers.** A delayed update is modelled as its own step:
  - the flashcard 500 ms advance is `FlashcardReview.Session.AdvanceCard`;
  - the guided step's delayed line is applied at once;
  - the 3 s mood reset is `App.Shell.MoodTimerFires`.
- **Animations.** The reflection stage's XP count-up interval, the confetti and the modal's
  animation flags are presentation only. `LessonCompletionModal.View` takes the flags as already
  set.
- **Dates.** Times are integer milliseconds. ISO date strings and locale formatting are left out,
  and the message ids and timestamps built from `Date.now()` are not modelled.
- **Lesson content fallbacks.** The lesson screen fills in default scenario texts, phrases,
  dialogue and scripts when a lesson row lacks them (src/components/lessons/LessonDetail.tsx:87-129).
  The stage components take their content as parameters, so these default texts are not modelled.
- **Homework.** `submitHomework` in the learning context only inserts a row and reloads, so it is
  left out with the rest of persistence.
- **Flashcard due list.** The new session the vocabulary page mounts after a reload is modelled
  as the same `FlashcardReview.Session` object reset (`Remount`). The due list is evaluated at the
  instant of the answer, so a word whose review date passes while a session runs is not modelled.
  A reload whose query fails after a saved write (the page then keeps the stale rows) is not
  modelled either.
- FlashcardReview.AnswerOneCard: holds only while the due list stays as it is, that is when the
  write did not go through; after a saved review the page mounts a new session instead
  (`FlashcardReview.SavedAnswerReopens`).
- FlashcardReview.FinishedReviewedAll: the same restriction; with saved writes the summary is
  never shown (`FlashcardReview.SavedRunNeverSummarises`, see Findings).
- **Navigation and the theme catalogue.** The page navigation buttons and the theme catalogue are
  presentation and static data. The catalogue is a parameter of `ProgressPage.ThemeName` and
  `ProgressPage.ThemeIcon`.
- **History accuracy display.** The per-conversation accuracy in the progress page's history
  list is `Math.round` of a stored number. It is display only and is not modelled.
- VocabularyContext.AfterAdd: the duplicate test lower-cases only ASCII and the Latin-1
  capitals, which include the German umlauts. JavaScript's full Unicode case mapping is not
  modelled, for example `ẞ` → `ß`.
- LessonChat.MatchOf: the same lower-casing limit applies to the vocabulary match.
- GuidedConversation.ExactPhraseCompletes: the same lower-casing limit applies to the step
  matcher.
- LessonChat.LongPieces: it counts characters, while JavaScript's `length` counts UTF-16 code
  units. The two differ only for characters outside the Basic Multilingual Plane.
- LessonDetail.FinalScoreLinear: it computes on exact reals, not IEEE doubles, as do the other
  score and accuracy members. Rounding that differs in the last binary digit is not modelled.

## Findings

| source | as written | input that shows it | evidently intended | confidence | as-written member | corrected member |
|---|---|---|---|---|---|---|
| src/components/progress/ProgressPage.tsx:32 | the fallback icon literal is four characters, the UTF-8 bytes of 📚 read as Windows-1252 | an unknown theme id | the single character 📚 (U+1F4DA) | not executed | ProgressPage.FallbackIconMisdecoded | ProgressPage.FallbackIconIsOneEmoji |
| src/components/vocabulary/VocabularyPage.tsx:35-44 | a saved review reloads the words; the page's spinner unmounts the flashcard session and mounts a new one at the first card with zero counts over the remaining due words | three due words, each answered with a write that goes through | the session walks the due list it opened with and ends with "You've reviewed all 3 words" and the accuracy | not executed | FlashcardReview.SavedRunNeverSummarises | FlashcardReview.SnapshotReviewsAll |

The same Windows-1252 misreading of UTF-8 appears in two display literals of the lesson screen,
which are not modelled: `LessonDetail.tsx:298` shows "âœ“" for ✓ and `LessonDetail.tsx:383`
shows "ðŸš€" for 🚀. This is read from the bytes of the source and not executed.
