/** The practice screen of the application shell: the message list and the history sent to the
    conversation service, theme selection, one spoken turn, and the end of a conversation, which
    scores the session and saves it. */
module App {
  import opened Optional
  import opened Chat
  import Seqs
  import JsMath
  import P = ProgressContext

  /** A message on screen; the history sent with each request keeps only its role and text. */
  datatype Posted = Posted(role: Role, content: string, audioUrl: Option<string>)

  datatype Correction = Correction(text: string, kind: string, explanation: Option<string>)
  datatype Tip = Tip(id: string, content: string)
  datatype Theme = Theme(id: string, name: string)

  datatype Mood = Happy | Thinking | Celebrating | Encouraging
  datatype Page = Practice | Lessons | Vocabulary | Progress | Achievements

  /** What the conversation service answered, with its optional fields already defaulted. */
  datatype ReplyData = ReplyData(response: string, corrections: seq<Correction>, hasErrors: bool,
                                 tips: seq<Tip>, reinforcement: string)

  /** How one spoken turn ends: the conversation request fails, the reply arrives but speech
      synthesis fails, or both succeed and the audio gets a URL. */
  datatype Outcome = RequestFailed | SpeechFailed(data: ReplyData) | Answered(data: ReplyData, audioUrl: string)

  const Greetings: seq<string> := [
    "Hallo! Ich freue mich, mit dir zu \U{FC}ben. Wie geht es dir?",
    "Guten Tag! Lass uns zusammen Deutsch \U{FC}ben!",
    "Hey! Sch\U{F6}n, dass du da bist. Sollen wir anfangen?",
    "Hallo! Bereit f\U{FC}r ein Gespr\U{E4}ch auf Deutsch?"
  ]

  function TurnOf(m: Posted): Message {
    Message(m.role, m.content)
  }

  /** The role and text of every message, in order. */
  function Turns(ms: seq<Posted>): (r: seq<Message>)
    ensures |r| == |ms|
    ensures forall i :: 0 <= i < |ms| ==> r[i] == TurnOf(ms[i])
  {
    if ms == [] then [] else Turns(ms[..|ms| - 1]) + [TurnOf(ms[|ms| - 1])]
  }

  lemma TurnsAppend(ms: seq<Posted>, m: Posted)
    ensures Turns(ms + [m]) == Turns(ms) + [TurnOf(m)]
  {
    assert (ms + [m])[..|ms|] == ms;
  }

  // ---------------------------------------------------------------------------------------
  // Scoring a conversation

  predicate IsUserPost(m: Posted) {
    m.role == User
  }

  /** `c.explanation` is truthy: present and not the empty string. */
  predicate Explained(c: Correction) {
    c.explanation.Some? && c.explanation.value != ""
  }

  function UserCount(ms: seq<Posted>): (n: nat)
    ensures n <= |ms|
  {
    Seqs.Count(ms, IsUserPost)
  }

  function ExplainedCount(cs: seq<Correction>): (n: nat)
    ensures n <= |cs|
  {
    Seqs.Count(cs, Explained)
  }

  /** `correctMessages`: the user's messages less the corrections that carry an explanation. */
  function CorrectCount(ms: seq<Posted>, cs: seq<Correction>): (n: int)
    ensures n + ExplainedCount(cs) == UserCount(ms)
  {
    UserCount(ms) - ExplainedCount(cs)
  }

  /** The session accuracy in percent; 0 without user messages. */
  function SessionAccuracy(userCount: nat, correct: int): (a: real)
    ensures userCount == 0 ==> a == 0.0
    ensures userCount > 0 ==> a * userCount as real == 100.0 * correct as real
  {
    if userCount > 0 then (correct as real / userCount as real) * 100.0 else 0.0
  }

  /** The XP for a conversation: five per user message plus a tenth of the accuracy, rounded
      down, and never less than 10. */
  function SessionXp(userCount: nat, accuracy: real): (xp: int)
    ensures xp >= 10
    ensures xp == 10 || xp as real <= 5.0 * userCount as real + accuracy / 10.0 < xp as real + 1.0
    ensures 5.0 * userCount as real + accuracy / 10.0 < xp as real + 1.0
  {
    JsMath.MaxInt(10, JsMath.Floor(userCount as real * 5.0 + accuracy / 10.0))
  }

  /** When every correction is for one of the user's messages, the accuracy is a percentage and
      the XP lies between 10 and ten more than five per message. */
  lemma SessionScoreBounds(userCount: nat, explained: nat)
    requires explained <= userCount
    ensures 0.0 <= SessionAccuracy(userCount, userCount - explained) <= 100.0
    ensures 10 <= SessionXp(userCount, SessionAccuracy(userCount, userCount - explained)) <= 5 * userCount + 10
  {
    if userCount > 0 {
      var q := (userCount - explained) as real / userCount as real;
      assert q * userCount as real == (userCount - explained) as real;
      assert 0.0 <= q <= 1.0;
    }
  }

  /** A conversation without any explained correction scores 100 and earns five XP per user
      message plus ten. */
  lemma FlawlessSession(userCount: nat)
    requires userCount > 0
    ensures SessionAccuracy(userCount, userCount) == 100.0
    ensures SessionXp(userCount, 100.0) == 5 * userCount + 10
  {
    assert userCount as real / userCount as real == 1.0;
  }

  /** The corrections kept when a conversation ends are only those of the last reply, so they
      can outnumber the user's messages: one message and two explained corrections score -100
      and the XP falls back to 10. */
  lemma MoreCorrectionsThanMessages()
    ensures SessionAccuracy(1, 1 - 2) == -100.0
    ensures SessionXp(1, SessionAccuracy(1, 1 - 2)) == 10
  {
  }

  /** `Math.floor((now - start) / 1000)`: whole seconds since the conversation began. */
  function DurationSeconds(start: int, now: int): (d: int)
    ensures 1000 * d <= now - start < 1000 * d + 1000
  {
    JsMath.Floor((now - start) as real / 1000.0)
  }

  /** Stats are saved only for a signed-in user with a theme and at least one message. */
  predicate SavesStats(signedIn: bool, theme: Option<Theme>, ms: seq<Posted>) {
    signedIn && theme.Some? && |ms| > 0
  }

  /** The conversation record sent to `saveConversation`. */
  function SessionRecord(themeId: string, ms: seq<Posted>, cs: seq<Correction>, start: int, now: int): (c: P.Conversation)
    ensures c.themeId == themeId && c.durationSeconds == DurationSeconds(start, now)
    ensures c.accuracyScore == SessionAccuracy(UserCount(ms), CorrectCount(ms, cs))
    ensures c.xpEarned == SessionXp(UserCount(ms), c.accuracyScore) && c.xpEarned >= 10
  {
    var acc := SessionAccuracy(UserCount(ms), CorrectCount(ms, cs));
    P.Conversation(themeId, DurationSeconds(start, now), acc, SessionXp(UserCount(ms), acc))
  }

  /** The counts sent to `updateThemeProgress`. */
  function SessionStats(ms: seq<Posted>, cs: seq<Correction>, start: int, now: int): (s: P.Stats)
    ensures s.messagesCount == UserCount(ms) && s.messagesCount - s.correctCount == ExplainedCount(cs)
    ensures s.timeSeconds == DurationSeconds(start, now)
  {
    P.Stats(UserCount(ms), CorrectCount(ms, cs), DurationSeconds(start, now))
  }

  /** The mood a reply sets: celebrating without errors, encouraging with them. */
  function MoodAfter(hasErrors: bool): (m: Mood)
    ensures m == Celebrating <==> !hasErrors
    ensures m == Encouraging <==> hasErrors
  {
    if !hasErrors then Celebrating else Encouraging
  }

  // ---------------------------------------------------------------------------------------
  // One spoken turn

  /** The part of the screen a spoken turn changes. */
  datatype Talk = Talk(messages: seq<Posted>, corrections: seq<Correction>, hasErrors: bool,
                       mood: Mood, tips: seq<Tip>, reinforcement: string)

  function Posting(t: Talk, role: Role, content: string, audioUrl: Option<string>): (r: Talk)
    ensures r.messages == t.messages + [Posted(role, content, audioUrl)]
    ensures r.(messages := t.messages) == t
  {
    t.(messages := t.messages + [Posted(role, content, audioUrl)])
  }

  /** A reply's feedback replaces the previous one and sets the mood from its errors. */
  function Replied(t: Talk, d: ReplyData): (r: Talk)
    ensures r.messages == t.messages && r.mood == MoodAfter(d.hasErrors)
    ensures r.corrections == d.corrections && r.hasErrors == d.hasErrors && r.tips == d.tips
    ensures r.reinforcement == d.reinforcement
  {
    Talk(t.messages, d.corrections, d.hasErrors, MoodAfter(d.hasErrors), d.tips, d.reinforcement)
  }

  /** The start of a spoken turn, before the first `await`: the text is posted and the
      character thinks; the previous reply's feedback stays. */
  function Asked(t: Talk, text: string): (r: Talk)
    ensures r.messages == t.messages + [Posted(User, text, None)] && r.mood == Thinking
    ensures r.corrections == t.corrections && r.hasErrors == t.hasErrors
    ensures r.tips == t.tips && r.reinforcement == t.reinforcement
  {
    Posting(t, User, text, None).(mood := Thinking)
  }

  /** The end of a turn, applied to the conversation on screen when the request settles: by how
      the request ends, the mood goes back to happy, or the feedback is applied and the mood
      reset, or the feedback is applied and the spoken reply posted. */
  function Concluded(t: Talk, outcome: Outcome): Talk {
    match outcome
    case RequestFailed => t.(mood := Happy)
    case SpeechFailed(d) => Replied(t, d).(mood := Happy)
    case Answered(d, url) => Posting(Replied(t, d), Assistant, d.response, Some(url))
  }

  /** A spoken turn with a theme selected and nothing else happening until it settles. */
  function AfterTranscription(t: Talk, text: string, outcome: Outcome): Talk {
    Concluded(Asked(t, text), outcome)
  }

  /** A conversation saved while a reply is pending (the theme can be changed during the
      request) counts the unanswered user message, and scores it with the previous reply's
      corrections. */
  lemma SavedMidTurn(t: Talk, text: string, themeId: string, start: int, now: int)
    ensures var a := Asked(t, text);
      UserCount(a.messages) == UserCount(t.messages) + 1
      && a.messages[|a.messages| - 1] == Posted(User, text, None)
      && SessionRecord(themeId, a.messages, a.corrections, start, now).accuracyScore
         == SessionAccuracy(UserCount(t.messages) + 1, UserCount(t.messages) + 1 - ExplainedCount(t.corrections))
  {
    var a := Asked(t, text);
    assert a.messages[..|a.messages| - 1] == t.messages;
  }

  /** A reply that settles after the conversation was cleared, or a new theme chosen, lands in
      the conversation now on screen: its feedback replaces that conversation's and its text is
      appended to it. */
  lemma LateReplyLands(t: Talk, d: ReplyData, url: string)
    ensures var r := Concluded(t, Answered(d, url));
      r.messages == t.messages + [Posted(Assistant, d.response, Some(url))]
      && r.corrections == d.corrections && r.tips == d.tips
  {
  }

  /** After a reset the late reply is the cleared conversation's only message: an answer with no
      question before it. */
  lemma LateReplyAfterReset(d: ReplyData, url: string, hasErrors: bool)
    ensures Concluded(Talk([], [], hasErrors, Happy, [], ""), Answered(d, url)).messages
            == [Posted(Assistant, d.response, Some(url))]
  {
  }

  /** The user's text is always posted first; only a spoken reply adds a second message, the
      assistant's, carrying the reply text and its audio. */
  lemma TranscriptionPosts(t: Talk, text: string, outcome: Outcome)
    ensures var r := AfterTranscription(t, text, outcome);
      |r.messages| == |t.messages| + (if outcome.Answered? then 2 else 1)
      && r.messages[..|t.messages| + 1] == t.messages + [Posted(User, text, None)]
      && (outcome.Answered? ==>
            r.messages[|t.messages| + 1] == Posted(Assistant, outcome.data.response, Some(outcome.audioUrl)))
  {
    var r := AfterTranscription(t, text, outcome);
    if outcome.Answered? {
      assert r.messages == t.messages + [Posted(User, text, None)]
                           + [Posted(Assistant, outcome.data.response, Some(outcome.audioUrl))];
    }
  }

  /** After a turn the character celebrates or encourages only when the reply was spoken;
      every failure leaves it happy. A failed request keeps the previous feedback. */
  lemma TranscriptionMood(t: Talk, text: string, outcome: Outcome)
    ensures var r := AfterTranscription(t, text, outcome);
      (outcome.Answered? ==> r.mood == MoodAfter(outcome.data.hasErrors))
      && (!outcome.Answered? ==> r.mood == Happy)
      && (outcome.RequestFailed? ==> r.corrections == t.corrections && r.tips == t.tips
                                     && r.hasErrors == t.hasErrors && r.reinforcement == t.reinforcement)
      && (!outcome.RequestFailed? ==> r.corrections == outcome.data.corrections)
  {
  }

  /** The conversation's score sees only the feedback of the last reply: a later turn replaces
      the corrections of every earlier one. */
  lemma LastReplyCorrectionsOnly(t: Talk, text1: string, o1: Outcome, text2: string, d: ReplyData, url: string)
    ensures AfterTranscription(AfterTranscription(t, text1, o1), text2, Answered(d, url)).corrections
            == d.corrections
  {
  }

  // ---------------------------------------------------------------------------------------
  // The screen

  class Shell {
    /** Whether a user is signed in. */
    const signedIn: bool
    var page: Page
    var selectedTheme: Option<Theme>
    var messages: seq<Posted>
    var corrections: seq<Correction>
    var hasErrors: bool
    var mood: Mood
    var isProcessing: bool
    var tips: seq<Tip>
    var reinforcement: string
    var startTime: int
    /** The conversation history sent with each request. */
    var history: seq<Message>

    /** The history always mirrors the message list. */
    ghost predicate Valid()
      reads this
    {
      history == Turns(messages)
    }

    constructor (signedIn: bool, now: int)
      ensures Valid() && this.signedIn == signedIn
      ensures page == Practice && selectedTheme.None? && messages == [] && corrections == []
      ensures !hasErrors && mood == Happy && !isProcessing && tips == [] && reinforcement == ""
      ensures startTime == now
    {
      this.signedIn := signedIn;
      page := Practice;
      selectedTheme := None;
      messages := [];
      corrections := [];
      hasErrors := false;
      mood := Happy;
      isProcessing := false;
      tips := [];
      reinforcement := "";
      startTime := now;
      history := [];
    }

    function Talking(): Talk
      reads this
    {
      Talk(messages, corrections, hasErrors, mood, tips, reinforcement)
    }

    /** `addMessage`: the same role and text go to the message list and to the history. */
    method AddMessage(role: Role, content: string, audioUrl: Option<string>)
      requires Valid()
      modifies this
      ensures Valid()
      ensures Talking() == Posting(old(Talking()), role, content, audioUrl)
      ensures messages == old(messages) + [Posted(role, content, audioUrl)]
      ensures history == old(history) + [Message(role, content)]
      ensures page == old(page) && selectedTheme == old(selectedTheme)
      ensures isProcessing == old(isProcessing) && startTime == old(startTime)
    {
      TurnsAppend(messages, Posted(role, content, audioUrl));
      messages := messages + [Posted(role, content, audioUrl)];
      history := history + [Message(role, content)];
    }

    /** `handleThemeSelect`, followed by the greeting effect: everything from the last
        conversation is cleared, the mood is happy, the clock restarts, and the message list,
        now empty, gets `greeting`, one of the four greetings (the random draw picks which). */
    method SelectTheme(theme: Theme, now: int, greeting: string)
      requires Valid() && greeting in Greetings
      modifies this
      ensures Valid()
      ensures selectedTheme == Some(theme) && startTime == now && mood == Happy
      ensures messages == [Posted(Assistant, greeting, None)]
      ensures history == [Message(Assistant, greeting)]
      ensures corrections == [] && tips == [] && reinforcement == ""
      ensures page == old(page) && hasErrors == old(hasErrors) && isProcessing == old(isProcessing)
    {
      selectedTheme := Some(theme);
      corrections := [];
      tips := [];
      reinforcement := "";
      mood := Happy;
      startTime := now;
      // The cleared list and history, with the greeting's `addMessage` applied to both.
      messages := [Posted(Assistant, greeting, None)];
      history := [TurnOf(messages[0])];
    }

    method ApplyReply(d: ReplyData)
      modifies this
      ensures Talking() == Replied(old(Talking()), d)
      ensures history == old(history) && page == old(page) && selectedTheme == old(selectedTheme)
      ensures isProcessing == old(isProcessing) && startTime == old(startTime)
    {
      corrections := d.corrections;
      hasErrors := d.hasErrors;
      tips := d.tips;
      reinforcement := d.reinforcement;
      mood := MoodAfter(d.hasErrors);
    }

    /** `handleTranscription` up to its first `await`: without a theme nothing happens;
        otherwise the text is posted, the character thinks and the recorder is disabled. Only
        the recorder is: the theme can still be changed before the request settles. */
    method HandleTranscription(text: string)
      requires Valid()
      modifies this
      ensures Valid()
      ensures old(selectedTheme).None? ==> Talking() == old(Talking()) && isProcessing == old(isProcessing)
      ensures old(selectedTheme).Some? ==> Talking() == Asked(old(Talking()), text) && isProcessing
      ensures selectedTheme == old(selectedTheme) && page == old(page) && startTime == old(startTime)
    {
      if selectedTheme.None? {
        return;
      }
      AddMessage(User, text, None);
      isProcessing := true;
      mood := Thinking;
    }

    /** The rest of a turn when its request settles, on whatever conversation is then on
        screen; processing ends. */
    method Conclude(outcome: Outcome)
      requires Valid()
      modifies this
      ensures Valid() && !isProcessing
      ensures Talking() == Concluded(old(Talking()), outcome)
      ensures selectedTheme == old(selectedTheme) && page == old(page) && startTime == old(startTime)
    {
      match outcome {
        case RequestFailed =>
          mood := Happy;
        case SpeechFailed(d) =>
          ApplyReply(d);
          mood := Happy;
        case Answered(d, url) =>
          ApplyReply(d);
          AddMessage(Assistant, d.response, Some(url));
      }
      isProcessing := false;
    }

    /** The timer after a reply puts the mood back to happy. */
    method MoodTimerFires()
      modifies this
      ensures mood == Happy
      ensures messages == old(messages) && history == old(history) && corrections == old(corrections)
      ensures selectedTheme == old(selectedTheme) && isProcessing == old(isProcessing)
      ensures Talking() == old(Talking()).(mood := Happy) && page == old(page) && startTime == old(startTime)
    {
      mood := Happy;
    }

    /** The two writes of a reset: the conversation row with its XP, then the theme stats. */
    static method Save(progress: P.Provider, id: string, record: P.Conversation, stats: P.Stats, now: int)
      requires progress.Valid() && progress.signedIn
      modifies progress
      ensures progress.Valid()
      ensures progress.conversations == old(progress.conversations) + [record]
      ensures progress.userProgress == P.AfterThemeUpdate(old(progress.userProgress), id, stats, now)
      ensures progress.totalXp == if old(progress.totalXp).Some? then
                Some(old(progress.totalXp).value + record.xpEarned) else old(progress.totalXp)
    {
      progress.SaveConversation(record);
      progress.UpdateThemeProgress(id, stats, now);
    }

    /** `resetConversation`: a signed-in user's conversation with a theme and messages is
        scored and saved, then the screen returns to the theme list of the practice page. */
    method ResetConversation(progress: P.Provider, now: int)
      requires Valid() && progress.Valid() && progress.signedIn == signedIn
      modifies this, progress
      ensures Valid() && progress.Valid()
      ensures SavesStats(signedIn, old(selectedTheme), old(messages)) ==>
        var id := old(selectedTheme).value.id;
        progress.conversations == old(progress.conversations)
          + [SessionRecord(id, old(messages), old(corrections), old(startTime), now)]
        && progress.userProgress == P.AfterThemeUpdate(old(progress.userProgress), id,
             SessionStats(old(messages), old(corrections), old(startTime), now), now)
        && progress.totalXp == (if old(progress.totalXp).Some? then
             Some(old(progress.totalXp).value
                  + SessionRecord(id, old(messages), old(corrections), old(startTime), now).xpEarned)
           else old(progress.totalXp))
      ensures !SavesStats(signedIn, old(selectedTheme), old(messages)) ==>
        progress.conversations == old(progress.conversations)
        && progress.userProgress == old(progress.userProgress)
        && progress.totalXp == old(progress.totalXp)
      ensures selectedTheme.None? && messages == [] && history == [] && corrections == []
      ensures tips == [] && reinforcement == "" && mood == Happy && page == Practice
      ensures hasErrors == old(hasErrors) && isProcessing == old(isProcessing)
      ensures startTime == old(startTime)
    {
      if signedIn && selectedTheme.Some? && |messages| > 0 {
        var id := selectedTheme.value.id;
        Save(progress, id, SessionRecord(id, messages, corrections, startTime, now),
             SessionStats(messages, corrections, startTime, now), now);
      }
      Clear();
    }

    /** The state updates at the end of a reset. */
    method Clear()
      modifies this
      ensures Valid()
      ensures selectedTheme.None? && messages == [] && history == [] && corrections == []
      ensures tips == [] && reinforcement == "" && mood == Happy && page == Practice
      ensures hasErrors == old(hasErrors) && isProcessing == old(isProcessing)
      ensures startTime == old(startTime)
    {
      selectedTheme := None;
      messages := [];
      corrections := [];
      tips := [];
      reinforcement := "";
      mood := Happy;
      page := Practice;
      history := [];
    }
  }
}
