/** The challenge stage of a lesson: after the scenario twist is shown the learner exchanges
    messages with the tutor; at least three sent messages unlock the "Complete Challenge"
    button, whose score rewards the number of exchanges and the reply quality points. */
module ChallengeStage {
  import opened Optional
  import Text
  import Seqs
  import JsMath
  import opened Chat

  /** The exchanges needed before the challenge can be finished. */
  const MinMessages: nat := 3
  /** Never consulted: the learner may go on exchanging messages without limit. */
  const MaxMessages: nat := 10

  const ErrorReply: string := "Entschuldigung, there was an error. Please try again."

  /** A message of the challenge chat; the opening scenario message carries the challenge flag. */
  datatype ChallengeMessage = ChallengeMessage(role: Role, content: string, isChallenge: bool)

  /** The outcome of the tutor request: a network or parse failure, or the parsed body, where a
      missing `response` is the empty string and a missing `qualityScore` is 0. */
  datatype Reply = Failed | Received(response: string, qualityScore: real)

  predicate IsUserMessage(m: ChallengeMessage) {
    m.role == User
  }

  /** `finishChallenge`'s score: up to 100 for the exchanges (70 per three messages) and up to 30
      quality points, rounded. */
  function FinalScore(messageCount: nat, quality: real): int
  {
    JsMath.Round(JsMath.MinReal(100.0, (messageCount as real / MinMessages as real) * 70.0)
                 + JsMath.MinReal(30.0, quality))
  }

  /** The score never exceeds 130, and is not negative while quality points are not. */
  lemma {:induction false} FinalScoreBounds(messageCount: nat, quality: real)
    ensures FinalScore(messageCount, quality) <= 130
    ensures quality >= 0.0 ==> FinalScore(messageCount, quality) >= 0
  {
    var base := JsMath.MinReal(100.0, (messageCount as real / MinMessages as real) * 70.0);
    var bonus := JsMath.MinReal(30.0, quality);
    assert base <= 100.0 && bonus <= 30.0;
    assert quality >= 0.0 ==> base >= 0.0 && bonus >= 0.0;
  }

  /** Three messages and no quality points give exactly 70; five or more messages saturate the
      exchange part at 100. */
  lemma FinalScoreExamples(quality: real)
    ensures FinalScore(3, 0.0) == 70
    ensures FinalScore(4, 0.0) == 93
    ensures FinalScore(5, 0.0) == 100 && FinalScore(20, 30.0) == 130
  {
  }

  /** More exchanges never lower the score. */
  lemma FinalScoreMonotone(m1: nat, m2: nat, quality: real)
    requires m1 <= m2
    ensures FinalScore(m1, quality) <= FinalScore(m2, quality)
  {
    var b1 := JsMath.MinReal(100.0, (m1 as real / 3.0) * 70.0);
    var b2 := JsMath.MinReal(100.0, (m2 as real / 3.0) * 70.0);
    assert b1 <= b2;
  }

  class Challenge {
    const scenario: string
    var messages: seq<ChallengeMessage>
    var input: string
    var isLoading: bool
    var challengeActive: bool
    var messageCount: nat
    /** The quality points accumulated over the replies. */
    var challengeScore: real

    /** Before the start nothing was exchanged; afterwards every sent message is counted once. */
    ghost predicate Valid()
      reads this
    {
      (!challengeActive ==> messages == [] && messageCount == 0)
      && messageCount == Seqs.Count(messages, IsUserMessage)
    }

    constructor (scenario: string)
      ensures Valid() && this.scenario == scenario
      ensures messages == [] && input == "" && !isLoading && !challengeActive
      ensures messageCount == 0 && challengeScore == 0.0
    {
      this.scenario := scenario;
      messages := [];
      input := "";
      isLoading := false;
      challengeActive := false;
      messageCount := 0;
      challengeScore := 0.0;
    }

    /** The "Start Challenge" button, shown only before the start. */
    method Start()
      requires Valid() && !challengeActive
      modifies this
      ensures Valid() && challengeActive
      ensures messages == [ChallengeMessage(Assistant, scenario, true)]
      ensures messageCount == old(messageCount) && challengeScore == old(challengeScore)
      ensures input == old(input) && isLoading == old(isLoading)
    {
      challengeActive := true;
      messages := [ChallengeMessage(Assistant, scenario, true)];
    }

    method SetInput(text: string)
      modifies this
      ensures input == text
      ensures messages == old(messages) && isLoading == old(isLoading) && challengeActive == old(challengeActive)
      ensures messageCount == old(messageCount) && challengeScore == old(challengeScore)
    {
      input := text;
    }

    /** The first half of `handleSubmit`, up to the tutor request: blank input or a request
        already in flight is ignored; otherwise the trimmed text is sent, counted and shown.
        The form exists only once the challenge has started. */
    method Submit() returns (sent: Option<string>)
      requires Valid() && challengeActive
      modifies this
      ensures Valid() && challengeActive
      ensures sent.None? <==> Text.Trim(old(input)) == [] || old(isLoading)
      ensures sent.None? ==> messages == old(messages) && input == old(input) && isLoading == old(isLoading)
                             && messageCount == old(messageCount)
      ensures sent.Some? ==>
        sent.value == Text.Trim(old(input)) && input == "" && isLoading
        && messageCount == old(messageCount) + 1
        && messages == old(messages) + [ChallengeMessage(User, sent.value, false)]
      ensures challengeScore == old(challengeScore)
    {
      if Text.Trim(input) == [] || isLoading {
        return None;
      }
      var userMessage := Text.Trim(input);
      input := "";
      isLoading := true;
      messageCount := messageCount + 1;
      CountSnoc(messages, ChallengeMessage(User, userMessage, false));
      messages := messages + [ChallengeMessage(User, userMessage, false)];
      sent := Some(userMessage);
    }

    /** The second half of `handleSubmit`: a non-empty reply is shown and its non-zero quality
        points are added; a failure shows the apology; either way loading ends. */
    method Settle(reply: Reply)
      requires Valid() && challengeActive
      modifies this
      ensures Valid() && challengeActive && !isLoading
      ensures messages == old(messages) + (match reply
        case Failed => [ChallengeMessage(Assistant, ErrorReply, false)]
        case Received(response, _) => if response != "" then [ChallengeMessage(Assistant, response, false)] else [])
      ensures challengeScore == old(challengeScore) + (match reply
        case Failed => 0.0
        case Received(response, q) => if response != "" && q != 0.0 then q else 0.0)
      ensures messageCount == old(messageCount) && input == old(input)
    {
      match reply {
        case Failed =>
          CountSnoc(messages, ChallengeMessage(Assistant, ErrorReply, false));
          messages := messages + [ChallengeMessage(Assistant, ErrorReply, false)];
        case Received(response, qualityScore) =>
          if response != "" {
            CountSnoc(messages, ChallengeMessage(Assistant, response, false));
            messages := messages + [ChallengeMessage(Assistant, response, false)];
            if qualityScore != 0.0 {
              challengeScore := challengeScore + qualityScore;
            }
          }
      }
      isLoading := false;
    }

    /** The "Complete Challenge" button: rendered only from three sent messages on, it reports
        the final score. */
    method Finish() returns (score: Option<int>)
      ensures score.Some? <==> messageCount >= MinMessages
      ensures score.Some? ==> score.value == FinalScore(messageCount, challengeScore)
    {
      var canFinish := messageCount >= MinMessages;
      if !canFinish {
        return None;
      }
      var baseScore := JsMath.MinReal(100.0, (messageCount as real / MinMessages as real) * 70.0);
      var qualityBonus := JsMath.MinReal(30.0, challengeScore);
      score := Some(JsMath.Round(baseScore + qualityBonus));
    }
  }

  /** Appending a message adds one to the count of sent messages exactly when it is the learner's. */
  lemma CountSnoc(s: seq<ChallengeMessage>, m: ChallengeMessage)
    ensures Seqs.Count(s + [m], IsUserMessage) == Seqs.Count(s, IsUserMessage) + (if IsUserMessage(m) then 1 else 0)
  {
    assert (s + [m])[..|s|] == s;
  }
}
