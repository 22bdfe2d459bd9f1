/** The guided-practice stage of a lesson: a scripted sequence of steps, each opened by a tutor
    message; a reply containing one of the step's expected phrases completes the step and
    opens the next one, and once every step is completed the learner may continue. */
module GuidedConversation {
  import opened Optional
  import Text
  import opened Chat
  import IntSets

  /** A conversation step; `None` stands for a step without an `expectedPhrases` list. */
  datatype Step = Step(aiMessage: string, prompt: string, hints: seq<string>, expectedPhrases: Option<seq<string>>)

  /** A message of the guided chat with the tutor's optional feedback. */
  datatype GuidedMessage = GuidedMessage(role: Role, content: string, feedback: Option<string>)

  /** The outcome of the tutor request: a failure, or the parsed body where a missing `response`
      is the empty string. */
  datatype Reply = Failed | Received(response: string, feedback: Option<string>)

  const ErrorReply: string := "Entschuldigung, there was an error. Please try again."

  /** `checkStepCompletion`: a step without expected phrases is completed by any reply; otherwise
      the lower-cased reply must contain some lower-cased expected phrase. */
  predicate StepComplete(userMessage: string, step: Step) {
    step.expectedPhrases.None? || |step.expectedPhrases.value| == 0
    || exists i :: 0 <= i < |step.expectedPhrases.value|
                   && Text.Includes(Text.Lower(userMessage), Text.Lower(step.expectedPhrases.value[i]))
  }

  /** A reply containing an expected phrase verbatim completes the step. */
  lemma ExactPhraseCompletes(userMessage: string, step: Step, i: nat)
    requires step.expectedPhrases.Some? && i < |step.expectedPhrases.value|
    requires Text.Includes(userMessage, step.expectedPhrases.value[i])
    ensures StepComplete(userMessage, step)
  {
    Text.LowerKeepsIncludes(userMessage, step.expectedPhrases.value[i]);
  }

  /** The match ignores letter case: lower-casing the reply first changes nothing. */
  lemma StepCompleteIgnoresCase(userMessage: string, step: Step)
    ensures StepComplete(Text.Lower(userMessage), step) == StepComplete(userMessage, step)
  {
    Text.LowerIdempotent(userMessage);
  }

  /** A reply containing no expected phrase, in any letter case, leaves a step with phrases open. */
  lemma NoPhraseNoCompletion(userMessage: string, step: Step)
    requires step.expectedPhrases.Some? && |step.expectedPhrases.value| > 0
    requires forall i :: 0 <= i < |step.expectedPhrases.value| ==>
      !Text.Includes(Text.Lower(userMessage), Text.Lower(step.expectedPhrases.value[i]))
    ensures !StepComplete(userMessage, step)
  {
  }

  /** The step progress of a script of `n` steps: the steps before the current one are completed,
      and the current one is too only when it is the last; an empty script has no progress. */
  predicate InOrder(n: nat, current: int, completed: set<int>) {
    if n == 0 then current == 0 && completed == {}
    else 0 <= current < n
         && (completed == IntSets.Interval(0, current) || (current == n - 1 && completed == IntSets.Interval(0, n)))
  }

  /** The step progress after a matched reply: the current step is completed and, unless it is
      the last, the next step becomes current. */
  function AfterMatch(n: nat, current: int, completed: set<int>): (int, set<int>)
  {
    if current in completed then (current, completed)
    else (if current < n - 1 then current + 1 else current, completed + {current})
  }

  lemma {:induction false} MatchKeepsInOrder(n: nat, current: int, completed: set<int>)
    requires n > 0 && InOrder(n, current, completed)
    ensures InOrder(n, AfterMatch(n, current, completed).0, AfterMatch(n, current, completed).1)
  {
    if current !in completed {
      assert completed == IntSets.Interval(0, current);
      assert IntSets.Interval(0, current) + {current} == IntSets.Interval(0, current + 1);
    }
  }

  /** With ordered progress all steps are completed exactly when the last step is current and
      completed; the count test `completedSteps.size === length` says the same. */
  lemma {:induction false} AllCompletedIffLast(n: nat, current: int, completed: set<int>)
    requires n > 0 && InOrder(n, current, completed)
    ensures |completed| == n <==> current == n - 1 && current in completed
  {
    IntSets.IntervalSize(0, current);
    IntSets.IntervalSize(0, n);
  }

  class Guided {
    const steps: seq<Step>
    var currentStep: int
    var messages: seq<GuidedMessage>
    var input: string
    var isLoading: bool
    var showHints: bool
    var completedSteps: set<int>
    /** The trimmed reply the request in flight was sent with. */
    var pending: string

    ghost predicate Valid()
      reads this
    {
      InOrder(|steps|, currentStep, completedSteps)
    }

    /** `allStepsCompleted`: with it the input and send button are disabled and the continue
        button is shown. */
    predicate AllStepsCompleted()
      reads this
    {
      |completedSteps| == |steps|
    }

    /** The screen after mounting: the first step's tutor message. The screen renders the
        current step's prompt, so a script without steps cannot be shown. */
    constructor (steps: seq<Step>)
      requires |steps| > 0
      ensures Valid() && this.steps == steps
      ensures currentStep == 0 && completedSteps == {} && input == "" && !isLoading && !showHints
      ensures messages == [GuidedMessage(Assistant, steps[0].aiMessage, None)]
      ensures !AllStepsCompleted()
    {
      this.steps := steps;
      currentStep := 0;
      completedSteps := {};
      input := "";
      isLoading := false;
      showHints := false;
      pending := "";
      messages := [GuidedMessage(Assistant, steps[0].aiMessage, None)];
    }

    method SetInput(text: string)
      modifies this
      ensures input == text
      ensures messages == old(messages) && isLoading == old(isLoading) && currentStep == old(currentStep)
      ensures completedSteps == old(completedSteps) && pending == old(pending)
    {
      input := text;
    }

    /** The first half of `handleSubmit`. The form is disabled once all steps are completed. */
    method Submit() returns (sent: Option<string>)
      requires Valid() && !AllStepsCompleted()
      modifies this
      ensures Valid() && |steps| > 0
      ensures sent.None? <==> Text.Trim(old(input)) == [] || old(isLoading)
      ensures sent.None? ==> messages == old(messages) && input == old(input) && isLoading == old(isLoading)
                             && pending == old(pending)
      ensures sent.Some? ==>
        sent.value == Text.Trim(old(input)) && input == "" && isLoading && pending == sent.value
        && messages == old(messages) + [GuidedMessage(User, sent.value, None)]
      ensures currentStep == old(currentStep) && completedSteps == old(completedSteps)
    {
      if Text.Trim(input) == [] || isLoading {
        return None;
      }
      var userMessage := Text.Trim(input);
      input := "";
      isLoading := true;
      pending := userMessage;
      messages := messages + [GuidedMessage(User, userMessage, None)];
      sent := Some(userMessage);
    }

    /** The second half of `handleSubmit`: a non-empty reply is shown; if the sent reply completes
        the current step for the first time, the step is recorded and, unless it is the last, the
        next step's tutor message follows. A failure shows the apology. */
    method Settle(reply: Reply)
      requires Valid() && |steps| > 0
      modifies this
      ensures Valid() && !isLoading
      ensures reply.Failed? ==>
        messages == old(messages) + [GuidedMessage(Assistant, ErrorReply, None)]
        && currentStep == old(currentStep) && completedSteps == old(completedSteps)
      ensures reply.Received? && reply.response == "" ==>
        messages == old(messages) && currentStep == old(currentStep) && completedSteps == old(completedSteps)
      ensures reply.Received? && reply.response != "" ==>
        var matched := StepComplete(pending, steps[old(currentStep)]);
        var answer := GuidedMessage(Assistant, reply.response, reply.feedback);
        (matched ==> (currentStep, completedSteps) == AfterMatch(|steps|, old(currentStep), old(completedSteps)))
        && (!matched ==> currentStep == old(currentStep) && completedSteps == old(completedSteps))
        && messages == old(messages) + [answer]
             + (if currentStep != old(currentStep) then [GuidedMessage(Assistant, steps[currentStep].aiMessage, None)] else [])
      ensures input == old(input) && pending == old(pending)
    {
      match reply {
        case Failed =>
          messages := messages + [GuidedMessage(Assistant, ErrorReply, None)];
        case Received(response, feedback) =>
          if response != "" {
            var isStepComplete := StepComplete(pending, steps[currentStep]);
            messages := messages + [GuidedMessage(Assistant, response, feedback)];
            if isStepComplete && currentStep !in completedSteps {
              MatchKeepsInOrder(|steps|, currentStep, completedSteps);
              completedSteps := completedSteps + {currentStep};
              if currentStep < |steps| - 1 {
                currentStep := currentStep + 1;
                showHints := false;
                messages := messages + [GuidedMessage(Assistant, steps[currentStep].aiMessage, None)];
              }
            }
          }
      }
      isLoading := false;
    }
  }
}
