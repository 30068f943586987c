/** The interview page: its React state as the fields of a `Session` object and
    its event handlers as methods. Calls to the relay, speech synthesis and
    recognition, and the random choice of a question are not performed here:
    what the relay answers and which index the random draw gives are
    parameters, and each handler that calls the relay returns the body it
    sends (None when it sends nothing). */
module InterviewPage {
  import opened Text
  import opened Protocol
  import RoleClassifier
  import QuestionExtraction

  /** One entry of the static list of interview types. */
  datatype InterviewType = InterviewType(
    typeName: string,
    description: string,
    icon: string,
    questions: seq<string>)

  /** What the page has asked speech synthesis to do. */
  datatype Speech = Silent | Speaking(text: string)

  /** The question used when generating a custom question fails. */
  const FallbackQuestion: string := "Tell me about your most significant project or achievement."

  const MinAnswerLength: nat := 10

  /** A category card is shown for the Custom type and for every relevant one. */
  predicate IsShown(t: InterviewType, relevant: seq<string>)
  {
    t.typeName == CustomType || t.typeName in relevant
  }

  /** The indices of the cards in the category grid, in list order. */
  function VisibleIndices(types: seq<InterviewType>, relevant: seq<string>): (r: seq<nat>)
    ensures forall k :: 0 <= k < |r| ==> r[k] < |types| && IsShown(types[r[k]], relevant)
    ensures forall i :: 0 <= i < |types| && IsShown(types[i], relevant) ==> i in r
    ensures forall k, l :: 0 <= k < l < |r| ==> r[k] < r[l]
  {
    if types == [] then []
    else
      var n := |types| - 1;
      VisibleIndices(types[..n], relevant) + (if IsShown(types[n], relevant) then [n] else [])
  }

  /** `getRandomQuestion`: "" without a selected type; otherwise the question
      at the drawn index. `Math.floor(Math.random() * length)` is below the
      length when the list is not empty; an empty list yields `undefined`,
      modelled as "". */
  function RandomQuestion(current: Option<InterviewType>, pick: nat): (q: string)
    requires current.Some? && current.value.questions != [] ==> pick < |current.value.questions|
    ensures current.None? ==> q == ""
    ensures current.Some? && current.value.questions != [] ==> q in current.value.questions
    ensures current.Some? && current.value.questions == [] ==> q == ""
  {
    match current
    case None => ""
    case Some(t) => if t.questions == [] then "" else t.questions[pick]
  }

  /** What `generateCustomQuestion` resolves to: "" without any context (and
      no call); otherwise the question extracted from the relay's reply, or
      the fixed fallback question when the call fails. */
  function GeneratedQuestion(customContext: string, jobDescription: string, outcome: InvokeOutcome): (q: string)
    ensures customContext == "" && jobDescription == "" ==> q == ""
    ensures (customContext != "" || jobDescription != "") && outcome.InvokeError? ==> q == FallbackQuestion
    ensures (customContext != "" || jobDescription != "") && outcome.Data? ==>
              q == QuestionExtraction.ExtractQuestion(outcome.feedback)
    ensures ((customContext != "" || jobDescription != "") && outcome.Data? &&
             !Contains(outcome.feedback, QuestionExtraction.Marker)) ==> q == Trim(outcome.feedback)
  {
    if customContext == "" && jobDescription == "" then ""
    else match outcome
      case Data(reply) => QuestionExtraction.ExtractQuestion(reply)
      case InvokeError(_) => FallbackQuestion
  }

  class Session {
    /** The static list of interview types the page is built with. */
    const interviewTypes: seq<InterviewType>

    var selectedType: Option<nat>
    var feedback: string
    var isAnalyzing: bool
    var customContext: string
    var jobDescription: string
    var hasProvidedContext: bool
    var relevantCategories: seq<string>
    var question: string
    var isGeneratingQuestion: bool
    /** The speech-recognition transcript, which is also the answer box. */
    var transcript: string
    /** Whether speech recognition has been started and not stopped. */
    var listening: bool
    var speech: Speech

    ghost predicate Valid()
      reads this`selectedType
    {
      selectedType.Some? ==> selectedType.value < |interviewTypes|
    }

    /** The initial state of every `useState`. */
    constructor (types: seq<InterviewType>)
      ensures Valid() && interviewTypes == types
      ensures selectedType == None && feedback == "" && !isAnalyzing
      ensures customContext == "" && jobDescription == "" && !hasProvidedContext
      ensures relevantCategories == [] && question == "" && !isGeneratingQuestion
      ensures transcript == "" && !listening && speech == Silent
    {
      interviewTypes := types;
      selectedType := None;
      feedback := "";
      isAnalyzing := false;
      customContext := "";
      jobDescription := "";
      hasProvidedContext := false;
      relevantCategories := [];
      question := "";
      isGeneratingQuestion := false;
      transcript := "";
      listening := false;
      speech := Silent;
    }

    /** `currentInterviewType`. */
    function CurrentType(): Option<InterviewType>
      reads this`selectedType
      requires Valid()
    {
      match selectedType
      case None => None
      case Some(i) => Some(interviewTypes[i])
    }

    /** The body `analyzeAnswer` sends for an answer. */
    function AnswerPayload(answerText: string): Payload
      reads this`selectedType, this`question, this`customContext, this`jobDescription
      requires Valid() && selectedType.Some?
    {
      Payload(answerText, CurrentType().value.typeName, question, customContext, jobDescription)
    }

    /** The guards of `analyzeAnswer` and the start of its request: an answer
        shorter than ten UTF-16 code units, or no selected type, sends nothing
        and changes nothing; otherwise `isAnalyzing` is set and the answer
        with the session's question and context is sent. */
    method BeginAnalysis(answerText: string) returns (sent: Option<Payload>)
      requires Valid()
      modifies this`isAnalyzing
      ensures sent.None? <==> Utf16Length(answerText) < MinAnswerLength || selectedType.None?
      ensures sent.None? ==> isAnalyzing == old(isAnalyzing)
      ensures sent.Some? ==> isAnalyzing && sent.value == AnswerPayload(answerText)
    {
      if Utf16Length(answerText) < MinAnswerLength {
        return None;
      }
      if selectedType.None? {
        return None;
      }
      isAnalyzing := true;
      sent := Some(AnswerPayload(answerText));
    }

    /** The end of `analyzeAnswer`'s request: on success the feedback is
        replaced and spoken; on failure it is left as it was; either way
        `isAnalyzing` is cleared. */
    method FinishAnalysis(outcome: InvokeOutcome)
      modifies this`feedback, this`isAnalyzing, this`speech
      ensures !isAnalyzing
      ensures feedback == (if outcome.Data? then outcome.feedback else old(feedback))
      ensures speech == (if outcome.Data? then Speaking(outcome.feedback) else old(speech))
    {
      match outcome {
        case Data(text) =>
          feedback := text;
          speech := Speaking(text);
        case InvokeError(_) =>
      }
      isAnalyzing := false;
    }

    /** `analyzeAnswer`. */
    method AnalyzeAnswer(answerText: string, outcome: InvokeOutcome) returns (sent: Option<Payload>)
      requires Valid()
      modifies this`feedback, this`isAnalyzing, this`speech
      ensures sent.None? <==> Utf16Length(answerText) < MinAnswerLength || selectedType.None?
      ensures sent.None? ==>
                feedback == old(feedback) && isAnalyzing == old(isAnalyzing) && speech == old(speech)
      ensures sent.Some? ==> sent.value == AnswerPayload(answerText) && !isAnalyzing
      ensures sent.Some? ==>
                feedback == (if outcome.Data? then outcome.feedback else old(feedback)) &&
                speech == (if outcome.Data? then Speaking(outcome.feedback) else old(speech))
    {
      sent := BeginAnalysis(answerText);
      if sent.Some? {
        FinishAnalysis(outcome);
      }
    }

    /** `analyzeJobContext`: nothing happens while both fields are empty;
        otherwise the categories for the role text are built one push at a
        time and the page moves on to the category grid. */
    method AnalyzeJobContext()
      modifies this`relevantCategories, this`hasProvidedContext
      ensures customContext == "" && jobDescription == "" ==>
                relevantCategories == old(relevantCategories) &&
                hasProvidedContext == old(hasProvidedContext)
      ensures customContext != "" || jobDescription != "" ==>
                hasProvidedContext &&
                relevantCategories ==
                  RoleClassifier.Categories(RoleClassifier.RoleText(customContext, jobDescription))
    {
      if customContext == "" && jobDescription == "" {
        return;
      }
      var text := RoleClassifier.RoleText(customContext, jobDescription);
      var categories: seq<string> := [];
      categories := categories + ["Behavioral"];
      var isTechnical := RoleClassifier.IsTechnical(text);
      if isTechnical {
        categories := categories + ["Technical"];
        categories := categories + ["Coding"];
      }
      assert categories == ["Behavioral"] + (if isTechnical then ["Technical", "Coding"] else []);
      var isProduct := RoleClassifier.IsProduct(text);
      if isProduct {
        categories := categories + ["Technical"];
      }
      assert categories == ["Behavioral"] + (if isTechnical then ["Technical", "Coding"] else []) +
                           (if isProduct then ["Technical"] else []);
      var isData := RoleClassifier.IsData(text);
      if isData {
        categories := categories + ["Technical"];
        categories := categories + ["Coding"];
      }
      assert categories == RoleClassifier.CategoryList(isTechnical, isProduct, isData);
      relevantCategories := categories;
      hasProvidedContext := true;
    }

    /** `generateCustomQuestion`: without any context it resolves to "" and
        sends nothing; otherwise it sends the sentinel request for the Custom
        type and resolves to the generated question. */
    method GenerateCustomQuestion(outcome: InvokeOutcome) returns (q: string, sent: Option<Payload>)
      modifies this`isGeneratingQuestion
      ensures sent.None? <==> customContext == "" && jobDescription == ""
      ensures sent.None? ==> isGeneratingQuestion == old(isGeneratingQuestion)
      ensures sent.Some? ==>
                sent.value == GenerationRequest(customContext, jobDescription) &&
                !isGeneratingQuestion
      ensures q == GeneratedQuestion(customContext, jobDescription, outcome)
    {
      if customContext == "" && jobDescription == "" {
        return "", None;
      }
      isGeneratingQuestion := true;
      sent := Some(GenerationRequest(customContext, jobDescription));
      match outcome {
        case Data(reply) =>
          q := QuestionExtraction.ExtractQuestion(reply);
        case InvokeError(_) =>
          q := FallbackQuestion;
      }
      isGeneratingQuestion := false;
    }

    /** `handleStartRecording`: the transcript and the feedback are cleared
        and listening starts. */
    method StartRecording()
      modifies this`transcript, this`feedback, this`listening
      ensures transcript == "" && feedback == "" && listening
    {
      transcript := "";
      feedback := "";
      listening := true;
    }

    /** `handleStopRecording`: listening stops and, after the settling delay,
        the transcript the handler captured when it was created is trimmed
        and analysed. */
    method StopRecording(captured: string, outcome: InvokeOutcome) returns (sent: Option<Payload>)
      requires Valid()
      modifies this`listening, this`feedback, this`isAnalyzing, this`speech
      ensures !listening
      ensures sent.None? <==> Utf16Length(Trim(captured)) < MinAnswerLength || selectedType.None?
      ensures sent.None? ==>
                feedback == old(feedback) && isAnalyzing == old(isAnalyzing) && speech == old(speech)
      ensures sent.Some? ==> sent.value == AnswerPayload(Trim(captured)) && !isAnalyzing
      ensures sent.Some? ==>
                feedback == (if outcome.Data? then outcome.feedback else old(feedback)) &&
                speech == (if outcome.Data? then Speaking(outcome.feedback) else old(speech))
    {
      var answer := Trim(captured);
      listening := false;
      sent := AnalyzeAnswer(answer, outcome);
    }

    /** `handleNextQuestion`: a Custom session gets a generated question,
        any other a random one from its type; then the transcript and the
        feedback are cleared and speech stops. */
    method NextQuestion(outcome: InvokeOutcome, pick: nat) returns (sent: Option<Payload>)
      requires Valid()
      requires var t := CurrentType(); t.Some? && t.value.questions != [] ==> pick < |t.value.questions|
      modifies this`question, this`transcript, this`feedback, this`speech, this`isGeneratingQuestion
      ensures transcript == "" && feedback == "" && speech == Silent
      ensures old(CurrentType()).Some? && old(CurrentType()).value.typeName == CustomType ==>
                question == GeneratedQuestion(customContext, jobDescription, outcome) &&
                (sent.Some? <==> customContext != "" || jobDescription != "")
      ensures !(old(CurrentType()).Some? && old(CurrentType()).value.typeName == CustomType) ==>
                question == RandomQuestion(old(CurrentType()), pick) && sent.None?
      ensures isGeneratingQuestion == (if sent.Some? then false else old(isGeneratingQuestion))
    {
      var current := CurrentType();
      if current.Some? && current.value.typeName == CustomType {
        var q;
        q, sent := GenerateCustomQuestion(outcome);
        question := q;
      } else {
        question := RandomQuestion(current, pick);
        sent := None;
      }
      transcript := "";
      feedback := "";
      speech := Silent;
    }

    /** The click handler of a category card: the type is selected, the
        transcript and feedback are cleared, speech stops, and a question is
        set: a generated one for Custom, a random one from a non-empty list,
        and for an empty list the previous question stays. */
    method SelectCard(index: nat, outcome: InvokeOutcome, pick: nat) returns (sent: Option<Payload>)
      requires Valid() && hasProvidedContext
      requires index < |interviewTypes| && IsShown(interviewTypes[index], relevantCategories)
      requires interviewTypes[index].questions != [] ==> pick < |interviewTypes[index].questions|
      modifies this`selectedType, this`transcript, this`feedback, this`speech, this`question,
               this`isGeneratingQuestion
      ensures Valid() && selectedType == Some(index)
      ensures transcript == "" && feedback == "" && speech == Silent
      ensures interviewTypes[index].typeName == CustomType ==>
                question == GeneratedQuestion(customContext, jobDescription, outcome) &&
                (sent.Some? <==> customContext != "" || jobDescription != "")
      ensures interviewTypes[index].typeName != CustomType ==> sent.None?
      ensures interviewTypes[index].typeName != CustomType && interviewTypes[index].questions != [] ==>
                question in interviewTypes[index].questions
      ensures interviewTypes[index].typeName != CustomType && interviewTypes[index].questions == [] ==>
                question == old(question)
      ensures isGeneratingQuestion == (if sent.Some? then false else old(isGeneratingQuestion))
    {
      selectedType := Some(index);
      transcript := "";
      feedback := "";
      speech := Silent;
      var t := interviewTypes[index];
      sent := None;
      if t.typeName == CustomType {
        var q;
        q, sent := GenerateCustomQuestion(outcome);
        question := q;
      } else if t.questions != [] {
        question := t.questions[pick];
      }
    }
  }
}
