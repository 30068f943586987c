/** The page and the relay together: what the page sends, what the relay
    does with it, and what the page then shows. `supabase.functions.invoke`
    is modelled as resolving with the parsed body for a 2xx status and with
    an error for any other status. */
module ClientRelay {
  import opened Text
  import opened Protocol
  import opened Relay
  import InterviewPage
  import QuestionExtraction

  /** What the page receives for a response of the relay. */
  function Invoke(r: Response): (o: InvokeOutcome)
    ensures o.Data? <==> IsOk(r.status)
    ensures r.body.FeedbackBody? && IsOk(r.status) ==> o == Data(r.body.feedback)
  {
    if !IsOk(r.status) then
      InvokeError(if r.body.ErrorBody? then r.body.error else "")
    else if r.body.FeedbackBody? then Data(r.body.feedback)
    else Data("")
  }

  /** With some context and a configured credential, the page's request for
      a generated question is handled in question-only mode: the system
      prompt embeds the joined context, and the page ends up with the
      question extracted from the completion, or with its fallback question
      when anything fails. */
  lemma GenerationEndToEnd(customContext: string, jobDescription: string, apiKey: string, u: Upstream)
    requires customContext != "" || jobDescription != ""
    requires apiKey != ""
    ensures var p := GenerationRequest(customContext, jobDescription);
            var x := Handle(Post(Success(p)), apiKey, u);
            && x.call == Some(ChatCall(ChatModel, QuestionPrompt(ContextBlock(p)), QuestionUserMessage))
            && InterviewPage.GeneratedQuestion(customContext, jobDescription, Invoke(x.response)) ==
               if u.Replied? && IsOk(u.status) && u.content.Success?
               then QuestionExtraction.ExtractQuestion(u.content.value)
               else InterviewPage.FallbackQuestion
  {
    var p := GenerationRequest(customContext, jobDescription);
    assert IsQuestionRequest(p);
  }

  /** Without a credential every request of the page fails, so a generated
      question is always the fallback one. */
  lemma MissingKeyGivesFallback(customContext: string, jobDescription: string, u: Upstream)
    requires customContext != "" || jobDescription != ""
    ensures var x := Handle(Post(Success(GenerationRequest(customContext, jobDescription))), "", u);
            InterviewPage.GeneratedQuestion(customContext, jobDescription, Invoke(x.response)) ==
              InterviewPage.FallbackQuestion
  {
  }

  /** An ordinary answer is scored: the answer is the user turn verbatim and
      the feedback the page shows is exactly the completion's content; any
      failure reaches the page as an error, which leaves its feedback as it
      was. */
  lemma AnswerEndToEnd(p: Payload, apiKey: string, u: Upstream)
    requires apiKey != "" && !IsQuestionRequest(p)
    ensures var x := Handle(Post(Success(p)), apiKey, u);
            && x.call == Some(ChatCall(ChatModel, ScoringPrompt(p), p.answer))
            && (Invoke(x.response).Data? <==> u.Replied? && IsOk(u.status) && u.content.Success?)
            && (Invoke(x.response).Data? ==> Invoke(x.response).feedback == u.content.value)
  {
    QuestionModeIff(p, apiKey, u);
  }

  /** The sentinel is long enough to pass the page's answer guard, so an
      answer consisting of the sentinel, typed in a Custom session with
      context, is not scored: the relay generates a question for it. */
  lemma TypedSentinelIsNotScored(p: Payload, apiKey: string, u: Upstream)
    requires p.answer == QuestionSentinel && p.interviewType == CustomType && HasContext(p)
    requires apiKey != ""
    ensures Utf16Length(p.answer) >= InterviewPage.MinAnswerLength
    ensures Handle(Post(Success(p)), apiKey, u).call.value.user == QuestionUserMessage
  {
    assert |QuestionSentinel| == 22;
    QuestionModeIff(p, apiKey, u);
  }
}
