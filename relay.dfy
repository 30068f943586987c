/** The analyze-interview edge function: one request in, at most one
    chat-completion call out, one response back. The network call is a
    parameter: the handler is a function of the request, of the configured
    credential and of what the completion service answers, and its result
    records the call it makes (if any) beside the response it returns. */
module Relay {
  import opened Text
  import opened Protocol

  const ChatModel: string := "gpt-4o-mini"

  const MissingKeyMessage: string := "OPENAI_API_KEY is not configured"
  const RateLimitMessage: string := "Rate limit exceeded. Please try again in a moment."
  const CreditsMessage: string := "AI credits exhausted. Please contact support."
  const UnavailableMessage: string := "AI service temporarily unavailable"

  /** The user turn sent when a question is generated; the answer is not sent. */
  const QuestionUserMessage: string :=
    "Generate a custom interview question based on the provided context."

  /** An incoming request: a CORS preflight, or any other request with the
      outcome of parsing its JSON body (the error message if parsing threw). */
  datatype Request = Preflight | Post(body: Result<Payload, string>)

  /** What the completion service does with the call: the fetch itself fails
      with a message, or it answers with an HTTP status and a body from which
      `choices[0].message.content` is read (or reading it throws). */
  datatype Upstream =
    | Unreachable(message: string)
    | Replied(status: int, content: Result<string, string>)

  /** The chat-completion call: model, system message and user message. */
  datatype ChatCall = ChatCall(model: string, system: string, user: string)

  datatype Body = NoBody | FeedbackBody(feedback: string) | ErrorBody(error: string)

  /** Every response carries the CORS headers; `json` says whether it also
      declares `Content-Type: application/json`. */
  datatype Response = Response(status: int, body: Body, json: bool)

  datatype Exchange = Exchange(call: Option<ChatCall>, response: Response)

  /** `response.ok`: a status in the range 200-299. */
  predicate IsOk(status: int)
  {
    200 <= status <= 299
  }

  /** The error response of the handler's catch block. */
  function Failed(message: string): Response
  {
    Response(500, ErrorBody(message), true)
  }

  function Succeeded(feedback: string): Response
  {
    Response(200, FeedbackBody(feedback), true)
  }

  /** The request asks for a generated question rather than for feedback. */
  predicate IsQuestionRequest(p: Payload)
  {
    p.answer == QuestionSentinel && p.interviewType == CustomType && HasContext(p)
  }

  /** `[customContext, jobDescription].filter(Boolean).join("\n\n")`. */
  function ContextBlock(p: Payload): (c: string)
    ensures c == "" <==> !HasContext(p)
    ensures p.customContext != "" && p.jobDescription != "" ==>
              c == p.customContext + "\n\n" + p.jobDescription
    ensures p.customContext == "" ==> c == p.jobDescription
    ensures p.jobDescription == "" ==> c == p.customContext
  {
    JoinNonEmptyPair(p.customContext, p.jobDescription, "\n\n");
    Join(NonEmpty([p.customContext, p.jobDescription]), "\n\n")
  }

  const QuestionIntro: string :=
    "You are an expert interview coach. Based on this resume/job description, generate ONE highly relevant, insightful interview question."

  const QuestionCriteria: string :=
    "Generate a single question that:\n" +
    "- Targets their specific experience or role\n" +
    "- Tests relevant skills\n" +
    "- Is open-ended and behavioral\n\n" +
    "Return ONLY the question, nothing else."

  const CoachIntro: string :=
    "You're a concise interview coach. Provide structured feedback."

  const FeedbackFormat: string :=
    "Format EXACTLY as:\n\n" +
    "**Score:** X/10\n\n" +
    "**Strengths:**\n- Point 1\n- Point 2\n\n" +
    "**Improve:**\n- Action 1\n- Action 2\n\n" +
    "**Example Answer:**\n\"[One concise paragraph]\"\n\n" +
    "Max 120 words."

  const ContextHeading: string := "\n\nContext:\n"

  /** The system prompt of question-only mode. */
  function QuestionPrompt(context: string): string
  {
    QuestionIntro + ContextHeading + context + "\n\n" + QuestionCriteria
  }

  /** The feedback prompt for a Custom interview with context. */
  function ContextScoringPrompt(context: string, question: string): string
  {
    CoachIntro + ContextHeading + context + "\n\nQuestion: " + question + "\n\n" + FeedbackFormat
  }

  /** The feedback prompt for every other request. */
  function PlainScoringPrompt(question: string): string
  {
    CoachIntro + "\n\nQuestion: " + question + "\n\n" + FeedbackFormat
  }

  /** The prompt carries a context block: the context heading follows the
      opening sentence directly. */
  predicate HasContextBlock(prompt: string)
  {
    OccursAt(prompt, ContextHeading, |CoachIntro|)
  }

  /** The system prompt of scoring mode. Both templates open with the coach
      sentence, quote the question and close with the response format; the
      context block is there exactly for a Custom interview with context, and
      then it holds the joined context. */
  function ScoringPrompt(p: Payload): (prompt: string)
    ensures |prompt| >= |CoachIntro| && prompt[..|CoachIntro|] == CoachIntro
    ensures Contains(prompt, "Question: " + p.question)
    ensures |prompt| >= |FeedbackFormat| && prompt[|prompt| - |FeedbackFormat|..] == FeedbackFormat
    ensures HasContextBlock(prompt) <==> p.interviewType == CustomType && HasContext(p)
    ensures HasContextBlock(prompt) ==>
              OccursAt(prompt, ContextBlock(p), |CoachIntro| + |ContextHeading|)
  {
    if p.interviewType == CustomType && HasContext(p) then
      ContextPromptShape(ContextBlock(p), p.question);
      ContextScoringPrompt(ContextBlock(p), p.question)
    else
      PlainPromptShape(p.question);
      PlainScoringPrompt(p.question)
  }

  lemma ContextPromptShape(c: string, question: string)
    ensures var r := ContextScoringPrompt(c, question);
            |r| >= |CoachIntro| && r[..|CoachIntro|] == CoachIntro &&
            Contains(r, "Question: " + question) &&
            |r| >= |FeedbackFormat| && r[|r| - |FeedbackFormat|..] == FeedbackFormat &&
            HasContextBlock(r) && OccursAt(r, c, |CoachIntro| + |ContextHeading|)
  {
    ContextTemplateShape(CoachIntro, ContextHeading, c, question, FeedbackFormat);
  }

  /** Where the parts of the template with context end up in the prompt. */
  lemma ContextTemplateShape(intro: string, heading: string, c: string, question: string, format: string)
    ensures var r := intro + heading + c + "\n\nQuestion: " + question + "\n\n" + format;
            |r| >= |intro| && r[..|intro|] == intro &&
            Contains(r, "Question: " + question) &&
            |r| >= |format| && r[|r| - |format|..] == format &&
            OccursAt(r, heading, |intro|) && OccursAt(r, c, |intro| + |heading|)
  {
    var r := intro + heading + c + "\n\nQuestion: " + question + "\n\n" + format;
    TemplateShape(intro + heading, c, question, format);
    ContainsAt(r, "Question: " + question, |intro| + |heading| + |c| + 2);
    PrefixParts(r, intro, heading);
    ContextAfterHeading(intro + heading, c, "\n\nQuestion: " + question + "\n\n" + format);
  }

  /** A prefix made of two parts: the first opens the text and the second
      follows it directly. */
  lemma PrefixParts(r: string, a: string, b: string)
    requires |r| >= |a| + |b| && r[..|a| + |b|] == a + b
    ensures r[..|a|] == a && OccursAt(r, b, |a|)
  {
    assert r[..|a|] == r[..|a| + |b|][..|a|];
    assert r[|a|..|a| + |b|] == r[..|a| + |b|][|a|..];
  }

  lemma ContextAfterHeading(head: string, c: string, tail: string)
    ensures OccursAt(head + c + tail, c, |head|)
  {
    OccursInConcat(head, c, tail);
  }

  lemma PlainPromptShape(question: string)
    ensures var r := PlainScoringPrompt(question);
            |r| >= |CoachIntro| && r[..|CoachIntro|] == CoachIntro &&
            Contains(r, "Question: " + question) &&
            |r| >= |FeedbackFormat| && r[|r| - |FeedbackFormat|..] == FeedbackFormat &&
            !HasContextBlock(r)
  {
    var r := PlainScoringPrompt(question);
    TemplateShape(CoachIntro, "", question, FeedbackFormat);
    assert r == CoachIntro + "" + "\n\nQuestion: " + question + "\n\n" + FeedbackFormat;
    ContainsAt(r, "Question: " + question, |CoachIntro| + 2);
    assert ContextHeading[2] == 'C';
  }

  /** Where the parts of a feedback template end up in the prompt. */
  lemma TemplateShape(intro: string, block: string, question: string, format: string)
    ensures var r := intro + block + "\n\nQuestion: " + question + "\n\n" + format;
            r[..|intro|] == intro &&
            OccursAt(r, "Question: " + question, |intro| + |block| + 2) &&
            |r| >= |format| && r[|r| - |format|..] == format &&
            r[|intro| + |block| + 2] == 'Q'
  {
    var r := intro + block + "\n\nQuestion: " + question + "\n\n" + format;
    assert r == intro + (block + "\n\n") + ("Question: " + question) + ("\n\n" + format);
    OccursInConcat(intro + (block + "\n\n"), "Question: " + question, "\n\n" + format);
  }

  /** How question-only mode turns the completion service's answer into a
      response: every failure, whatever its status, is a 500. */
  function QuestionReply(u: Upstream): (r: Response)
    ensures r.status == 200 <==> u.Replied? && IsOk(u.status) && u.content.Success?
    ensures r.status == 200 ==> r.body == FeedbackBody(u.content.value)
    ensures r.status != 200 ==> r.status == 500 && r.body.ErrorBody?
    ensures u.Replied? && !IsOk(u.status) ==> r == Failed(UnavailableMessage)
  {
    match u
    case Unreachable(m) => Failed(m)
    case Replied(status, content) =>
      if !IsOk(status) then Failed(UnavailableMessage)
      else match content
        case Success(feedback) => Succeeded(feedback)
        case Failure(m) => Failed(m)
  }

  /** How scoring mode turns the completion service's answer into a
      response: 429 and 402 are passed on with their own messages, every
      other failure is a 500. */
  function ScoringReply(u: Upstream): (r: Response)
    ensures r.status == 200 <==> u.Replied? && IsOk(u.status) && u.content.Success?
    ensures r.status == 200 ==> r.body == FeedbackBody(u.content.value)
    ensures r.status == 429 <==> u.Replied? && u.status == 429
    ensures r.status == 402 <==> u.Replied? && u.status == 402
    ensures r.status == 429 ==> r.body == ErrorBody(RateLimitMessage)
    ensures r.status == 402 ==> r.body == ErrorBody(CreditsMessage)
    ensures u.Replied? && !IsOk(u.status) && u.status != 429 && u.status != 402 ==>
              r == Failed(UnavailableMessage)
    ensures r.status !in {200, 402, 429} ==> r.status == 500 && r.body.ErrorBody?
  {
    match u
    case Unreachable(m) => Failed(m)
    case Replied(status, content) =>
      if !IsOk(status) then
        if status == 429 then Response(429, ErrorBody(RateLimitMessage), true)
        else if status == 402 then Response(402, ErrorBody(CreditsMessage), true)
        else Failed(UnavailableMessage)
      else match content
        case Success(feedback) => Succeeded(feedback)
        case Failure(m) => Failed(m)
  }

  /** The handler. A call goes out exactly when the request is not a
      preflight, its body parsed and the credential is configured; the
      response status is always one of 200, 402, 429 and 500. */
  function Handle(req: Request, apiKey: string, upstream: Upstream): (x: Exchange)
    ensures x.call.Some? <==> req.Post? && req.body.Success? && apiKey != ""
    ensures x.call.Some? ==> x.call.value.model == ChatModel
    ensures req.Preflight? ==> x.response == Response(200, NoBody, false)
    ensures req.Post? && req.body.Failure? ==> x.response == Failed(req.body.error)
    ensures req.Post? && req.body.Success? && apiKey == "" ==>
              x.response == Failed(MissingKeyMessage)
    ensures x.response.status in {200, 402, 429, 500}
    ensures req.Post? && x.response.status == 200 ==>
              x.call.Some? && upstream.Replied? && upstream.content.Success? &&
              x.response.body == FeedbackBody(upstream.content.value)
  {
    match req
    case Preflight => Exchange(None, Response(200, NoBody, false))
    case Post(Failure(m)) => Exchange(None, Failed(m))
    case Post(Success(p)) =>
      if apiKey == "" then Exchange(None, Failed(MissingKeyMessage))
      else if IsQuestionRequest(p) then
        Exchange(Some(ChatCall(ChatModel, QuestionPrompt(ContextBlock(p)), QuestionUserMessage)),
                 QuestionReply(upstream))
      else
        Exchange(Some(ChatCall(ChatModel, ScoringPrompt(p), p.answer)), ScoringReply(upstream))
  }

  /** The call the handler makes depends on the request and the credential
      only, never on what the completion service will answer. */
  lemma CallIndependentOfUpstream(req: Request, apiKey: string, u1: Upstream, u2: Upstream)
    ensures Handle(req, apiKey, u1).call == Handle(req, apiKey, u2).call
  {
  }

  /** Question-only mode is taken exactly for the sentinel answer on a Custom
      interview with some context: then the system prompt embeds the joined
      context and the user turn is fixed; otherwise the request is scored and
      its answer, sentinel or not, is the user turn verbatim. */
  lemma QuestionModeIff(p: Payload, apiKey: string, u: Upstream)
    requires apiKey != ""
    ensures var x := Handle(Post(Success(p)), apiKey, u);
            x.call.Some? &&
            ((x.call.value.user == QuestionUserMessage &&
              x.call.value.system == QuestionPrompt(ContextBlock(p))) <==> IsQuestionRequest(p))
    ensures var x := Handle(Post(Success(p)), apiKey, u);
            !IsQuestionRequest(p) ==>
              x.call == Some(ChatCall(ChatModel, ScoringPrompt(p), p.answer))
  {
    if !IsQuestionRequest(p) {
      QuestionPromptShape(ContextBlock(p));
      assert ScoringPrompt(p) != QuestionPrompt(ContextBlock(p));
    }
  }

  /** The system prompt of question-only mode opens with the question
      sentence, follows it with the context heading and the joined context,
      and closes with the question criteria. It never ends with the response
      format of scoring mode, so it never asks for a score. */
  lemma QuestionPromptShape(c: string)
    ensures var r := QuestionPrompt(c);
            |r| >= |QuestionIntro| && r[..|QuestionIntro|] == QuestionIntro &&
            OccursAt(r, ContextHeading, |QuestionIntro|) &&
            OccursAt(r, c, |QuestionIntro| + |ContextHeading|) &&
            EndsWith(r, QuestionCriteria) &&
            !EndsWith(r, FeedbackFormat)
  {
    var r := QuestionPrompt(c);
    QuestionTemplateShape(QuestionIntro, ContextHeading, c, QuestionCriteria);
    assert QuestionCriteria[|QuestionCriteria| - 2] == 'e';
    assert FeedbackFormat[|FeedbackFormat| - 2] == 's';
    assert r[|r| - 2] == r[|r| - |QuestionCriteria|..][|QuestionCriteria| - 2];
    if |r| >= |FeedbackFormat| {
      assert r[|r| - 2] == r[|r| - |FeedbackFormat|..][|FeedbackFormat| - 2];
    }
  }

  /** Where the parts of the question template end up in the prompt. */
  lemma QuestionTemplateShape(intro: string, heading: string, c: string, criteria: string)
    ensures var r := intro + heading + c + "\n\n" + criteria;
            |r| >= |intro| && r[..|intro|] == intro &&
            OccursAt(r, heading, |intro|) && OccursAt(r, c, |intro| + |heading|) &&
            EndsWith(r, criteria)
  {
    var r := intro + heading + c + "\n\n" + criteria;
    assert r[..|intro| + |heading|] == intro + heading;
    PrefixParts(r, intro, heading);
    ContextAfterHeading(intro + heading, c, "\n\n" + criteria);
    assert r == (intro + heading + c + "\n\n") + criteria;
  }

  /** Scoring mode passes 429 and 402 on and turns every other failed status
      into a 500; question-only mode turns every failed status into a 500. */
  lemma StatusTable(p: Payload, apiKey: string, status: int, content: Result<string, string>)
    requires apiKey != "" && !IsOk(status)
    ensures var r := Handle(Post(Success(p)), apiKey, Replied(status, content)).response;
            if IsQuestionRequest(p) then r == Failed(UnavailableMessage)
            else if status == 429 then r == Response(429, ErrorBody(RateLimitMessage), true)
            else if status == 402 then r == Response(402, ErrorBody(CreditsMessage), true)
            else r == Failed(UnavailableMessage)
  {
  }

  /** A 429 or 402 reaches the caller only from scoring mode, and only when
      the completion service answered with that very status. */
  lemma PassedOnStatuses(req: Request, apiKey: string, u: Upstream)
    ensures var r := Handle(req, apiKey, u).response;
            r.status in {402, 429} <==>
              req.Post? && req.body.Success? && apiKey != "" && !IsQuestionRequest(req.body.value) &&
              u.Replied? && u.status in {402, 429} && r.status == u.status
  {
  }
}
