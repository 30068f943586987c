/** What the interview page and the analyze-interview relay exchange: the JSON
    body the page sends, the sentinel answer that asks for a question instead
    of a score, and what a call to the relay gives back to the page. */
module Protocol {

  datatype Option<T> = None | Some(value: T)

  datatype Result<T, E> = Success(value: T) | Failure(error: E)

  /** The JSON request body `{answer, interviewType, question, customContext,
      jobDescription}`; an absent or `undefined` field is modelled as "". */
  datatype Payload = Payload(
    answer: string,
    interviewType: string,
    question: string,
    customContext: string,
    jobDescription: string)

  /** The answer that means "generate a question" rather than "score this". */
  const QuestionSentinel: string := "GENERATE_QUESTION_ONLY"

  /** The interview type whose questions come from the user's own context. */
  const CustomType: string := "Custom"

  /** The body the page sends to have a question generated from its context. */
  function GenerationRequest(customContext: string, jobDescription: string): Payload
  {
    Payload(QuestionSentinel, CustomType, "", customContext, jobDescription)
  }

  /** At least one context field is truthy (a non-empty string). */
  predicate HasContext(p: Payload)
  {
    p.customContext != "" || p.jobDescription != ""
  }

  /** What `supabase.functions.invoke` resolves to, as the page sees it: the
      `feedback` field of the returned data, or an error. */
  datatype InvokeOutcome = Data(feedback: string) | InvokeError(message: string)
}
