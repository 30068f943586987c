# InterviewMe: the interview page and the analyze-interview relay

InterviewMe is a voice interview-practice app. The user gives a resume and a
job description. The page offers interview categories that suit that role
and asks questions: stock ones picked at random, or, for the Custom category,
ones generated from the user's context. The page sends each answer to the
`analyze-interview` edge function, which relays it to a chat-completion
service and returns structured feedback.

The model covers the two places where the app makes decisions:

- **The interview page** (`src/pages/Index.tsx`). Its React state is a
  `Session` class in `interview_page.dfy`, and its event handlers are
  methods on that class:
  - the answer guard and the analysis request;
  - the role classifier (`role_classifier.dfy`);
  - the category filter and the card click;
  - question generation and the regular expression that extracts the
    question (`question_extraction.dfy`);
  - the recording and next-question handlers.

  What the relay answers and the index the random draw gives are parameters.
  A handler that calls the relay returns the body it sends, or `None` when it
  sends nothing.
- **The relay** (`supabase/functions/analyze-interview/index.ts`), in
  `relay.dfy`. It is a pure function `Handle` from three inputs to an
  `Exchange`:
  - the inputs are the request (a preflight, or a parsed or unparsable JSON
    body), the configured credential, and what the completion service does;
  - the `Exchange` holds the chat call made, if any, and the response.

`text.dfy` states the JavaScript string operations both parts rely on:
- UTF-16 `length`;
- `trim`, with the ECMAScript whitespace set;
- ASCII `toLowerCase`;
- `includes`;
- `filter(Boolean).join`.

`protocol.dfy` holds the request body the two parts share. `client_relay.dfy`
joins the two parts. It models `supabase.functions.invoke`: a 2xx response
gives the parsed body as data, and any other status gives an error. It then
states what the page ends up showing for what the completion service did.

Some consequences that the lemmas make explicit:
- The sentinel answer `GENERATE_QUESTION_ONLY` has 22 characters, so it passes
  the page's ten-character guard. Typed as an answer in a Custom session with
  context, it gets a generated question instead of a score
  (`ClientRelay.TypedSentinelIsNotScored`).
- The keyword `"pm "` can match across the space that joins the two fields. A
  resume ending in "PM" therefore marks the role as a product role
  (`RoleClassifier.TrailingPmIsProduct`).
- The extraction expression needs a `\n` or the end of the text after the
  question. Suppose the marker is the only one in the reply, its question
  sits on the marker's own line, and that line ends in `\r\n`. Then the
  marker is not matched, and the whole reply, marker included, becomes the
  question (`QuestionExtraction.CarriageReturnDefeatsMarker`).
- The greedy `\s*` after the marker can run over line breaks. When the
  marker is followed by a space, a line break and then a question line that
  ends in `\n` or at the end of the reply, that next line is the question
  (`QuestionExtraction.BlankAfterMarkerIsSkipped`). When that next line ends
  in `\r\n` instead, no capture can start on it. `\s*` then gives back the
  line break, the lone space before it is captured, and the question is ""
  (`QuestionExtraction.CarriageReturnAfterBlankLine`). The page then shows
  no question card, since it renders the card only for a non-empty question
  (src/pages/Index.tsx:350).

## Model

| member | source | states |
|---|---|---|
| Text.Utf16Length | src/pages/Index.tsx:41 | `length` counts UTF-16 code units: at least one and at most two per character |
| Text.Utf16LengthOfBmp | src/pages/Index.tsx:41 | for text in the Basic Multilingual Plane, `length` is the number of characters |
| Text.Trim | src/pages/Index.tsx:177 | the trimmed text neither starts nor ends with whitespace |
| Text.TrimCutsWhitespace | src/pages/Index.tsx:177 | the trimmed text is a slice of the input, and only whitespace is cut from either end |
| Text.TrimPadded | src/pages/Index.tsx:177 | trimming whitespace padding off a string without outer whitespace gives back exactly that string |
| Text.Lower | src/pages/Index.tsx:100 | ASCII lower-casing keeps the length, leaves no upper-case ASCII letter, moves each upper-case ASCII letter 32 code points down to its lower-case partner and keeps every other character (non-ASCII case mappings are left out) |
| Text.LowerConcat | src/pages/Index.tsx:100 | lower-casing a concatenation is concatenating the lower-cased parts |
| Text.LowerKeepsLowerCase | src/pages/Index.tsx:100 | text without upper-case letters is left unchanged |
| Text.LowerIdempotent | src/pages/Index.tsx:100 | lower-casing twice is lower-casing once |
| Text.ContainsInfix | src/pages/Index.tsx:107-111 | a text that contains a pattern contains every infix of that pattern |
| Text.NonEmpty | supabase/functions/analyze-interview/index.ts:25 | `filter(Boolean)` keeps exactly the non-empty strings of the list and never grows it |
| Text.NonEmptyConcat | supabase/functions/analyze-interview/index.ts:25 | filtering keeps the order: filtering a concatenation is concatenating the filtered parts |
| Text.JoinNonEmptyPair | supabase/functions/analyze-interview/index.ts:25 | joining the non-empty ones of two strings gives both with the separator between them when both are non-empty, and otherwise the one that is non-empty (or "") |
| Relay.ContextBlock | supabase/functions/analyze-interview/index.ts:25 | the context is "" exactly when both fields are empty; otherwise it is the resume, the job description, or both joined by a blank line, in that order |
| Relay.QuestionPromptShape | supabase/functions/analyze-interview/index.ts:24-36 | the question-only prompt (`QuestionPrompt`) opens with the question sentence, then the "Context:" heading, then the joined context, and closes with the question criteria; it never ends with the scoring format |
| Relay.ScoringPrompt | supabase/functions/analyze-interview/index.ts:66-113 | the scoring prompt opens with the coach sentence, quotes "Question: " and the question, and ends with the fixed feedback format; it has a context block exactly for a Custom interview with some context, and that block holds the joined context |
| Relay.QuestionReply | supabase/functions/analyze-interview/index.ts:53-63 | in question-only mode, success (200 with the completion's content) happens exactly when the service answered OK with content; a non-OK status becomes 500 "AI service temporarily unavailable", and every other failure is a 500 too |
| Relay.ScoringReply | supabase/functions/analyze-interview/index.ts:130-154 | in scoring mode, 200 with the content on success; 429 and 402 exactly when the service answered them, with the rate-limit and credits messages; every other non-OK status gives 500 "AI service temporarily unavailable" |
| Relay.Handle | supabase/functions/analyze-interview/index.ts:8-161 | a call goes out exactly for a non-preflight request whose body parsed and with a configured key, always to gpt-4o-mini; a preflight gets an empty 200; an unparsable body and a missing key give 500 with their messages; the status is always 200, 402, 429 or 500; a 200 for a POST carries the completion's content |
| Relay.CallIndependentOfUpstream | supabase/functions/analyze-interview/index.ts:13-128 | the call made depends only on the request and the key, never on what the service answers |
| Relay.QuestionModeIff | supabase/functions/analyze-interview/index.ts:24 | question-only mode (question prompt with the joined context, fixed user turn) is taken exactly for the sentinel answer on a Custom interview with context; any other request, including a sentinel answer in other conditions, is scored with its answer as the user turn |
| Relay.StatusTable | supabase/functions/analyze-interview/index.ts:130-146 | for a failed status: question-only mode always gives 500 "AI service temporarily unavailable"; scoring mode gives 429 or 402 with their messages, and 500 otherwise |
| Relay.PassedOnStatuses | supabase/functions/analyze-interview/index.ts:130-142 | a 429 or 402 reaches the client exactly when a scoring request got that same status from the service |
| QuestionExtraction.CaptureFrom | src/pages/Index.tsx:176 | the lazy capture followed by a newline or the end of the text succeeds at a position exactly when a non-empty run without line terminators ends there at a `\n` or the end, and it captures up to the first line terminator |
| QuestionExtraction.BackOff | src/pages/Index.tsx:176 | the greedy `\s*` backing off succeeds exactly when the capture succeeds at one of the positions it gives back, and it returns the capture at the latest such position |
| QuestionExtraction.MatchAt | src/pages/Index.tsx:176 | the expression tried at one index succeeds exactly when a match starts there, and it returns that match's capture |
| QuestionExtraction.MatchAtLatest | src/pages/Index.tsx:176 | at one index the capture returned is the one that starts latest: `\s*` gives back as little as it can |
| QuestionExtraction.Search | src/pages/Index.tsx:176 | the search from an index succeeds exactly when some match starts at or after it, and it returns that match's capture |
| QuestionExtraction.SearchFindsFirst | src/pages/Index.tsx:176 | the search returns the capture of the first match: no match starts earlier, and at its start none begins later |
| QuestionExtraction.MatchEndsAtLineEnd | src/pages/Index.tsx:176 | a capture always runs to the first line terminator after its start |
| QuestionExtraction.FirstMatchUnique | src/pages/Index.tsx:176 | the first match is unique: its marker, its capture start and its capture end are all determined |
| QuestionExtraction.ExtractQuestion | src/pages/Index.tsx:176-177 | the question is the trimmed capture of the first match (leftmost marker, latest capture start), or the trimmed whole reply when nothing matches |
| QuestionExtraction.BlankAfterMarkerIsSkipped | src/pages/Index.tsx:176-177 | for the reply made of the marker, a space, a line break and "What?", the question is "What?": the greedy `\s*` runs over the blank line to a next line that ends at the end of the reply |
| QuestionExtraction.CarriageReturnAfterBlankLine | src/pages/Index.tsx:176-177 | when the first marker is followed by a space, a line break and a visible line that ends in `\r`, `\s*` backs off to the lone space, which is captured, so the question is "" |
| QuestionExtraction.NoMarkerMeansWholeReply | src/pages/Index.tsx:177 | a reply without `**Question**:` is taken whole, trimmed |
| QuestionExtraction.MarkedLineIsTheQuestion | src/pages/Index.tsx:176-177 | when the marker is followed by whitespace and then a line ending in `\n` or at the end, the question is that line, trimmed |
| QuestionExtraction.LeftmostCapture | src/pages/Index.tsx:176 | at the first marker, a visible line after the whitespace is the capture |
| QuestionExtraction.SearchSkips | src/pages/Index.tsx:176 | the search passes over every index before the first marker |
| QuestionExtraction.CarriageReturnDefeatsMarker | src/pages/Index.tsx:176-177 | when the marker is the only one in the reply and its question sits on the marker's own line and ends in `\r`, nothing matches, so the whole reply, trimmed, is taken |
| QuestionExtraction.StopsAtCarriageReturn | src/pages/Index.tsx:176 | when the only marker is followed by whitespace and a visible line that reaches a `\r` before any other line terminator, the expression matches nowhere |
| RoleClassifier.RoleText | src/pages/Index.tsx:100 | the role text is the lower-cased resume, one space, then the lower-cased job description, and holds no upper-case ASCII letter |
| RoleClassifier.CategoryList | src/pages/Index.tsx:101-136 | "Behavioral" comes first and the list has 1 to 6 entries; "Technical" is in it exactly when some rule matched, "Coding" exactly when the technical or data rule matched; no other category appears |
| RoleClassifier.CategoryCounts | src/pages/Index.tsx:104-136 | duplicates stay: "Technical" once per matching rule, "Coding" once per matching technical or data rule, "Behavioral" once |
| RoleClassifier.MentionsAnyConcat | src/pages/Index.tsx:107-131 | a keyword of two lists put together is a keyword of one of them |
| RoleClassifier.CategoriesFromKeywords | src/pages/Index.tsx:104-136 | the categories of a role text (`Categories`, built from the rule predicates `IsTechnical`, `IsProduct` and `IsData`) start with "Behavioral", hold "Technical" exactly when the text contains a keyword of any of the three lists, and "Coding" exactly when it contains a technical or a data keyword |
| RoleClassifier.DataEngineerImpliesEngineer | src/pages/Index.tsx:107-111 | a text containing "data engineer" also contains "engineer" |
| RoleClassifier.TrailingPmIsProduct | src/pages/Index.tsx:121-122 | a resume whose last two letters are "pm", in any case, makes the role a product role, whatever the job description |
| RoleClassifier.CaseInsensitive | src/pages/Index.tsx:100 | fields that differ only in ASCII letter case give the same categories |
| InterviewPage.VisibleIndices | src/pages/Index.tsx:321-324 | the grid shows, in list order, exactly the types named "Custom" or listed in the relevant categories |
| InterviewPage.RandomQuestion | src/pages/Index.tsx:143-147 | "" without a selected type; otherwise a question of the selected type's list ("" for an empty list) |
| InterviewPage.GeneratedQuestion | src/pages/Index.tsx:152-192 | "" without context; the fallback question when the call fails; otherwise the question extracted from the reply, which is the whole trimmed reply when it has no marker |
| InterviewPage.Session.constructor | src/pages/Index.tsx:16-22 | every piece of state starts empty, false or unselected |
| InterviewPage.Session.BeginAnalysis | src/pages/Index.tsx:40-60 | nothing is sent and nothing changes exactly when the answer is under ten UTF-16 units or no type is selected; otherwise `isAnalyzing` is set and the answer is sent with the type, question and context |
| InterviewPage.Session.FinishAnalysis | src/pages/Index.tsx:62-94 | on success the feedback is replaced and spoken, on failure it is kept; `isAnalyzing` is false afterwards either way |
| InterviewPage.Session.AnalyzeAnswer | src/pages/Index.tsx:40-95 | the guard and the request together: no call and no change for a short answer or no type; otherwise the payload sent, the feedback replaced only on success, and `isAnalyzing` cleared |
| InterviewPage.Session.AnalyzeJobContext | src/pages/Index.tsx:97-140 | nothing changes without context; otherwise the categories built one push at a time equal the classifier's list for the role text, and the context is marked as provided |
| InterviewPage.Session.GenerateCustomQuestion | src/pages/Index.tsx:152-192 | the sentinel request for Custom is sent exactly when there is context; the result is the generated question; the generating flag is cleared afterwards |
| InterviewPage.Session.StartRecording | src/pages/Index.tsx:194-198 | the transcript and the feedback are cleared and listening starts |
| InterviewPage.Session.StopRecording | src/pages/Index.tsx:200-212 | listening stops and the trimmed captured transcript goes through the answer guard and the analysis: nothing changes for a short answer or no type; otherwise the feedback is replaced and spoken on success and kept on failure |
| InterviewPage.Session.NextQuestion | src/pages/Index.tsx:214-224 | a Custom session gets a generated question, any other a random one of its type; the transcript and feedback are cleared and speech stops; the generating flag is false after a generation request and untouched otherwise |
| InterviewPage.Session.SelectCard | src/pages/Index.tsx:330-343 | the card becomes selected, the transcript and feedback are cleared and speech stops; Custom gets a generated question, a type with questions gets one of them, and an empty list keeps the old question; the generating flag is false after a generation request and untouched otherwise |
| ClientRelay.Invoke | src/pages/Index.tsx:63-75 | the page gets data exactly for a 2xx response, and then the relay's feedback |
| ClientRelay.GenerationEndToEnd | src/pages/Index.tsx:152-192 | with context and a key, the page's generation request takes question-only mode with the joined context in the prompt, and the page ends up with the question extracted from the completion, or the fallback when anything fails |
| ClientRelay.MissingKeyGivesFallback | supabase/functions/analyze-interview/index.ts:17-19 | without a key every generated question is the fallback question |
| ClientRelay.AnswerEndToEnd | src/pages/Index.tsx:62-75 | an ordinary answer is scored with the answer as the user turn; the page gets data exactly when the service succeeded, and that data is the completion's content |
| ClientRelay.TypedSentinelIsNotScored | supabase/functions/analyze-interview/index.ts:24 | the sentinel passes the page's length guard, and sent as an answer in a Custom session with context it gets a generated question |

## Left out

- Rendering: the JSX, styling and the card, recorder and feedback components are markup. The disabled states of the buttons are not modelled.
- Resume upload: PDF text extraction and the MIME-type check are left out. The resume is just the `customContext` field.
- Network: `supabase.functions.invoke` and the `fetch` to the completion service are parameters (`InvokeOutcome`, `Upstream`). The request headers, the bearer token and the JSON encoding of the call are not modelled. `ClientRelay.Invoke` models invoke as "2xx gives data, anything else gives an error".
- Speech: recognition and synthesis are opaque. `listening` and `speech` record only what the page asked for. The page renders its handlers only when both are supported, so `speak` is modelled as always called.
- Randomness: `Math.random` becomes a `pick` index, constrained to the list length.
- The 1200 ms wait in `handleStopRecording` is not modelled. The transcript it reads is the one captured when the handler was created, so it is a parameter.
- Asynchrony: each handler runs to completion in one method. Interleavings of overlapping requests are not modelled.
- Toasts, console logging and the CORS header values carry no state and are left out. A response records only whether it declares a JSON content type.
- `INTERVIEW_TYPES`: its source is not part of this model, so it is the constructor's argument. The card handler takes the card's index directly, instead of searching for it with `indexOf`. The two agree when no type object appears twice in the list.
- Text.Lower: `toLowerCase` is modelled for ASCII letters only, and every other character is kept. JavaScript also lower-cases non-ASCII letters; U+212A KELVIN SIGN, for one, becomes "k". A role text that reaches a keyword only through such a mapping is classified differently by the model.
- RoleClassifier.RoleText: built on `Text.Lower`, so the same ASCII-only limit applies.
- Absent or `undefined` body fields are modelled as "". A JSON field of another type (number, object) is not modelled.
- InterviewPage.RandomQuestion: for an empty question list JavaScript gives `undefined`. The model gives "". The difference is visible at the relay. An `undefined` question is dropped from the JSON body, and the scoring template then writes "Question: undefined". The model writes "Question: " followed by nothing.
- Relay.ScoringReply: for a non-OK status other than 429 and 402, the relay reads the error body with `response.text()` before it throws. If that read itself fails, its message replaces "AI service temporarily unavailable" in the 500 response. `Upstream` has no outcome for that read, so the model always gives the fixed message.
- A `choices[0].message.content` that is missing or not a string is modelled only as a read that fails with a message (`Failure`). A `null` or non-string value that would be passed through is not modelled.
