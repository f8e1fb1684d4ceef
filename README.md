# Survey page session model

This project models the browser survey page of `script.js`. The page loads a
list of questions from `questions.json`, shows them one at a time, and takes
each answer either typed into a text box or recorded from the microphone. Every
answer is handed to `saveToFile`, which offers it as a download named after
the question id and the time of saving:

- `answer_q{id}_{ts}.txt` holds the trimmed text as a JSON string;
- `audio_q{id}_{ts}.webm` holds the recorded chunks.

After each saved answer the page moves to the next question. After the last one
it shows a thank-you message and disables every control.

The model has three layers:

- **Values** (`options.dfy`, `jsstring.dfy`, `json.dfy`, `decimal.dfy`,
  `filenames.dfy`). These are the pieces of JavaScript the handlers rely on:
  `String.prototype.trim` (section 22.1.3.32 of ECMA-262), `JSON.stringify` of
  a string (QuoteJSONString, section 25.5.2.3 of ECMA-262), decimal printing in
  template literals, and the two download-name patterns. The last three have
  a partner, and each pair is proved to round-trip:
  - a JSON string decoder (section 7 of RFC 8259);
  - decimal parsers;
  - a file-name parser.

  `trim` has no inverse. Its own contract fixes the result (the longest
  blank prefix and suffix are cut), and TrimEmptyIffBlank ties an empty
  result to an all-white-space answer.
- **The state machine** (`survey.dfy`, module `Survey`). The whole page is one
  value `Page`:
  - the script's variables;
  - the text box's value and disabled flag;
  - the three buttons' disabled flags;
  - the question heading and the status line;
  - the list of downloads.

  Each handler is a function `On*` from page to page, and `Run` applies a
  sequence of events. `Delivered` states when the browser delivers an event:
  clicks only on enabled controls, the recorder's callbacks only in the
  matching recorder state, and the load once.
- **The page object** (`session.dfy`, class `SurveyPage.Session`). It has one
  field per piece of state and one method per handler. Each method updates the
  fields in the script's order and is proved to end in exactly the page that
  the corresponding `Survey` function computes. So everything proved about the
  functions in `properties.dfy` (module `SurveyProperties`) holds of the
  object.

The main results:

- **Per handler:**
  - a blank submit only sets the status line;
  - a non-blank submit saves the trimmed answer as a JSON string under
    `answer_q{id}_{ts}.txt` and advances once;
  - stop is a no-op unless the recorder is recording;
  - denied or unsupported recording only sets the status line;
  - every chunk is appended in order;
  - the stop callback with no question left saves nothing.
- **Preserved by every delivered event:**
  - the index stays within the questions and equals the number of downloads;
  - text mode and recording mode exclude each other;
  - the finished page has every control disabled;
  - download k answers question k, that is, it carries the question's id and
    the right kind of content.
- **Runs:**
  - a recording saves exactly the concatenation of its chunks;
  - answering every question in writing yields one download per question, in
    order, then the finished page;
  - a two-question walk-through yields the concrete file names and contents.

Three details of `script.js` shape the model:

- the text download is named `answer_q…` (script.js:103);
- an empty or failed load only writes the status line and disables no
  control (script.js:31-36);
- the "saved" status written on each answer survives only after the last
  question, because displaying the next question clears the status line
  (script.js:106-107, 49).

## Model

| member | source | states |
|---|---|---|
| JsString.TrimStart | script.js:95 | the result is the suffix of the input left after a blank prefix, and does not start with white space |
| JsString.TrimEnd | script.js:95 | the result is the prefix of the input left before a blank suffix, and does not end with white space |
| JsString.Trim | script.js:95 | `trim()` returns a slice of the input; everything cut away on either side is white space (ECMA-262 WhiteSpace and LineTerminator), and the result neither starts nor ends with white space |
| JsString.TrimEmptyIffBlank | script.js:95-99 | the answer trims to the empty string exactly when it is all white space, which is exactly when the submit handler rejects it |
| JsString.TrimUntouched | script.js:95 | an answer without leading or trailing white space is saved as typed |
| JsString.TrimIdempotent | script.js:95 | trimming a trimmed answer changes nothing |
| Json.EscapePlain | script.js:73 | JSON.stringify writes a string with no quote, backslash or control character unchanged between its quotes |
| Json.UnescapeEscapeChar | script.js:73 | each character's escape decodes back to that character, whatever follows it |
| Json.UnescapeEscape | script.js:73 | decoding the escaped body of any string gives the string back |
| Json.QuoteRoundTrip | script.js:73 | the text download is a well-formed JSON string literal that decodes to exactly the trimmed answer |
| Decimal.DigitChar | script.js:103 | the digit character of d is a decimal digit whose value is d |
| Decimal.NatToDecimal | script.js:103 | `${Date.now()}` prints a non-empty string of digits with no leading zero unless the value is 0 |
| Decimal.IntToDecimal | script.js:102-103 | `${questionId}` prints a minus sign exactly for negative ids, followed by digits |
| Decimal.DecimalValueOfNatToDecimal | script.js:103 | the printed digits have the printed number as their value |
| Decimal.NatRoundTrip | script.js:103 | parsing a printed timestamp gives the timestamp back |
| Decimal.IntRoundTrip | script.js:106 | parsing a printed question id gives the id back |
| FileNames.SplitAtFirstUnderscore | script.js:103 | a name is split at the underscore that follows the question id, because a printed id contains none |
| FileNames.FileNameRoundTrip | script.js:103 | `answer_q{id}_{ts}.txt` and `audio_q{id}_{ts}.webm` parse back to their kind, question id and timestamp |
| FileNames.FileNameInjective | script.js:133 | two downloads share a name only if they are the same kind of answer to the same question at the same millisecond |
| Json.EscapeChar | script.js:73 | a character is written as itself exactly when it is not a quote, backslash or control character; otherwise as an escape of at most six characters starting with a backslash (partner: UnescapeEscapeChar) |
| Json.Escape | script.js:73 | the escaped body is at least as long as the string and at most six times as long (partner: UnescapeEscape) |
| Json.Quote | script.js:73 | JSON.stringify of a string is its escaped body between two quotes (partner: QuoteRoundTrip) |
| FileNames.FileName | script.js:103 | a download name (here and at script.js:133) begins with its kind's prefix and is longer than prefix and extension together (partners: FileNameRoundTrip, FileNameInjective) |
| Survey.Flatten | script.js:123 | `new Blob(chunks)` of a single chunk is that chunk, and the blob ends with the last chunk (partner: FlattenAppend) |
| Survey.Encode | script.js:73 | a text answer becomes a JSON file and a recording a webm file holding the recorded bytes (partner: EncodeTextRoundTrip) |
| Survey.Display | script.js:41-61 | displayQuestion keeps index, downloads, questions and recorder, and enables the text box, submit and start exactly when a question is left (partners: DisplayInBounds, DisplayPastEnd) |
| Survey.NextQuestion | script.js:88-91 | nextQuestion moves the index by one, keeps the downloads, and enables submit exactly when the new index names a question (partner: NextQuestionAfterSave) |
| Survey.SaveToFile | script.js:64-82 | saveToFile adds exactly one download at the end, the given name with the encoded data, writes the status naming the file (SavedStatus, script.js:70), and keeps index, questions and recorder (partner: AnswerToSaved) |
| Survey.OnLoadOk | script.js:28-33 | a successful load stores the questions, marks the load finished, keeps index and downloads, and with no questions shows the no-questions message (partners: LoadWithoutQuestions, LoadShowsFirst) |
| Survey.OnLoadFail | script.js:34-36 | a failed load shows the load error, marks the load finished and keeps questions, index and downloads (partner: LoadWithoutQuestions) |
| Survey.OnTypeAnswer | script.js:95 | typing sets the text box to what was typed and keeps index and downloads |
| Survey.OnSubmitText | script.js:94-109 | submit keeps questions and recorder, and either keeps index and downloads or, with a question left, advances by one (partners: SubmitBlank, SubmitAnswer, SubmitPastEnd) |
| Survey.OnStartGranted | script.js:115-146 | a granted start empties the chunks and starts recording, keeping index, downloads and questions (partner: StartOutcomes) |
| Survey.OnStartDenied | script.js:148-151 | a denied start shows the microphone error and keeps recorder, index and downloads (partner: StartOutcomes) |
| Survey.OnUnsupported | script.js:152-154 | a start without getUserMedia shows the not-supported message and keeps recorder, index and downloads (partner: StartOutcomes) |
| Survey.OnDataAvailable | script.js:118-120 | a chunk is appended as the last element of the buffer, keeping index, downloads and recorder (partner: FeedAppends) |
| Survey.OnStopClick | script.js:158-167 | stop keeps index, downloads and chunks, and changes the page only when recording, into the stop-pending state (partner: StopClickEffect) |
| Survey.OnRecorderStopped | script.js:122-138 | the stop callback leaves the recorder inactive, and with a question left adds one download and advances by one, otherwise keeps index and downloads (partners: StoppedInBounds, StoppedPastEnd) |
| SurveyProperties.DisplayInBounds | script.js:42-52 | with a question left, displayQuestion shows its text, clears the text box, the chunks and the status, enables start, submit and the text box, and changes nothing else that is tracked |
| SurveyProperties.DisplayPastEnd | script.js:53-60 | past the last question, displayQuestion shows the thank-you message and disables all four controls |
| SurveyProperties.LoadWithoutQuestions | script.js:29-36 | an empty or failed load only sets its status message (and marks the load finished); no control is disabled |
| SurveyProperties.StepAdvancesWithOneSave | script.js:88-91 | no event moves the index except by exactly one from an existing question, and then exactly one download is added at the end; otherwise index and downloads stay |
| SurveyProperties.SubmitOneStep | script.js:94-109 | the submit handler either keeps index and downloads or advances by one with one download added |
| SurveyProperties.StoppedOneStep | script.js:122-138 | the stop callback either keeps index and downloads or advances by one with one download added |
| SurveyProperties.SubmitBlank | script.js:95-99 | a blank answer only sets "Please enter an answer." |
| SurveyProperties.SubmitAnswer | script.js:101-108 | a non-blank answer to an existing question saves answer_q{id}_{ts}.txt holding the JSON-stringified trimmed answer, advances by one, and leaves the saved message only when no question follows |
| SurveyProperties.SubmitPastEnd | script.js:101-108 | a non-blank submit with no question left changes nothing |
| SurveyProperties.StartOutcomes | script.js:112-154 | a granted start empties the chunks, starts recording and enters recording mode; a denied or unsupported start only sets its status message |
| SurveyProperties.DataAppends | script.js:118-120 | each chunk is appended at the end of the buffer and nothing else changes |
| SurveyProperties.StopClickEffect | script.js:158-167 | stop while recording re-enables start, submit and the text box and disables stop; otherwise it changes nothing |
| SurveyProperties.StoppedPastEnd | script.js:122-131 | the stop callback with no question left shows the review message and saves nothing |
| SurveyProperties.StoppedInBounds | script.js:131-137 | the stop callback with a question left saves audio_q{id}_{ts}.webm holding the chunks concatenated in order, and advances by one |
| SurveyProperties.FlattenAppend | script.js:123 | the blob of two runs of chunks is the blob of the first followed by the blob of the second |
| SurveyProperties.AnswerToSaved | script.js:64-82 | a saved answer's name parses back to its question's id, and it is a JSON file exactly when named as a text answer |
| SurveyProperties.NextQuestionAfterSave | script.js:88-91 | saving and moving to the next question keeps the page invariant |
| SurveyProperties.DownloadsAnswerExtended | script.js:64-82 | adding one download that answers the current question while advancing keeps every download paired with its question |
| SurveyProperties.SavedAnswersQuestion | script.js:101-137 | a save followed by nextQuestion keeps every download paired with its question |
| SurveyProperties.DeliveredKeepsConsistent | script.js:94-167 | every delivered event keeps the invariant: index within bounds and equal to the number of downloads, text and recording modes exclusive, stop disabled unless recording, the shown question current, the finished page fully disabled |
| SurveyProperties.DeliveredKeepsDownloadsAnswer | script.js:101-137 | every delivered event keeps download k paired with question k |
| SurveyProperties.DeliveredRunKeepsConsistent | script.js:94-167 | every delivered run of events keeps the page invariant |
| SurveyProperties.DeliveredRunKeepsDownloadsAnswer | script.js:101-137 | every delivered run keeps each download paired with its question |
| SurveyProperties.EncodeTextRoundTrip | script.js:73 | the JSON file saved for a text answer decodes back to exactly that text |
| SurveyProperties.LoadShowsFirst | script.js:29-30 | a load of one or more questions onto the initial page shows question 0 and waits for its answer, with the text box, submit and start enabled and stop disabled |
| SurveyProperties.InitialConsistent | script.js:12-18 | the page before any event satisfies both invariants |
| SurveyProperties.FeedAppends | script.js:118-120 | while recording or stopping, a run of chunks is delivered and appended in order, and nothing else changes |
| SurveyProperties.AfterAnswer | script.js:41-60 | a consistent, settled page past an answer, with start and submit enabled when a question is left, is Answering or Finished |
| SurveyProperties.StartAndFeed | script.js:115-146 | starting and then receiving chunks leaves exactly those chunks in the buffer |
| SurveyProperties.StopAndFeed | script.js:158-167 | chunks that arrive after stop is clicked and before the stop event join the buffer |
| SurveyProperties.RecordedAnswer | script.js:112-167 | a whole recording saves one webm of all its chunks in arrival order, named for the current question, and advances by one |
| SurveyProperties.TypedAnswer | script.js:94-109 | typing a non-blank answer and submitting it saves its download and advances by one, keeping the invariant |
| SurveyProperties.TextArtifactsAt | script.js:101-104 | the k-th of them answers the k-th question with the k-th text |
| SurveyProperties.FirstTypedAnswer | script.js:94-109 | the first of several typed answers advances by one and saves its download |
| SurveyProperties.AnswerAllByText | script.js:94-109 | answering every remaining question in writing reaches the finished page, and the new downloads are the trimmed answers in order, each named for its question |
| SurveyProperties.TextArtifactsAfterFirst | script.js:101-107 | the downloads of the first answer followed by those of the rest are the downloads of all answers |
| SurveyProperties.SurveyByText | script.js:22-109 | from page load, a survey answered entirely in writing ends finished with one download per question, download k answering question k with text k |
| SurveyProperties.HelloSaved | script.js:73 | the typed answer "hello" is saved as the seven characters "hello" with its quotes |
| SurveyProperties.SmallIdFileNames | script.js:103 | the names of a text answer to question 1 and a recording for question 2 |
| SurveyProperties.WalkthroughLoad | script.js:28-30 | loading two questions shows the first and waits for its answer |
| SurveyProperties.WalkthroughText | script.js:94-109 | typing "hello" for question 1 saves answer_q1_{t1}.txt holding "hello" and shows question 2 |
| SurveyProperties.WalkthroughAudio | script.js:112-138 | recording two chunks for question 2 saves audio_q2_{t2}.webm holding both in order and finishes the survey |
| SurveyProperties.TwoQuestionWalkthrough | script.js:22-167 | the whole walk-through from page load: both events delivered, exactly those two downloads, and the finished page |
| SurveyProperties.StartBeforeLoadReenablesText | script.js:28-52 | a recording started before the questions arrive is not protected: the load re-enables the text box and submit button while recording |
| SurveyProperties.GrantOnFinishedPage | script.js:140-166 | a grant that resolves on the finished page enables stop, breaking the invariant, and a stop click then re-enables start, submit and the text box under the thank-you message |
| SurveyProperties.SubmitDuringPromptFinishes | script.js:94-115 | while the permission prompt of a start click is open, submitting the last answer is delivered and finishes the survey with every control disabled, so the pending grant lands on the finished page |
| SurveyProperties.SubmitWhileStopPending | script.js:122-137 | a submit (script.js:94-109) between the stop click and the stop event saves the text and advances; the recording's chunk, delivered just before the stop event, is then saved as the answer to the next question's id, so that question is skipped: two downloads and an index moved by two |
| SurveyProperties.RecorderStopsItself | script.js:122-137 | a recorder that stops by itself while recording saves and advances, and displayQuestion (script.js:50-52) leaves stop enabled with no recorder running, so the invariant breaks and a stop click (script.js:159) does nothing |
| SurveyPage.Session.constructor | script.js:12-18 | the initial state (Survey.Initial): no questions, index 0, no chunks, stop disabled |
| SurveyPage.Session.DisplayQuestion | script.js:41-61 | the fields end as displayQuestion leaves them (Survey.Display) |
| SurveyPage.Session.SaveToFile | script.js:64-82 | the status names the file, and exactly one download with the encoded content is added |
| SurveyPage.Session.NextQuestion | script.js:88-91 | the index is incremented and the next question is displayed |
| SurveyPage.Session.LoadOk | script.js:28-33 | the questions are stored and the first one displayed, or the no-questions message shown |
| SurveyPage.Session.LoadFail | script.js:34-36 | only the error message is shown and the load is marked finished |
| SurveyPage.Session.TypeAnswer | script.js:95 | the text box holds what the user typed |
| SurveyPage.Session.SubmitText | script.js:94-109 | the fields end as the submit handler leaves them (Survey.OnSubmitText, whose saved status is Survey.TextSavedStatus, script.js:106), whose properties are SubmitBlank, SubmitAnswer and SubmitPastEnd |
| SurveyPage.Session.StartGranted | script.js:115-146 | the chunks are cleared, recording starts and the controls enter recording mode |
| SurveyPage.Session.StartDenied | script.js:148-151 | only the microphone error is shown |
| SurveyPage.Session.Unsupported | script.js:152-154 | only the not-supported message is shown |
| SurveyPage.Session.DataAvailable | script.js:118-120 | the chunk is appended to the buffer |
| SurveyPage.Session.StopClick | script.js:158-167 | when recording, the recorder is stopped and the text controls and start are re-enabled; otherwise nothing changes |
| SurveyPage.Session.RecorderStopped | script.js:122-138 | the fields end as the stop callback leaves them (Survey.OnRecorderStopped, whose saved status is Survey.AudioSavedStatus, script.js:135), whose properties are StoppedInBounds and StoppedPastEnd |

## Left out

- The page's markup (`index.html`) is not part of this model. The controls are taken to start enabled and empty, except the stop button, which `script.js:18` disables.
- The audio playback element (`script.js:19, 46-47, 124-126`) is not modelled, because no handler reads it.
- Console logging is not modelled.
- The `Blob` MIME type, object URLs and the temporary anchor of `saveToFile` are not modelled. A download is recorded as its file name and content.
- `fetch`, the HTTP status check and `response.json()` become the two events LoadOk and LoadFail. The shape of the parsed questions is not checked: each question is taken to be a record with an integer `id` and a string `text`.
- Question ids are integers. A non-integer id, or one of magnitude above 2^53 (Number.MAX_SAFE_INTEGER), is not modelled: beyond it `Number::toString` prints the shortest digits that round-trip, which need not be the integer's own digits (2^60 prints as 1152921504606847000).
- `Date.now()` becomes a natural-number parameter of the two saving events. A clock before 1970, or one past 2^53 milliseconds, is not modelled, for the same reason.
- `getUserMedia` and `MediaRecorder` become the events StartGranted, StartDenied, Unsupported, DataAvailable and RecorderStopped.
- Each handler runs atomically. The awaits inside `loadQuestions` and the start handler are modelled as the single event that resolves them.
- The theorems cover runs in which the user acts only after the load has finished, never between clicking stop and the recorder's stop event, in which the stop event comes only after a stop click, and in which a grant is delivered only while start is enabled. The handler functions accept any order; the invariant "the finished page has every control disabled" holds only under these delivery rules. Five cases fall outside them:
  - StartBeforeLoadReenablesText: a start before the load leaves recording mode broken.
  - SubmitDuringPromptFinishes and GrantOnFinishedPage: a submit of the last answer while the permission prompt is open finishes the survey; the grant then enables stop on the finished page, and a stop click re-enables start, submit and the text box.
  - SubmitWhileStopPending: a submit while the stop event is pending saves the text and advances. The recorder, started without a timeslice (script.js:141), delivers its whole recording just before the stop event, so the recording is not lost: it is saved under the next question's id, that question is skipped, and the index moves by two.
  - RecorderStopsItself: a recorder also stops without a stop click, when its microphone track ends or on a recording error. The stop callback then saves and advances while stop stays enabled, so the page breaks the invariant, and clicking stop does nothing.
  - A second start while a stop event is pending replaces `mediaRecorder` and clears `audioChunks`; it is not modelled, because the model keeps a single recorder.
- Chunks may arrive at any time while recording or stopping. A recorder started without a timeslice, as at script.js:141, delivers one chunk just before its stop event; the model allows that order and others.
- The recorder states StopPending and Stopped are both the recorder's `inactive` state. They are split only to time the stop event.
- A lone surrogate in a text answer is not modelled, because a Dafny `char` cannot hold one. QuoteJSONString escapes such a code unit as `\uXXXX`.
- Json.UnicodeEscapeValue: the decoder accepts `\u` escapes only for non-surrogate code points, so it decodes what JSON.stringify produces here but not every escape RFC 8259 allows.
