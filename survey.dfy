/** The survey page's session as a state machine (script.js). Each function
    On* is one handler of the page, applied atomically to the whole state of
    the page; the class SurveyPage.Session performs the same updates field by
    field. fetch, getUserMedia, MediaRecorder and Date.now are replaced by the
    parameters of the events. */
module Survey {
  import opened JsString
  import Options
  import Json
  import opened Decimal
  import opened FileNames

  datatype Question = Question(id: int, text: string)

  newtype byte = x: int | 0 <= x < 256

  /** One blob delivered by the recorder's dataavailable event. */
  type Chunk = seq<byte>

  /** The recorder: none created yet, recording, stopped with its stop event
      still to come, or stopped with the stop event delivered. The last two
      are both the 'inactive' state of a MediaRecorder. */
  datatype Recorder = NoRecorder | Recording | StopPending | Stopped

  /** What saveToFile is handed: a string, or an audio blob. */
  datatype Payload = Text(text: string) | AudioBlob(bytes: seq<byte>)

  /** What the download holds: a JSON document, or the webm bytes. */
  datatype Content = JsonFile(json: string) | WebmFile(bytes: seq<byte>)

  datatype Artifact = Artifact(filename: string, content: Content)

  /** Everything the handlers read or write: the script's variables
      (questions, currentQuestionIndex, audioChunks, mediaRecorder), the
      value and disabled flag of the text box, the disabled flags of the
      three buttons, the question heading, the status line and the
      downloads so far. `loadSettled` records that loadQuestions has
      finished, which happens once. */
  datatype Page = Page(
    loadSettled: bool,
    questions: seq<Question>,
    index: nat,
    chunks: seq<Chunk>,
    recorder: Recorder,
    answer: string,
    inputDisabled: bool,
    submitDisabled: bool,
    startDisabled: bool,
    stopDisabled: bool,
    questionText: string,
    status: string,
    saved: seq<Artifact>)

  const AllAnswered := "All questions answered. Thank you!"
  const NoQuestions := "No questions loaded. Please add questions to questions.json."
  const LoadError := "Error loading questions. See console for details."
  const EnterAnswer := "Please enter an answer."
  const RecordingNow := "Recording..."
  const RecordingStopped := "Recording stopped. Review or record again. Click \"Stop Recording\" again to save if satisfied, or \"Start Recording\" to redo."
  const MicrophoneError := "Error accessing microphone. Please ensure permission is granted."
  const NotSupported := "Audio recording not supported in this browser."

  function SavedStatus(filename: string): string
  {
    filename + " prepared for download (simulated save)."
  }

  function TextSavedStatus(id: int): string
  {
    "Text answer for question " + IntToDecimal(id) + " saved."
  }

  function AudioSavedStatus(id: int): string
  {
    "Audio for question " + IntToDecimal(id) + " saved."
  }

  /** The page as the script leaves it before any event: stop disabled
      (script.js:18), everything else as the markup has it, which is taken
      to be enabled and empty. */
  function Initial(): Page
  {
    Page(false, [], 0, [], NoRecorder, "", false, false, false, true, "", "", [])
  }

  /** The in-order concatenation of the chunks, as `new Blob(chunks)`. */
  function Flatten(cs: seq<Chunk>): (r: seq<byte>)
    ensures |cs| == 1 ==> r == cs[0]
    ensures cs != [] ==> |cs[|cs| - 1]| <= |r| && r[|r| - |cs[|cs| - 1]|..] == cs[|cs| - 1]
  {
    if cs == [] then [] else Flatten(cs[..|cs| - 1]) + cs[|cs| - 1]
  }

  /** The blob saveToFile builds: a Blob is kept, anything else becomes
      JSON.stringify(data, null, 2) (script.js:73). */
  function Encode(p: Payload): (r: Content)
    ensures r.JsonFile? <==> p.Text?
    ensures p.AudioBlob? ==> r.bytes == p.bytes
  {
    match p
    case Text(t) => JsonFile(Json.Quote(t))
    case AudioBlob(b) => WebmFile(b)
  }

  /** displayQuestion (script.js:41-61). */
  function Display(s: Page): (r: Page)
    ensures r.index == s.index && r.saved == s.saved && r.questions == s.questions
    ensures r.loadSettled == s.loadSettled && r.recorder == s.recorder
    ensures !r.inputDisabled <==> s.index < |s.questions|
    ensures !r.submitDisabled <==> s.index < |s.questions|
    ensures !r.startDisabled <==> s.index < |s.questions|
  {
    if s.index < |s.questions| then
      s.(questionText := s.questions[s.index].text, answer := "", chunks := [], status := "",
         startDisabled := false, submitDisabled := false, inputDisabled := false)
    else
      s.(questionText := AllAnswered,
         inputDisabled := true, submitDisabled := true, startDisabled := true, stopDisabled := true)
  }

  /** nextQuestion (script.js:88-91). */
  function NextQuestion(s: Page): (r: Page)
    ensures r.index == s.index + 1 && r.saved == s.saved && r.questions == s.questions
    ensures r.recorder == s.recorder && r.loadSettled == s.loadSettled
    ensures !r.submitDisabled <==> r.index < |r.questions|
  {
    Display(s.(index := s.index + 1))
  }

  /** saveToFile (script.js:64-82): the download becomes one more artifact. */
  function SaveToFile(s: Page, data: Payload, filename: string): (r: Page)
    ensures |r.saved| == |s.saved| + 1 && r.saved[..|s.saved|] == s.saved
    ensures r.saved[|s.saved|] == Artifact(filename, Encode(data)) && r.status == SavedStatus(filename)
    ensures r.index == s.index && r.questions == s.questions && r.recorder == s.recorder
  {
    s.(status := SavedStatus(filename), saved := s.saved + [Artifact(filename, Encode(data))])
  }

  /** loadQuestions when the fetch and the JSON parse succeed (script.js:28-33). */
  function OnLoadOk(s: Page, qs: seq<Question>): (r: Page)
    ensures r.loadSettled && r.questions == qs
    ensures r.index == s.index && r.saved == s.saved && r.recorder == s.recorder
    ensures |qs| == 0 ==> r.status == NoQuestions
  {
    var s' := s.(loadSettled := true, questions := qs);
    if |qs| > 0 then Display(s') else s'.(status := NoQuestions)
  }

  /** loadQuestions when the fetch or the parse fails (script.js:34-36). */
  function OnLoadFail(s: Page): (r: Page)
    ensures r.loadSettled && r.status == LoadError
    ensures r.questions == s.questions && r.index == s.index && r.saved == s.saved
  {
    s.(loadSettled := true, status := LoadError)
  }

  /** The user edits the text box. */
  function OnTypeAnswer(s: Page, text: string): (r: Page)
    ensures r.answer == text && r.index == s.index && r.saved == s.saved
  {
    s.(answer := text)
  }

  /** The submit button's click handler (script.js:94-109); ts is Date.now(). */
  function OnSubmitText(s: Page, ts: nat): (r: Page)
    ensures r.questions == s.questions && r.recorder == s.recorder && r.loadSettled == s.loadSettled
    ensures r.index == s.index || (s.index < |s.questions| && r.index == s.index + 1)
    ensures r.index == s.index ==> r.saved == s.saved
  {
    var t := Trim(s.answer);
    if t == [] then
      s.(status := EnterAnswer)
    else if s.index < |s.questions| then
      var id := s.questions[s.index].id;
      var s' := SaveToFile(s, Text(t), FileName(TextAnswer, id, ts));
      NextQuestion(s'.(status := TextSavedStatus(id)))
    else
      s
  }

  /** The start button's handler when microphone access is granted
      (script.js:115-146). */
  function OnStartGranted(s: Page): (r: Page)
    ensures r.recorder == Recording && r.chunks == []
    ensures r.index == s.index && r.saved == s.saved && r.questions == s.questions
  {
    s.(chunks := [], recorder := Recording, status := RecordingNow,
       startDisabled := true, stopDisabled := false, submitDisabled := true, inputDisabled := true)
  }

  /** The start button's handler when getUserMedia or the recorder fails
      (script.js:148-151). */
  function OnStartDenied(s: Page): (r: Page)
    ensures r.status == MicrophoneError && r.recorder == s.recorder
    ensures r.index == s.index && r.saved == s.saved
  {
    s.(status := MicrophoneError)
  }

  /** The start button's handler without navigator.mediaDevices.getUserMedia
      (script.js:152-154). */
  function OnUnsupported(s: Page): (r: Page)
    ensures r.status == NotSupported && r.recorder == s.recorder
    ensures r.index == s.index && r.saved == s.saved
  {
    s.(status := NotSupported)
  }

  /** The recorder's ondataavailable callback (script.js:118-120). */
  function OnDataAvailable(s: Page, c: Chunk): (r: Page)
    ensures |r.chunks| == |s.chunks| + 1 && r.chunks[|s.chunks|] == c
    ensures r.index == s.index && r.saved == s.saved && r.recorder == s.recorder
  {
    s.(chunks := s.chunks + [c])
  }

  /** The stop button's click handler (script.js:158-167). */
  function OnStopClick(s: Page): (r: Page)
    ensures r.index == s.index && r.saved == s.saved && r.chunks == s.chunks
    ensures r != s ==> s.recorder == Recording && r.recorder == StopPending
  {
    if s.recorder == Recording then
      s.(recorder := StopPending,
         startDisabled := false, stopDisabled := true, submitDisabled := false, inputDisabled := false)
    else
      s
  }

  /** The recorder's onstop callback (script.js:122-138); ts is Date.now(). */
  function OnRecorderStopped(s: Page, ts: nat): (r: Page)
    ensures r.recorder == Stopped && r.questions == s.questions
    ensures s.index < |s.questions| ==> r.index == s.index + 1 && |r.saved| == |s.saved| + 1
    ensures s.index >= |s.questions| ==> r.index == s.index && r.saved == s.saved
  {
    var blob := Flatten(s.chunks);
    var s' := s.(recorder := Stopped, status := RecordingStopped);
    if s.index < |s.questions| then
      var id := s.questions[s.index].id;
      var s'' := SaveToFile(s', AudioBlob(blob), FileName(AudioAnswer, id, ts));
      NextQuestion(s''.(status := AudioSavedStatus(id)))
    else
      s'
  }

  datatype Event =
    | LoadOk(qs: seq<Question>)
    | LoadFail
    | TypeAnswer(text: string)
    | SubmitText(ts: nat)
    | StartGranted
    | StartDenied
    | Unsupported
    | DataAvailable(chunk: Chunk)
    | StopClick
    | RecorderStopped(ts: nat)

  function Apply(s: Page, e: Event): Page
  {
    match e
    case LoadOk(qs) => OnLoadOk(s, qs)
    case LoadFail => OnLoadFail(s)
    case TypeAnswer(text) => OnTypeAnswer(s, text)
    case SubmitText(ts) => OnSubmitText(s, ts)
    case StartGranted => OnStartGranted(s)
    case StartDenied => OnStartDenied(s)
    case Unsupported => OnUnsupported(s)
    case DataAvailable(c) => OnDataAvailable(s, c)
    case StopClick => OnStopClick(s)
    case RecorderStopped(ts) => OnRecorderStopped(s, ts)
  }

  /** The user can act when the question file has been handled and no
      recorder stop event is still on its way. */
  predicate UserMayAct(s: Page)
  {
    s.loadSettled && s.recorder != StopPending
  }

  /** When the browser delivers an event: loadQuestions settles once; the
      user types only into an enabled text box and clicks only enabled
      buttons; dataavailable fires only for a recorder that has started and
      not yet delivered its stop event, and stop only after stop() was
      called. */
  predicate Delivered(s: Page, e: Event)
  {
    match e
    case LoadOk(_) => !s.loadSettled
    case LoadFail => !s.loadSettled
    case TypeAnswer(_) => UserMayAct(s) && !s.inputDisabled
    case SubmitText(_) => UserMayAct(s) && !s.submitDisabled
    case StartGranted => UserMayAct(s) && !s.startDisabled
    case StartDenied => UserMayAct(s) && !s.startDisabled
    case Unsupported => UserMayAct(s) && !s.startDisabled
    case DataAvailable(_) => s.recorder == Recording || s.recorder == StopPending
    case StopClick => UserMayAct(s) && !s.stopDisabled
    case RecorderStopped(_) => s.recorder == StopPending
  }

  function Run(s: Page, es: seq<Event>): Page
    decreases |es|
  {
    if es == [] then s else Run(Apply(s, es[0]), es[1..])
  }

  predicate AllDelivered(s: Page, es: seq<Event>)
    decreases |es|
  {
    es == [] || (Delivered(s, es[0]) && AllDelivered(Apply(s, es[0]), es[1..]))
  }
}
