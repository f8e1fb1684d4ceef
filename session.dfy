/** The survey page as the script runs it: the variables of script.js:12-15
    and the DOM state the handlers write become the fields of one object,
    and each handler is a method that updates them in the script's order.
    Each method is proved to end in the state that the corresponding
    function of module Survey describes, so every property proved there
    holds of the object. */
module SurveyPage {
  import opened JsString
  import opened FileNames
  import Survey

  class Session {
    var loadSettled: bool
    var questions: seq<Survey.Question>
    var currentQuestionIndex: nat
    var audioChunks: seq<Survey.Chunk>
    var mediaRecorder: Survey.Recorder
    var textAnswerValue: string
    var textAnswerDisabled: bool
    var submitTextAnswerDisabled: bool
    var startRecordDisabled: bool
    var stopRecordDisabled: bool
    var questionText: string
    var statusText: string
    var saved: seq<Survey.Artifact>

    /** The whole state of the page as a value. */
    function Snapshot(): Survey.Page
      reads this
    {
      Survey.Page(loadSettled, questions, currentQuestionIndex, audioChunks, mediaRecorder,
                  textAnswerValue, textAnswerDisabled, submitTextAnswerDisabled,
                  startRecordDisabled, stopRecordDisabled, questionText, statusText, saved)
    }

    /** The page when the script starts: the stop button disabled
        (script.js:18), the state variables at their initial values. */
    constructor ()
      ensures Snapshot() == Survey.Initial()
    {
      loadSettled := false;
      questions := [];
      currentQuestionIndex := 0;
      audioChunks := [];
      mediaRecorder := Survey.NoRecorder;
      textAnswerValue := "";
      textAnswerDisabled := false;
      submitTextAnswerDisabled := false;
      startRecordDisabled := false;
      stopRecordDisabled := true;
      questionText := "";
      statusText := "";
      saved := [];
    }

    /** displayQuestion (script.js:41-61). */
    method DisplayQuestion()
      modifies this
      ensures Snapshot() == Survey.Display(old(Snapshot()))
    {
      if currentQuestionIndex < |questions| {
        questionText := questions[currentQuestionIndex].text;
        textAnswerValue := "";
        audioChunks := [];
        statusText := "";
        startRecordDisabled := false;
        submitTextAnswerDisabled := false;
        textAnswerDisabled := false;
      } else {
        questionText := Survey.AllAnswered;
        textAnswerDisabled := true;
        submitTextAnswerDisabled := true;
        startRecordDisabled := true;
        stopRecordDisabled := true;
      }
    }

    /** saveToFile (script.js:64-82): the download is recorded as one more
        artifact. */
    method SaveToFile(data: Survey.Payload, filename: string)
      modifies this
      ensures Snapshot() == Survey.SaveToFile(old(Snapshot()), data, filename)
    {
      statusText := Survey.SavedStatus(filename);
      var content := Survey.Encode(data);
      saved := saved + [Survey.Artifact(filename, content)];
    }

    /** nextQuestion (script.js:88-91). */
    method NextQuestion()
      modifies this
      ensures Snapshot() == Survey.NextQuestion(old(Snapshot()))
    {
      currentQuestionIndex := currentQuestionIndex + 1;
      DisplayQuestion();
    }

    /** loadQuestions once questions.json has been fetched and parsed
        (script.js:28-33); an empty list is LoadOk([]). */
    method LoadOk(qs: seq<Survey.Question>)
      modifies this
      ensures Snapshot() == Survey.OnLoadOk(old(Snapshot()), qs)
    {
      loadSettled := true;
      questions := qs;
      if |questions| > 0 {
        DisplayQuestion();
      } else {
        statusText := Survey.NoQuestions;
      }
    }

    /** loadQuestions when the fetch, the HTTP status or the parse fails
        (script.js:25-27, 34-36). */
    method LoadFail()
      modifies this
      ensures Snapshot() == Survey.OnLoadFail(old(Snapshot()))
    {
      loadSettled := true;
      statusText := Survey.LoadError;
    }

    /** The user edits the text box. */
    method TypeAnswer(text: string)
      modifies this
      ensures Snapshot() == Survey.OnTypeAnswer(old(Snapshot()), text)
    {
      textAnswerValue := text;
    }

    /** The submit button's click handler (script.js:94-109); now is the
        value of Date.now(). */
    method SubmitText(now: nat)
      modifies this
      ensures Snapshot() == Survey.OnSubmitText(old(Snapshot()), now)
    {
      ghost var s0 := Snapshot();
      var textAnswer := Trim(textAnswerValue);
      if textAnswer == [] {
        statusText := Survey.EnterAnswer;
        assert Snapshot() == s0.(status := Survey.EnterAnswer);
        return;
      }
      if currentQuestionIndex < |questions| {
        var questionId := questions[currentQuestionIndex].id;
        var filename := FileName(TextAnswer, questionId, now);
        SaveToFile(Survey.Text(textAnswer), filename);
        ghost var s1 := Snapshot();
        statusText := Survey.TextSavedStatus(questionId);
        assert Snapshot() == s1.(status := Survey.TextSavedStatus(questionId));
        assert Survey.OnSubmitText(s0, now) == Survey.NextQuestion(Snapshot());
        NextQuestion();
      }
    }

    /** The start button's handler once getUserMedia grants a stream and a
        recorder is created (script.js:115-146). */
    method StartGranted()
      modifies this
      ensures Snapshot() == Survey.OnStartGranted(old(Snapshot()))
    {
      mediaRecorder := Survey.Recording;
      audioChunks := [];
      statusText := Survey.RecordingNow;
      startRecordDisabled := true;
      stopRecordDisabled := false;
      submitTextAnswerDisabled := true;
      textAnswerDisabled := true;
    }

    /** The start button's handler when access is refused or the recorder
        cannot be created (script.js:148-151). */
    method StartDenied()
      modifies this
      ensures Snapshot() == Survey.OnStartDenied(old(Snapshot()))
    {
      statusText := Survey.MicrophoneError;
    }

    /** The start button's handler in a browser without getUserMedia
        (script.js:152-154). */
    method Unsupported()
      modifies this
      ensures Snapshot() == Survey.OnUnsupported(old(Snapshot()))
    {
      statusText := Survey.NotSupported;
    }

    /** The recorder's ondataavailable callback (script.js:118-120). */
    method DataAvailable(chunk: Survey.Chunk)
      modifies this
      ensures Snapshot() == Survey.OnDataAvailable(old(Snapshot()), chunk)
    {
      audioChunks := audioChunks + [chunk];
    }

    /** The stop button's click handler (script.js:158-167). */
    method StopClick()
      modifies this
      ensures Snapshot() == Survey.OnStopClick(old(Snapshot()))
    {
      if mediaRecorder == Survey.Recording {
        mediaRecorder := Survey.StopPending;
        startRecordDisabled := false;
        stopRecordDisabled := true;
        submitTextAnswerDisabled := false;
        textAnswerDisabled := false;
      }
    }

    /** The recorder's onstop callback (script.js:122-138); now is the value
        of Date.now(). */
    method RecorderStopped(now: nat)
      modifies this
      ensures Snapshot() == Survey.OnRecorderStopped(old(Snapshot()), now)
    {
      mediaRecorder := Survey.Stopped;
      var audioBlob := Survey.Flatten(audioChunks);
      statusText := Survey.RecordingStopped;
      if currentQuestionIndex < |questions| {
        var questionId := questions[currentQuestionIndex].id;
        var filename := FileName(AudioAnswer, questionId, now);
        SaveToFile(Survey.AudioBlob(audioBlob), filename);
        statusText := Survey.AudioSavedStatus(questionId);
        NextQuestion();
      }
    }
  }
}
