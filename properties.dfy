/** What the survey page's handlers promise, one event at a time and over
    runs of events. */
module SurveyProperties {
  import opened JsString
  import Json
  import opened Decimal
  import opened FileNames
  import opened Survey
  import Options

  /** Text box and submit button disabled, start disabled, stop enabled. */
  predicate RecordingMode(s: Page)
  {
    s.startDisabled && !s.stopDisabled && s.submitDisabled && s.inputDisabled
  }

  predicate AllDisabled(s: Page)
  {
    s.inputDisabled && s.submitDisabled && s.startDisabled && s.stopDisabled
  }

  /** Every question of a non-empty survey has been answered. */
  predicate Finished(s: Page)
  {
    |s.questions| > 0 && s.index == |s.questions|
  }

  /** The download a is an answer to question q: its name carries q's id,
      and it is a JSON file exactly when it is named as a text answer. */
  predicate AnswerTo(a: Artifact, q: Question)
  {
    var tag := ParseFileName(a.filename);
    tag.Some? && tag.value.id == q.id && (tag.value.kind == TextAnswer <==> a.content.JsonFile?)
  }

  /** The k-th download answers the k-th question, for every question
      answered so far. */
  predicate DownloadsAnswer(s: Page)
  {
    |s.saved| == s.index <= |s.questions| &&
    forall k :: 0 <= k < s.index ==> AnswerTo(s.saved[k], s.questions[k])
  }

  /** The invariant on the index and the controls that the page keeps
      under every delivered event. */
  predicate Consistent(s: Page)
  {
    s.index <= |s.questions| &&
    (!s.loadSettled ==> s.questions == [] && s.recorder == NoRecorder) &&
    |s.saved| == s.index &&
    s.inputDisabled == s.submitDisabled &&
    (s.recorder == Recording ==> RecordingMode(s)) &&
    (s.recorder != Recording ==> s.stopDisabled) &&
    (s.loadSettled && s.index < |s.questions| ==> s.questionText == s.questions[s.index].text) &&
    (Finished(s) ==> AllDisabled(s) && s.questionText == AllAnswered &&
                     (s.recorder == NoRecorder || s.recorder == Stopped))
  }

  /** displayQuestion with a question left: shows it, clears the text box,
      the chunk buffer and the status, enables start, submit and the text
      box, and leaves everything else alone. */
  lemma DisplayInBounds(s: Page)
    requires s.index < |s.questions|
    ensures Display(s) == s.(questionText := s.questions[s.index].text, answer := [], chunks := [],
                             status := [], startDisabled := false, submitDisabled := false,
                             inputDisabled := false)
  {
  }

  /** displayQuestion past the last question: the thank-you message, all
      four controls disabled, the status and the rest untouched. */
  lemma DisplayPastEnd(s: Page)
    requires s.index >= |s.questions|
    ensures Display(s) == s.(questionText := AllAnswered, inputDisabled := true,
                             submitDisabled := true, startDisabled := true, stopDisabled := true)
  {
  }

  /** An empty or failed load only writes the status line: no control is
      disabled and nothing else changes. */
  lemma LoadWithoutQuestions(s: Page)
    ensures OnLoadOk(s, []) == s.(loadSettled := true, questions := [], status := NoQuestions)
    ensures OnLoadFail(s) == s.(loadSettled := true, status := LoadError)
  {
  }

  /** A load with at least one question shows the first question and waits
      for its answer, with the text box, submit and start enabled. */
  lemma LoadShowsFirst(qs: seq<Question>)
    requires |qs| > 0
    ensures var r := OnLoadOk(Initial(), qs);
      Answering(r) && r.questionText == qs[0].text && r.index == 0 && r.questions == qs &&
      r.saved == [] && !r.inputDisabled && r.stopDisabled
  {
    DeliveredKeepsConsistent(Initial(), LoadOk(qs));
  }

  /** A text answer is saved as JSON that decodes back to exactly that text. */
  lemma EncodeTextRoundTrip(t: string)
    ensures Json.Unquote(Encode(Text(t)).json) == Options.Some(t)
  {
    Json.QuoteRoundTrip(t);
  }

  /** From s to r the index stays and the downloads are untouched, or the
      index moves by exactly one from a question that exists, together with
      exactly one new download at the end of the list. */
  predicate OneStep(s: Page, r: Page)
  {
    (r.index == s.index && r.saved == s.saved) ||
    (s.index < |s.questions| && r.index == s.index + 1 &&
     |r.saved| == |s.saved| + 1 && r.saved[..|s.saved|] == s.saved)
  }

  /** No event moves the index except by exactly one, from a question that
      exists, and together with exactly one new download at the end of the
      list; otherwise the downloads are untouched. */
  lemma StepAdvancesWithOneSave(s: Page, e: Event)
    ensures OneStep(s, Apply(s, e))
  {
    match e
    case SubmitText(ts) => SubmitOneStep(s, ts);
    case RecorderStopped(ts) => StoppedOneStep(s, ts);
    case _ => assert Apply(s, e).index == s.index && Apply(s, e).saved == s.saved;
  }

  lemma SubmitOneStep(s: Page, ts: nat)
    ensures OneStep(s, OnSubmitText(s, ts))
  {
    if IsBlank(s.answer) {
      SubmitBlank(s, ts);
    } else if s.index < |s.questions| {
      SubmitAnswer(s, ts);
      assert OnSubmitText(s, ts).saved[..|s.saved|] == s.saved;
    } else {
      SubmitPastEnd(s, ts);
    }
  }

  lemma StoppedOneStep(s: Page, ts: nat)
    ensures OneStep(s, OnRecorderStopped(s, ts))
  {
    if s.index < |s.questions| {
      StoppedInBounds(s, ts);
      assert OnRecorderStopped(s, ts).saved[..|s.saved|] == s.saved;
    } else {
      StoppedPastEnd(s, ts);
    }
  }

  /** A blank answer (all white space) only asks for an answer: no
      download, no advance, nothing else changes. */
  lemma SubmitBlank(s: Page, ts: nat)
    requires IsBlank(s.answer)
    ensures OnSubmitText(s, ts) == s.(status := EnterAnswer)
  {
    TrimEmptyIffBlank(s.answer);
  }

  /** An answer with a non-white-space character to a question that exists
      is downloaded once as answer_q{id}_{ts}.txt holding the trimmed answer
      as a JSON string, and the page moves on to the next question; the
      "saved" status survives only when there is no next question. */
  lemma SubmitAnswer(s: Page, ts: nat)
    requires !IsBlank(s.answer) && s.index < |s.questions|
    ensures var r := OnSubmitText(s, ts); var id := s.questions[s.index].id;
      r.saved == s.saved + [Artifact(FileName(TextAnswer, id, ts), JsonFile(Json.Quote(Trim(s.answer))))] &&
      r.index == s.index + 1 && r.questions == s.questions &&
      r.status == (if r.index < |r.questions| then "" else TextSavedStatus(id))
  {
    TrimEmptyIffBlank(s.answer);
  }

  /** With no question left, a non-blank submission does nothing at all. */
  lemma SubmitPastEnd(s: Page, ts: nat)
    requires !IsBlank(s.answer) && s.index >= |s.questions|
    ensures OnSubmitText(s, ts) == s
  {
    TrimEmptyIffBlank(s.answer);
  }

  /** Granted microphone access empties the chunk buffer and puts the
      controls in recording mode; denial or lack of support only writes the
      status line. */
  lemma StartOutcomes(s: Page)
    ensures var r := OnStartGranted(s);
      r.chunks == [] && r.recorder == Recording && RecordingMode(r) && r.status == RecordingNow &&
      r.index == s.index && r.saved == s.saved && r.answer == s.answer
    ensures OnStartDenied(s) == s.(status := MicrophoneError)
    ensures OnUnsupported(s) == s.(status := NotSupported)
  {
  }

  /** Each dataavailable event puts its chunk at the end of the buffer. */
  lemma DataAppends(s: Page, c: Chunk)
    ensures var r := OnDataAvailable(s, c);
      |r.chunks| == |s.chunks| + 1 && r.chunks[..|s.chunks|] == s.chunks && r.chunks[|s.chunks|] == c &&
      r == s.(chunks := r.chunks)
  {
    assert OnDataAvailable(s, c).chunks[..|s.chunks|] == s.chunks;
  }

  /** Stop while recording inverts the four recording-mode flags; stop in
      any other recorder state changes nothing and saves nothing. */
  lemma StopClickEffect(s: Page)
    ensures s.recorder == Recording ==>
      var r := OnStopClick(s);
      r.recorder == StopPending && !r.startDisabled && r.stopDisabled && !r.submitDisabled &&
      !r.inputDisabled && r.saved == s.saved && r.index == s.index && r.chunks == s.chunks
    ensures s.recorder != Recording ==> OnStopClick(s) == s
  {
  }

  /** The stop callback with no question left shows the review message but
      saves nothing and does not advance. */
  lemma StoppedPastEnd(s: Page, ts: nat)
    requires s.index >= |s.questions|
    ensures OnRecorderStopped(s, ts) == s.(recorder := Stopped, status := RecordingStopped)
  {
  }

  /** The stop callback with a question left saves the buffered chunks,
      concatenated in order, as audio_q{id}_{ts}.webm and advances once. */
  lemma StoppedInBounds(s: Page, ts: nat)
    requires s.index < |s.questions|
    ensures var r := OnRecorderStopped(s, ts); var id := s.questions[s.index].id;
      r.saved == s.saved + [Artifact(FileName(AudioAnswer, id, ts), WebmFile(Flatten(s.chunks)))] &&
      r.index == s.index + 1 && r.questions == s.questions && r.recorder == Stopped
  {
  }

  /** Concatenating a list of chunks is concatenating its parts. */
  lemma {:induction false} FlattenAppend(a: seq<Chunk>, b: seq<Chunk>)
    ensures Flatten(a + b) == Flatten(a) + Flatten(b)
    decreases |b|
  {
    if b != [] {
      var b' := b[..|b| - 1];
      assert (a + b)[..|a + b| - 1] == a + b';
      FlattenAppend(a, b');
    } else {
      assert a + b == a;
    }
  }

  lemma AnswerToSaved(k: Kind, q: Question, ts: nat, data: Payload)
    requires data.Text? <==> k == TextAnswer
    ensures AnswerTo(Artifact(FileName(k, q.id, ts), Encode(data)), q)
  {
    FileNameRoundTrip(k, q.id, ts);
  }

  lemma NextQuestionAfterSave(s: Page, k: Kind, data: Payload, ts: nat, status: string)
    requires Consistent(s) && s.loadSettled && s.index < |s.questions|
    requires s.recorder != Recording && s.stopDisabled && s.recorder != StopPending
    ensures var id := s.questions[s.index].id;
      Consistent(NextQuestion(SaveToFile(s, data, FileName(k, id, ts)).(status := status)))
  {
  }

  lemma DownloadsAnswerExtended(s: Page, r: Page, a: Artifact)
    requires DownloadsAnswer(s) && s.index < |s.questions| && AnswerTo(a, s.questions[s.index])
    requires r.questions == s.questions && r.index == s.index + 1 && r.saved == s.saved + [a]
    ensures DownloadsAnswer(r)
  {
    forall j | 0 <= j < r.index ensures AnswerTo(r.saved[j], r.questions[j]) {
      if j < s.index { assert r.saved[j] == s.saved[j]; } else { assert r.saved[j] == a; }
    }
  }

  lemma SavedAnswersQuestion(s: Page, k: Kind, data: Payload, ts: nat, status: string)
    requires DownloadsAnswer(s) && s.index < |s.questions|
    requires data.Text? <==> k == TextAnswer
    ensures var id := s.questions[s.index].id;
      DownloadsAnswer(NextQuestion(SaveToFile(s, data, FileName(k, id, ts)).(status := status)))
  {
    var q := s.questions[s.index];
    var a := Artifact(FileName(k, q.id, ts), Encode(data));
    AnswerToSaved(k, q, ts, data);
    var r := NextQuestion(SaveToFile(s, data, FileName(k, q.id, ts)).(status := status));
    DownloadsAnswerExtended(s, r, a);
  }

  /** Every delivered event keeps the invariant: the index never passes the
      number of questions and equals the number of downloads, text and audio
      modes exclude each other, the shown question is the current one, and
      the finished page has every control disabled. */
  lemma DeliveredKeepsConsistent(s: Page, e: Event)
    requires Consistent(s) && Delivered(s, e)
    ensures Consistent(Apply(s, e))
  {
    match e
    case SubmitText(ts) =>
      if Trim(s.answer) != [] && s.index < |s.questions| {
        NextQuestionAfterSave(s, TextAnswer, Text(Trim(s.answer)), ts, TextSavedStatus(s.questions[s.index].id));
      }
    case RecorderStopped(ts) =>
      var s' := s.(recorder := Stopped, status := RecordingStopped);
      if s.index < |s.questions| {
        NextQuestionAfterSave(s', AudioAnswer, AudioBlob(Flatten(s.chunks)), ts, AudioSavedStatus(s.questions[s.index].id));
      }
    case _ =>
  }

  /** Every event keeps each download paired with the question it answers:
      its name carries that question's id and the kind of its content. */
  lemma DeliveredKeepsDownloadsAnswer(s: Page, e: Event)
    requires Consistent(s) && DownloadsAnswer(s) && Delivered(s, e)
    ensures DownloadsAnswer(Apply(s, e))
  {
    match e
    case SubmitText(ts) =>
      if Trim(s.answer) != [] && s.index < |s.questions| {
        SavedAnswersQuestion(s, TextAnswer, Text(Trim(s.answer)), ts, TextSavedStatus(s.questions[s.index].id));
      }
    case RecorderStopped(ts) =>
      var s' := s.(recorder := Stopped, status := RecordingStopped);
      if s.index < |s.questions| {
        SavedAnswersQuestion(s', AudioAnswer, AudioBlob(Flatten(s.chunks)), ts, AudioSavedStatus(s.questions[s.index].id));
      }
    case LoadOk(qs) =>
      assert s.index == 0;
    case _ =>
  }

  lemma {:induction false} RunAppend(s: Page, a: seq<Event>, b: seq<Event>)
    ensures Run(s, a + b) == Run(Run(s, a), b)
    ensures AllDelivered(s, a + b) <==> AllDelivered(s, a) && AllDelivered(Run(s, a), b)
    decreases |a|
  {
    if a == [] {
      assert a + b == b;
    } else {
      assert (a + b)[0] == a[0] && (a + b)[1..] == a[1..] + b;
      RunAppend(Apply(s, a[0]), a[1..], b);
    }
  }

  /** Every delivered run keeps the invariant. */
  lemma {:induction false} DeliveredRunKeepsConsistent(s: Page, es: seq<Event>)
    requires Consistent(s) && AllDelivered(s, es)
    ensures Consistent(Run(s, es))
    decreases |es|
  {
    if es != [] {
      DeliveredKeepsConsistent(s, es[0]);
      DeliveredRunKeepsConsistent(Apply(s, es[0]), es[1..]);
    }
  }

  /** Every delivered run keeps each download paired with its question. */
  lemma {:induction false} DeliveredRunKeepsDownloadsAnswer(s: Page, es: seq<Event>)
    requires Consistent(s) && DownloadsAnswer(s) && AllDelivered(s, es)
    ensures DownloadsAnswer(Run(s, es))
    decreases |es|
  {
    if es != [] {
      DeliveredKeepsConsistent(s, es[0]);
      DeliveredKeepsDownloadsAnswer(s, es[0]);
      DeliveredRunKeepsDownloadsAnswer(Apply(s, es[0]), es[1..]);
    }
  }

  /** The page before any event satisfies both invariants. */
  lemma InitialConsistent()
    ensures Consistent(Initial()) && DownloadsAnswer(Initial()) && !Initial().loadSettled
  {
  }

  /** The dataavailable events of one recording. */
  function Feed(cs: seq<Chunk>): (es: seq<Event>)
    ensures |es| == |cs|
  {
    if cs == [] then [] else [DataAvailable(cs[0])] + Feed(cs[1..])
  }

  /** While the recorder runs or its stop is pending, every chunk it
      delivers is appended, in order, and nothing else changes. */
  lemma {:induction false} FeedAppends(s: Page, cs: seq<Chunk>)
    requires s.recorder == Recording || s.recorder == StopPending
    ensures AllDelivered(s, Feed(cs))
    ensures Run(s, Feed(cs)) == s.(chunks := s.chunks + cs)
    decreases |cs|
  {
    if cs != [] {
      var s' := OnDataAvailable(s, cs[0]);
      var es := Feed(cs);
      assert es[0] == DataAvailable(cs[0]) && es[1..] == Feed(cs[1..]);
      assert Apply(s, es[0]) == s';
      FeedAppends(s', cs[1..]);
      assert Run(s, es) == Run(s', es[1..]);
      assert s'.chunks + cs[1..] == s.chunks + cs;
    }
  }

  /** A question waiting for its answer, with both modes available. */
  predicate Answering(s: Page)
  {
    Consistent(s) && s.loadSettled && s.index < |s.questions| &&
    !s.startDisabled && !s.submitDisabled &&
    s.recorder != Recording && s.recorder != StopPending
  }

  /** After an answer: the next question waits, or the survey is finished. */
  lemma AfterAnswer(s: Page)
    requires Consistent(s) && s.loadSettled && s.index > 0 && s.index <= |s.questions|
    requires s.recorder != Recording && s.recorder != StopPending
    requires s.index < |s.questions| ==> !s.startDisabled && !s.submitDisabled
    ensures Answering(s) || Finished(s)
  {
  }

  function RecordingEvents(before: seq<Chunk>, after: seq<Chunk>, ts: nat): seq<Event>
  {
    [StartGranted] + Feed(before) + [StopClick] + Feed(after) + [RecorderStopped(ts)]
  }

  /** Starting and receiving chunks: the buffer holds exactly those chunks. */
  lemma StartAndFeed(s: Page, before: seq<Chunk>)
    requires Answering(s)
    ensures var es := [StartGranted] + Feed(before);
      AllDelivered(s, es) && Run(s, es) == OnStartGranted(s).(chunks := before)
  {
    var s1 := OnStartGranted(s);
    assert Delivered(s, StartGranted) && Apply(s, StartGranted) == s1;
    FeedAppends(s1, before);
    RunAppend(s, [StartGranted], Feed(before));
  }

  /** Stopping and receiving the last chunks: they join the buffer. */
  lemma StopAndFeed(s: Page, after: seq<Chunk>)
    requires Consistent(s) && UserMayAct(s) && s.recorder == Recording
    ensures var es := [StopClick] + Feed(after);
      AllDelivered(s, es) && Run(s, es) == OnStopClick(s).(chunks := s.chunks + after)
  {
    var s1 := OnStopClick(s);
    assert Delivered(s, StopClick) && Apply(s, StopClick) == s1;
    FeedAppends(s1, after);
    RunAppend(s, [StopClick], Feed(after));
  }

  /** A recorded answer: start, the chunks delivered while recording, stop,
      the chunks delivered before the stop event, and the stop event. The one
      download is the webm of exactly those chunks in arrival order, named
      for the current question, and the page then waits for the next question
      or is finished. */
  lemma RecordedAnswer(s: Page, before: seq<Chunk>, after: seq<Chunk>, ts: nat)
    requires Answering(s)
    ensures var es := RecordingEvents(before, after, ts); var r := Run(s, es);
      AllDelivered(s, es) && Consistent(r) && r.questions == s.questions &&
      r.index == s.index + 1 && (Answering(r) || Finished(r)) &&
      r.saved == s.saved + [Artifact(FileName(AudioAnswer, s.questions[s.index].id, ts),
                                     WebmFile(Flatten(before) + Flatten(after)))]
  {
    var e1, e2, e3 := [StartGranted] + Feed(before), [StopClick] + Feed(after), [RecorderStopped(ts)];
    var es := RecordingEvents(before, after, ts);
    assert es == e1 + e2 + e3;
    StartAndFeed(s, before);
    var s2 := Run(s, e1);
    DeliveredRunKeepsConsistent(s, e1);
    StopAndFeed(s2, after);
    var s4 := Run(s2, e2);
    assert s4.chunks == before + after && s4.recorder == StopPending;
    RunAppend(s, e1, e2);
    var r := OnRecorderStopped(s4, ts);
    assert Delivered(s4, RecorderStopped(ts));
    RunOne(s4, RecorderStopped(ts));
    RunAppend(s, e1 + e2, e3);
    StoppedInBounds(s4, ts);
    FlattenAppend(before, after);
    DeliveredRunKeepsConsistent(s, es);
    AfterAnswer(r);
  }

  /** The typing and submit events of one text answer per entry. */
  function TextAnswers(texts: seq<string>, stamps: seq<nat>): (es: seq<Event>)
    requires |texts| == |stamps|
    ensures |es| == 2 * |texts|
  {
    if texts == [] then [] else [TypeAnswer(texts[0]), SubmitText(stamps[0])] + TextAnswers(texts[1..], stamps[1..])
  }

  /** The download of a typed answer to question q, saved at ts. */
  function TextArtifact(q: Question, text: string, ts: nat): Artifact
  {
    Artifact(FileName(TextAnswer, q.id, ts), JsonFile(Json.Quote(Trim(text))))
  }

  /** A run of one event applies its handler. */
  lemma RunOne(s: Page, e: Event)
    ensures Run(s, [e]) == Apply(s, e)
    ensures AllDelivered(s, [e]) <==> Delivered(s, e)
  {
    assert [e][1..] == [];
  }

  /** A run of two events applies the first, then the second. */
  lemma RunTwo(s: Page, e1: Event, e2: Event)
    ensures Run(s, [e1, e2]) == Apply(Apply(s, e1), e2)
    ensures AllDelivered(s, [e1, e2]) <==> Delivered(s, e1) && Delivered(Apply(s, e1), e2)
  {
    var s1 := Apply(s, e1);
    assert [e1, e2][1..] == [e2] && [e2][1..] == [];
    assert Run(s1, [e2]) == Run(Apply(s1, e2), []);
    assert AllDelivered(s1, [e2]) <==> Delivered(s1, e2) && AllDelivered(Apply(s1, e2), []);
  }

  /** One typed answer: the box is filled, the answer downloaded, and the
      page waits for the next question or is finished. */
  lemma TypedAnswer(s: Page, text: string, ts: nat)
    requires Answering(s) && !IsBlank(text)
    ensures var es := [TypeAnswer(text), SubmitText(ts)]; var r := Run(s, es);
      AllDelivered(s, es) && Consistent(r) && r.questions == s.questions &&
      r.index == s.index + 1 && (Answering(r) || Finished(r)) &&
      r.saved == s.saved + [TextArtifact(s.questions[s.index], text, ts)]
  {
    var s1 := OnTypeAnswer(s, text);
    RunTwo(s, TypeAnswer(text), SubmitText(ts));
    DeliveredKeepsConsistent(s, TypeAnswer(text));
    DeliveredKeepsConsistent(s1, SubmitText(ts));
    var r := OnSubmitText(s1, ts);
    SubmitAnswer(s1, ts);
    AfterAnswer(r);
  }

  lemma AppendAssociative<T>(x: seq<T>, y: seq<T>, z: seq<T>)
    ensures (x + y) + z == x + (y + z)
  {
  }

  /** The downloads of typed answers to consecutive questions. */
  function TextArtifacts(qs: seq<Question>, texts: seq<string>, stamps: seq<nat>): (r: seq<Artifact>)
    requires |texts| == |stamps| <= |qs|
    ensures |r| == |texts|
  {
    if texts == [] then [] else [TextArtifact(qs[0], texts[0], stamps[0])] + TextArtifacts(qs[1..], texts[1..], stamps[1..])
  }

  /** The k-th of them answers the k-th question with the k-th text. */
  lemma {:induction false} TextArtifactsAt(qs: seq<Question>, texts: seq<string>, stamps: seq<nat>, k: nat)
    requires |texts| == |stamps| <= |qs| && k < |texts|
    ensures TextArtifacts(qs, texts, stamps)[k] == TextArtifact(qs[k], texts[k], stamps[k])
    decreases k
  {
    if k > 0 {
      TextArtifactsAt(qs[1..], texts[1..], stamps[1..], k - 1);
      assert TextArtifacts(qs, texts, stamps)[k] == TextArtifacts(qs[1..], texts[1..], stamps[1..])[k - 1];
      assert qs[1..][k - 1] == qs[k] && texts[1..][k - 1] == texts[k] && stamps[1..][k - 1] == stamps[k];
    }
  }

  /** The first of several typed answers, as a step of AnswerAllByText. */
  lemma FirstTypedAnswer(s: Page, texts: seq<string>, stamps: seq<nat>) returns (s2: Page)
    requires Answering(s) && 0 < |texts| == |stamps| == |s.questions| - s.index
    requires !IsBlank(texts[0])
    ensures var es, rest := TextAnswers(texts, stamps), TextAnswers(texts[1..], stamps[1..]);
      Run(s, es) == Run(s2, rest) && AllDelivered(s, es) == AllDelivered(s2, rest)
    ensures s2.questions == s.questions && s2.index == s.index + 1
    ensures s2.saved == s.saved + [TextArtifact(s.questions[s.index], texts[0], stamps[0])]
    ensures Consistent(s2) && (Answering(s2) || Finished(s2))
  {
    var head := [TypeAnswer(texts[0]), SubmitText(stamps[0])];
    var tail := TextAnswers(texts[1..], stamps[1..]);
    assert TextAnswers(texts, stamps) == head + tail;
    TypedAnswer(s, texts[0], stamps[0]);
    s2 := Run(s, head);
    RunAppend(s, head, tail);
  }

  /** Typing and submitting texts, stamped with stamps, from s reaches the
      end of the survey: every event is delivered, the thank-you message is
      shown with every control disabled, and the new downloads are the
      trimmed answers in order, each named for its question. */
  predicate AnsweredByText(s: Page, texts: seq<string>, stamps: seq<nat>)
    requires |texts| == |stamps| == |s.questions| - s.index
  {
    var es := TextAnswers(texts, stamps); var r := Run(s, es);
    AllDelivered(s, es) && r.questions == s.questions &&
    r.index == |s.questions| && AllDisabled(r) && r.questionText == AllAnswered &&
    r.saved == s.saved + TextArtifacts(s.questions[s.index..], texts, stamps)
  }

  /** Answering every remaining question in writing: exactly that many
      advances reach the end, with the downloads of AnsweredByText. */
  lemma {:induction false} AnswerAllByText(s: Page, texts: seq<string>, stamps: seq<nat>)
    requires Consistent(s) && (Answering(s) || Finished(s))
    requires |texts| == |stamps| == |s.questions| - s.index
    requires forall k :: 0 <= k < |texts| ==> !IsBlank(texts[k])
    ensures AnsweredByText(s, texts, stamps)
    decreases |texts|
  {
    if texts == [] {
      assert Finished(s) && AllDisabled(s) && s.questionText == AllAnswered;
      assert TextAnswers(texts, stamps) == [] && TextArtifacts(s.questions[s.index..], texts, stamps) == [];
      assert Run(s, []) == s && s.saved + [] == s.saved;
    } else {
      var s2 := FirstTypedAnswer(s, texts, stamps);
      assert forall k :: 0 <= k < |texts[1..]| ==> texts[1..][k] == texts[k + 1];
      AnswerAllByText(s2, texts[1..], stamps[1..]);
      var r := Run(s2, TextAnswers(texts[1..], stamps[1..]));
      TextArtifactsAfterFirst(s, s2, r.saved, texts, stamps);
    }
  }

  /** The step of AnswerAllByText on the downloads: the first answer's
      file followed by the files of the rest. */
  lemma TextArtifactsAfterFirst(s: Page, s2: Page, saved: seq<Artifact>, texts: seq<string>, stamps: seq<nat>)
    requires s.index < |s.questions| && 0 < |texts| == |stamps| == |s.questions| - s.index
    requires s2.questions == s.questions && s2.index == s.index + 1
    requires s2.saved == s.saved + [TextArtifact(s.questions[s.index], texts[0], stamps[0])]
    requires saved == s2.saved + TextArtifacts(s2.questions[s2.index..], texts[1..], stamps[1..])
    ensures saved == s.saved + TextArtifacts(s.questions[s.index..], texts, stamps)
  {
    var qs := s.questions[s.index..];
    var a := TextArtifact(s.questions[s.index], texts[0], stamps[0]);
    var rest := TextArtifacts(qs[1..], texts[1..], stamps[1..]);
    assert s2.questions[s2.index..] == qs[1..];
    assert TextArtifacts(qs, texts, stamps) == [a] + rest;
    AppendAssociative(s.saved, [a], rest);
  }

  /** A survey answered entirely in writing from the moment the page
      loads: one download per question, then the finished page. */
  lemma SurveyByText(qs: seq<Question>, texts: seq<string>, stamps: seq<nat>)
    requires |qs| > 0 && |texts| == |stamps| == |qs|
    requires forall k :: 0 <= k < |texts| ==> !IsBlank(texts[k])
    ensures var es := [LoadOk(qs)] + TextAnswers(texts, stamps); var r := Run(Initial(), es);
      AllDelivered(Initial(), es) && Finished(r) && AllDisabled(r) && r.questionText == AllAnswered &&
      |r.saved| == |qs| &&
      forall k :: 0 <= k < |qs| ==> r.saved[k] == TextArtifact(qs[k], texts[k], stamps[k])
  {
    var s := OnLoadOk(Initial(), qs);
    DeliveredKeepsConsistent(Initial(), LoadOk(qs));
    AnswerAllByText(s, texts, stamps);
    RunAppend(Initial(), [LoadOk(qs)], TextAnswers(texts, stamps));
    assert qs[0..] == qs;
    forall k | 0 <= k < |qs| ensures TextArtifacts(qs, texts, stamps)[k] == TextArtifact(qs[k], texts[k], stamps[k]) {
      TextArtifactsAt(qs, texts, stamps, k);
    }
  }

  lemma HelloSaved()
    ensures Json.Quote(Trim("hello")) == "\"hello\""
  {
    TrimUntouched("hello");
    Json.EscapePlain("hello");
  }

  lemma SmallIdFileNames(ts: nat)
    ensures FileName(TextAnswer, 1, ts) == "answer_q1_" + NatToDecimal(ts) + ".txt"
    ensures FileName(AudioAnswer, 2, ts) == "audio_q2_" + NatToDecimal(ts) + ".webm"
  {
    assert IntToDecimal(1) == "1" && IntToDecimal(2) == "2";
    assert "answer_q" + "1" + "_" == "answer_q1_";
    assert "audio_q" + "2" + "_" == "audio_q2_";
  }

  lemma PairAsAppend<T>(x: T, y: T)
    ensures [x] + [y] == [x, y]
  {
  }

  const WalkQuestions := [Question(1, "Q1"), Question(2, "Q2")]

  lemma WalkthroughLoad() returns (s1: Page)
    ensures s1 == Run(Initial(), [LoadOk(WalkQuestions)]) && AllDelivered(Initial(), [LoadOk(WalkQuestions)])
    ensures Answering(s1) && s1.questionText == "Q1" && s1.saved == [] &&
            s1.questions == WalkQuestions && s1.index == 0
  {
    s1 := OnLoadOk(Initial(), WalkQuestions);
    DeliveredKeepsConsistent(Initial(), LoadOk(WalkQuestions));
  }

  lemma WalkthroughText(s1: Page, t1: nat) returns (s2: Page)
    requires Answering(s1) && s1.saved == [] && s1.questions == WalkQuestions && s1.index == 0
    ensures s2 == Run(s1, [TypeAnswer("hello"), SubmitText(t1)])
    ensures AllDelivered(s1, [TypeAnswer("hello"), SubmitText(t1)])
    ensures Answering(s2) && s2.questionText == "Q2" && s2.questions == WalkQuestions && s2.index == 1
    ensures s2.saved == [Artifact("answer_q1_" + NatToDecimal(t1) + ".txt", JsonFile("\"hello\""))]
  {
    assert !IsWhiteSpace("hello"[0]);
    TypedAnswer(s1, "hello", t1);
    s2 := Run(s1, [TypeAnswer("hello"), SubmitText(t1)]);
    HelloSaved();
    SmallIdFileNames(t1);
  }

  lemma WalkthroughAudio(s2: Page, t2: nat, b1: Chunk, b2: Chunk) returns (r: Page)
    requires Answering(s2) && s2.questions == WalkQuestions && s2.index == 1
    ensures r == Run(s2, RecordingEvents([b1, b2], [], t2)) && AllDelivered(s2, RecordingEvents([b1, b2], [], t2))
    ensures AllDisabled(r) && r.questionText == AllAnswered
    ensures r.saved == s2.saved + [Artifact("audio_q2_" + NatToDecimal(t2) + ".webm", WebmFile(b1 + b2))]
  {
    RecordedAnswer(s2, [b1, b2], [], t2);
    r := Run(s2, RecordingEvents([b1, b2], [], t2));
    assert s2.questions[s2.index].id == 2;
    assert Flatten([b1, b2]) == b1 + b2 by {
      assert [b1, b2][..1] == [b1];
      assert Flatten([b1]) == b1 by { assert [b1][..0] == []; }
    }
    assert Flatten([]) == [] && (b1 + b2) + [] == b1 + b2;
    SmallIdFileNames(t2);
  }

  /** The walk-through of a two-question survey: load, a typed "hello" for
      question 1, a recording of two chunks for question 2. The text file is
      answer_q1_{t1}.txt holding the JSON string "hello" (with its quotes),
      the audio file audio_q2_{t2}.webm holding both chunks in order, and the
      page ends on the thank-you message with every control disabled. */
  lemma TwoQuestionWalkthrough(t1: nat, t2: nat, b1: Chunk, b2: Chunk)
    ensures var es := [LoadOk(WalkQuestions)] + [TypeAnswer("hello"), SubmitText(t1)] + RecordingEvents([b1, b2], [], t2);
      var r := Run(Initial(), es);
      AllDelivered(Initial(), es) && AllDisabled(r) && r.questionText == AllAnswered &&
      r.saved == [Artifact("answer_q1_" + NatToDecimal(t1) + ".txt", JsonFile("\"hello\"")),
                  Artifact("audio_q2_" + NatToDecimal(t2) + ".webm", WebmFile(b1 + b2))]
  {
    var s1 := WalkthroughLoad();
    var s2 := WalkthroughText(s1, t1);
    var r := WalkthroughAudio(s2, t2, b1, b2);
    PairAsAppend(s2.saved[0], Artifact("audio_q2_" + NatToDecimal(t2) + ".webm", WebmFile(b1 + b2)));
    RunThree(Initial(), [LoadOk(WalkQuestions)], [TypeAnswer("hello"), SubmitText(t1)], RecordingEvents([b1, b2], [], t2));
  }

  /** Three runs one after the other are the run of the three joined. */
  lemma RunThree(s: Page, a: seq<Event>, b: seq<Event>, c: seq<Event>)
    ensures Run(s, a + b + c) == Run(Run(Run(s, a), b), c)
    ensures AllDelivered(s, a) && AllDelivered(Run(s, a), b) && AllDelivered(Run(Run(s, a), b), c) ==>
            AllDelivered(s, a + b + c)
  {
    RunAppend(s, a, b);
    RunAppend(s, a + b, c);
  }

  /** The race the delivery rules leave out: a recording started before the
      question file has arrived is not protected from text mode, because the
      load re-enables the text box and the submit button while recording. */
  lemma StartBeforeLoadReenablesText(q: Question)
    ensures var r := OnLoadOk(OnStartGranted(Initial()), [q]);
      r.recorder == Recording && !r.submitDisabled && !r.inputDisabled && !Consistent(r)
  {
  }

  /** On the finished page, a granted start enables stop, which breaks the
      invariant, and a stop click then re-enables start, submit and the text
      box under the thank-you message. */
  lemma GrantOnFinishedPage(s: Page)
    requires Consistent(s) && Finished(s)
    ensures var granted := OnStartGranted(s); var r := OnStopClick(granted);
      !granted.stopDisabled && !Consistent(granted) &&
      Finished(r) && r.questionText == AllAnswered &&
      !r.startDisabled && !r.submitDisabled && !r.inputDisabled
  {
  }

  /** The race in the permission prompt: start is clicked on the last
      question, and while getUserMedia is pending the last answer is
      submitted, which finishes the survey. When access is then granted, the
      start handler runs on the finished page (GrantOnFinishedPage). */
  lemma SubmitDuringPromptFinishes(s: Page, ts: nat)
    requires Answering(s) && s.index == |s.questions| - 1 && !IsBlank(s.answer)
    ensures var done := OnSubmitText(s, ts);
      Delivered(s, StartGranted) && Delivered(s, SubmitText(ts)) &&
      Consistent(done) && Finished(done) && AllDisabled(done) && done.questionText == AllAnswered
  {
    SubmitAnswer(s, ts);
    DeliveredKeepsConsistent(s, SubmitText(ts));
  }

  /** The race while a stop event is pending: the text controls are enabled
      again after the stop click, so an answer can be submitted before the
      recorder's stop event arrives. The submit saves and advances, and its
      displayQuestion empties the chunk buffer. A recorder started without a
      timeslice delivers its whole recording in one chunk c just before the
      stop event, so that recording is saved as the answer to the next
      question, which the user never saw, and the index moves by two. */
  lemma SubmitWhileStopPending(s: Page, c: Chunk, ts1: nat, ts2: nat)
    requires Consistent(s) && s.recorder == Recording && s.index + 1 < |s.questions| && !IsBlank(s.answer)
    ensures var stopping := OnStopClick(s);
      var r := OnRecorderStopped(OnDataAvailable(OnSubmitText(stopping, ts1), c), ts2);
      stopping.recorder == StopPending && !stopping.submitDisabled &&
      r.index == s.index + 2 && |r.saved| == |s.saved| + 2 &&
      r.saved[|s.saved| + 1] == Artifact(FileName(AudioAnswer, s.questions[s.index + 1].id, ts2), WebmFile(c))
  {
    var stopping := OnStopClick(s);
    SubmitAnswer(stopping, ts1);
    var typed := OnSubmitText(stopping, ts1);
    assert typed.chunks == [];
    var fed := OnDataAvailable(typed, c);
    assert fed.chunks == [c];
    StoppedInBounds(fed, ts2);
  }

  /** A recorder also stops by itself, when its microphone track ends or on
      an error, with the page still in recording mode. The stop callback
      saves and advances, and displayQuestion re-enables start, submit and
      the text box but leaves stop enabled, so the page breaks the invariant
      with a stop button that does nothing when clicked. */
  lemma RecorderStopsItself(s: Page, ts: nat)
    requires Consistent(s) && s.loadSettled && s.recorder == Recording && s.index + 1 < |s.questions|
    ensures var r := OnRecorderStopped(s, ts);
      r.recorder == Stopped && r.index == s.index + 1 && !r.stopDisabled &&
      !r.startDisabled && !r.submitDisabled && !Consistent(r) && OnStopClick(r) == r
  {
  }
}
