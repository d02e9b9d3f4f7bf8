/** The voice button (components/VoiceButton.js): the `status` and `message` it shows,
    and how the speech-recognition callbacks and the answer to the request change them.
    The browser's support for speech recognition is a constant of the button; the
    transcript, the response and the recognition error arrive as event arguments. */
module VoiceButton {
  import opened JsValue

  datatype Status = Idle | Recording | Sending | Success | Error

  const NotSupported: string := "Voice not supported in this browser. Use Chrome or Edge."
  const SomethingWrong: string := "Something went wrong."
  const Logged: string := "✨ Logged."
  const CouldNotSave: string := "Could not save. Try again."
  const MicrophoneDenied: string := "Microphone access denied."
  const RecognitionFailed: string := "Voice recognition failed. Try again."

  /** What can happen to the button: a click (`startRecording`), the recognition's
      `onstart`, `onresult`, `onerror` and `onend`, and the end of the request that
      `handleTranscript` makes (an answer with `res.ok` and `data.error`, or a thrown
      `fetch`/`res.json()`). */
  datatype Event =
    | Click
    | Started
    | Heard(transcript: string)
    | Answered(ok: bool, error: Option<string>)
    | RequestFailed
    | SpeechError(code: string)
    | Ended

  /** The button's state: the two React state fields, and the transcripts posted to
      `/api/parse-habits` so far. */
  datatype State = State(status: Status, message: string, posted: seq<string>)

  const Initial: State := State(Idle, "", [])

  /** `data?.error || "Something went wrong."`. */
  function ErrorText(error: Option<string>): (m: string)
    ensures m != ""
    ensures error.Some? && error.value != "" ==> m == error.value
    ensures error.None? || error.value == "" ==> m == SomethingWrong
  {
    if error.Some? && error.value != "" then error.value else SomethingWrong
  }

  /** The message of a recognition error. */
  function SpeechErrorText(code: string): (m: string)
    ensures code == "not-allowed" ==> m == MicrophoneDenied
    ensures code != "not-allowed" ==> m == RecognitionFailed
    ensures m == MicrophoneDenied <==> code == "not-allowed"
  {
    if code == "not-allowed" then MicrophoneDenied else RecognitionFailed
  }

  /** The state after one event; `supported` says whether the browser has speech
      recognition. */
  function Next(s: State, e: Event, supported: bool): State {
    match e
    case Click => if supported then s.(status := Recording, message := "") else s.(status := Error, message := NotSupported)
    case Started => s.(status := Recording)
    case Heard(t) => State(Sending, "", s.posted + [t])
    case Answered(ok, error) => if ok then s.(status := Success, message := Logged) else s.(status := Error, message := ErrorText(error))
    case RequestFailed => s.(status := Error, message := CouldNotSave)
    case SpeechError(code) => s.(status := Error, message := SpeechErrorText(code))
    case Ended => if s.status == Recording then s.(status := Idle) else s
  }

  /** `busy`: the button is disabled exactly while listening or saving. */
  predicate Busy(status: Status) {
    status == Recording || status == Sending
  }

  /** The button's label. */
  function Label(status: Status): (l: string)
    ensures status == Recording ==> l == "Listening…"
    ensures status == Sending ==> l == "Saving…"
    ensures l == "Tell me" <==> !Busy(status)
  {
    if status == Recording then "Listening…" else if status == Sending then "Saving…" else "Tell me"
  }

  /** A success always shows the logged message and an error always shows some
      message. */
  predicate Consistent(s: State) {
    && (s.status == Success ==> s.message == Logged)
    && (s.status == Error ==> s.message != "")
  }

  lemma NextConsistent(s: State, e: Event, supported: bool)
    requires Consistent(s)
    ensures Consistent(Next(s, e, supported))
  {
  }

  /** The state after a sequence of events from the initial one. */
  function Run(events: seq<Event>, supported: bool): State {
    if events == [] then Initial else Next(Run(events[..|events| - 1], supported), events[|events| - 1], supported)
  }

  /** Every state the button can reach is consistent. */
  lemma {:induction false} RunConsistent(events: seq<Event>, supported: bool)
    ensures Consistent(Run(events, supported))
  {
    if events != [] {
      RunConsistent(events[..|events| - 1], supported);
      NextConsistent(Run(events[..|events| - 1], supported), events[|events| - 1], supported);
    }
  }

  /** The transcripts heard, in order. */
  function Transcripts(events: seq<Event>): seq<string> {
    if events == [] then []
    else
      var e := events[|events| - 1];
      Transcripts(events[..|events| - 1]) + if e.Heard? then [e.transcript] else []
  }

  /** Every transcript is posted exactly as heard, in order, with no trimming and no
      check that it is empty; nothing else is posted. */
  lemma {:induction false} RunPostsTranscripts(events: seq<Event>, supported: bool)
    ensures Run(events, supported).posted == Transcripts(events)
  {
    if events != [] {
      RunPostsTranscripts(events[..|events| - 1], supported);
    }
  }

  /** Hearing a transcript makes the button busy with an empty message; the end of the
      request, or a recognition error, makes it idle-looking again. */
  lemma BusyDuringRequest(s: State, e: Event, supported: bool)
    ensures e.Heard? ==> Busy(Next(s, e, supported).status) && Next(s, e, supported).message == ""
    ensures e.Answered? || e.RequestFailed? || e.SpeechError? ==> !Busy(Next(s, e, supported).status)
    ensures e.Click? ==> (Busy(Next(s, e, supported).status) <==> supported)
  {
  }

  /** The end event stops listening and changes nothing else. */
  lemma EndedOnlyStopsRecording(s: State, supported: bool)
    ensures Next(s, Ended, supported).status == (if s.status == Recording then Idle else s.status)
    ensures Next(s, Ended, supported).message == s.message && Next(s, Ended, supported).posted == s.posted
  {
  }

  /** The button as the component holds it. */
  class Button {
    const supported: bool
    var status: Status
    var message: string
    var posted: seq<string>

    function Current(): State
      reads this
    {
      State(status, message, posted)
    }

    constructor(supported: bool)
      ensures this.supported == supported && Current() == Initial
    {
      this.supported := supported;
      status := Idle;
      message := "";
      posted := [];
    }

    /** `startRecording`. */
    method StartRecording()
      modifies this
      ensures Current() == Next(old(Current()), Click, supported)
    {
      if !supported {
        status := Error;
        message := NotSupported;
        return;
      }
      status := Recording;
      message := "";
    }

    /** `recognition.onstart`. */
    method OnStart()
      modifies this
      ensures Current() == Next(old(Current()), Started, supported)
    {
      status := Recording;
    }

    /** `recognition.onresult`, up to the request: `handleTranscript` clears the message
        and posts the transcript. */
    method OnResult(transcript: string)
      modifies this
      ensures Current() == Next(old(Current()), Heard(transcript), supported)
    {
      status := Sending;
      message := "";
      posted := posted + [transcript];
    }

    /** The rest of `handleTranscript` once the response is read. */
    method OnResponse(ok: bool, error: Option<string>)
      modifies this
      ensures Current() == Next(old(Current()), Answered(ok, error), supported)
    {
      if !ok {
        status := Error;
        message := if error.Some? && error.value != "" then error.value else SomethingWrong;
        return;
      }
      status := Success;
      message := Logged;
    }

    /** The `catch` of `handleTranscript`. */
    method OnRequestFailed()
      modifies this
      ensures Current() == Next(old(Current()), RequestFailed, supported)
    {
      status := Error;
      message := CouldNotSave;
    }

    /** `recognition.onerror`. */
    method OnError(code: string)
      modifies this
      ensures Current() == Next(old(Current()), SpeechError(code), supported)
    {
      status := Error;
      if code == "not-allowed" {
        message := MicrophoneDenied;
      } else {
        message := RecognitionFailed;
      }
    }

    /** `recognition.onend`. */
    method OnEnd()
      modifies this
      ensures Current() == Next(old(Current()), Ended, supported)
    {
      if status == Recording {
        status := Idle;
      }
    }
  }
}
