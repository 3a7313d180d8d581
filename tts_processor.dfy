/**
 * The `synthesizeSpeech` callable handler (functions/src/ttsProcessor.ts and
 * its compiled twin functions/lib/ttsProcessor.js): check the caller, read the
 * request with its defaults, check the server's API key, send one request to
 * the Text-to-Speech API and turn its reply into a data URL or a classified
 * error.
 *
 * The secret's value and the HTTP exchange are inputs: `apiKey` is what the
 * secret store yields, and `upstream` maps the request body and key that
 * would be sent to the reply that comes back.
 */
module TtsProcessor {
  import opened Wrappers
  import opened Callable

  const DefaultLanguageCode := "en-GB"
  const DefaultVoiceName := "en-GB-Journey-F"
  const DefaultSpeakingRate: real := 1.0

  const UnauthenticatedMessage := "User must be authenticated"
  const MissingTextMessage := "Text content is required"
  const MissingKeyMessage := "Google Cloud API key not configured"
  const PermissionDeniedMessage :=
    "API access denied. Please ensure the Cloud Text-to-Speech API is enabled and the API key has proper permissions."
  const SynthesisFailedPrefix := "Failed to synthesize speech: "
  const UnknownUpstreamError := "Unknown error"
  const MissingAudioMessage := "No audio content received from TTS API"
  const UnknownErrorMessage := "An unknown error occurred"
  const DataUrlPrefix := "data:audio/mp3;base64,"
  const SpeechFileName := "speech.mp3"

  /** `request.data`; None stands for a property that is undefined. */
  datatype TtsRequest = TtsRequest(
    text: Option<string>,
    languageCode: Option<string>,
    voiceName: Option<string>,
    speakingRate: Option<real>)

  /** A call: whether `request.auth` is present, and the request data. */
  datatype TtsCall = TtsCall(authenticated: bool, data: TtsRequest)

  /** The voice settings once the destructuring defaults are applied. */
  datatype VoiceSettings = VoiceSettings(languageCode: string, voiceName: string, speakingRate: real)

  /** The JSON body sent to the Text-to-Speech API. */
  datatype SynthesisInput = SynthesisInput(text: string)
  datatype VoiceSelection = VoiceSelection(languageCode: string, name: string, ssmlGender: string)
  datatype AudioConfig = AudioConfig(audioEncoding: string, pitch: real, speakingRate: real, effectsProfileId: seq<string>)
  datatype SynthesisRequest = SynthesisRequest(input: SynthesisInput, voice: VoiceSelection, audioConfig: AudioConfig)

  /** What the Text-to-Speech API call yields. */
  datatype SpeechReply =
    | Delivered(audioContent: Option<string>)                  // response.ok; the body's `audioContent`
    | Refused(status: Option<string>, message: Option<string>) // not ok; the body's `error?.status`, `error?.message`
    | Crashed(exception: Foreign)                              // `fetch` or `response.json()` threw

  /** The success record returned to the client. */
  datatype SpeechResult = SpeechResult(success: bool, url: string, fileName: string)

  /**
   * Destructuring with defaults: a default replaces a field only when it is
   * undefined, so an explicit value (an empty string, a rate of 0) is kept.
   */
  function Destructure(d: TtsRequest): (s: VoiceSettings)
    ensures d.languageCode == None ==> s.languageCode == DefaultLanguageCode
    ensures forall v :: d.languageCode == Some(v) ==> s.languageCode == v
    ensures d.voiceName == None ==> s.voiceName == DefaultVoiceName
    ensures forall v :: d.voiceName == Some(v) ==> s.voiceName == v
    ensures d.speakingRate == None ==> s.speakingRate == DefaultSpeakingRate
    ensures forall v :: d.speakingRate == Some(v) ==> s.speakingRate == v
  {
    VoiceSettings(
      d.languageCode.GetOr(DefaultLanguageCode),
      d.voiceName.GetOr(DefaultVoiceName),
      d.speakingRate.GetOr(DefaultSpeakingRate))
  }

  /** The fixed-shape request body: gender, encoding, pitch and effects profile are constants. */
  function RequestBody(text: string, s: VoiceSettings): (b: SynthesisRequest)
    ensures b.input.text == text
    ensures b.voice == VoiceSelection(s.languageCode, s.voiceName, "FEMALE")
    ensures b.audioConfig.audioEncoding == "MP3"
    ensures b.audioConfig.pitch == 0.0
    ensures b.audioConfig.speakingRate == s.speakingRate
    ensures b.audioConfig.effectsProfileId == ["headphone-class-device"]
  {
    SynthesisRequest(
      SynthesisInput(text),
      VoiceSelection(s.languageCode, s.voiceName, "FEMALE"),
      AudioConfig("MP3", 0.0, s.speakingRate, ["headphone-class-device"]))
  }

  /** The data URL that carries the base64 audio to the client. */
  function DataUrl(audio: string): (url: string)
    ensures |url| == |DataUrlPrefix| + |audio|
    ensures url[..|DataUrlPrefix|] == DataUrlPrefix && url[|DataUrlPrefix|..] == audio
  {
    DataUrlPrefix + audio
  }

  /** The audio payload of a data URL made by `DataUrl`, or None for any other string. */
  function DataUrlPayload(url: string): (payload: Option<string>)
    ensures payload.Some? ==> DataUrl(payload.value) == url
  {
    if |DataUrlPrefix| <= |url| && url[..|DataUrlPrefix|] == DataUrlPrefix
    then Some(url[|DataUrlPrefix|..])
    else None
  }

  /** The base64 payload travels verbatim: it is recovered unchanged from the URL. */
  lemma DataUrlRoundTrip(audio: string)
    ensures DataUrlPayload(DataUrl(audio)) == Some(audio)
  {
    assert DataUrl(audio)[..|DataUrlPrefix|] == DataUrlPrefix;
    assert DataUrl(audio)[|DataUrlPrefix|..] == audio;
  }

  /** How the handler reads the upstream reply. */
  function Interpret(reply: SpeechReply): (c: Completion<SpeechResult>)
    ensures c.Returned? <==> reply.Delivered? && Truthy(reply.audioContent)
    ensures c.Threw? && c.thrown.Classified? ==> c.thrown.error.code in {PermissionDenied, Internal}
    ensures c.Threw? && c.thrown.Unclassified? ==> reply == Crashed(c.thrown.foreign)
  {
    match reply
    case Crashed(e) => Threw(Unclassified(e))
    case Refused(status, message) =>
      if status == Some("PERMISSION_DENIED") then Raise(PermissionDenied, PermissionDeniedMessage)
      else Raise(Internal, SynthesisFailedPrefix + OrElse(message, UnknownUpstreamError))
    case Delivered(audio) =>
      if !Truthy(audio) then Raise(Internal, MissingAudioMessage)
      else Returned(SpeechResult(true, DataUrl(audio.value), SpeechFileName))
  }

  /** Whether every check before the upstream call passes: the call is forwarded. */
  predicate Forwarded(call: TtsCall, apiKey: Option<string>) {
    call.authenticated && Truthy(call.data.text) && Truthy(apiKey)
  }

  /** The body the handler sends for a forwarded call. */
  function SentBody(call: TtsCall): SynthesisRequest
    requires Truthy(call.data.text)
  {
    RequestBody(call.data.text.value, Destructure(call.data))
  }

  /** The reply to the one upstream call of a forwarded call. */
  function ReplyTo(call: TtsCall, apiKey: Option<string>, upstream: (SynthesisRequest, string) -> SpeechReply): SpeechReply
    requires Forwarded(call, apiKey)
  {
    upstream(SentBody(call), apiKey.value)
  }

  /** The handler body inside its `try`. */
  function SynthesizeBody(call: TtsCall, apiKey: Option<string>, upstream: (SynthesisRequest, string) -> SpeechReply)
    : (c: Completion<SpeechResult>)
    ensures !Forwarded(call, apiKey) ==> c.Threw? && c.thrown.Classified?
    ensures Forwarded(call, apiKey) ==> c == Interpret(ReplyTo(call, apiKey, upstream))
  {
    if !call.authenticated then Raise(Unauthenticated, UnauthenticatedMessage)
    else
      var settings := Destructure(call.data);
      if !Truthy(call.data.text) then Raise(InvalidArgument, MissingTextMessage)
      else if !Truthy(apiKey) then Raise(FailedPrecondition, MissingKeyMessage)
      else Interpret(upstream(RequestBody(call.data.text.value, settings), apiKey.value))
  }

  /**
   * `synthesizeSpeech`: the checks run in a fixed order (authentication,
   * text, API key) and the first that fails decides the error; only a call
   * that passes all three reaches the upstream API, and only such a call can
   * succeed.
   */
  function SynthesizeSpeech(call: TtsCall, apiKey: Option<string>, upstream: (SynthesisRequest, string) -> SpeechReply)
    : (r: Result<SpeechResult, HttpsError>)
    ensures !call.authenticated ==> r == Failure(HttpsError(Unauthenticated, UnauthenticatedMessage))
    ensures call.authenticated && !Truthy(call.data.text) ==>
              r == Failure(HttpsError(InvalidArgument, MissingTextMessage))
    ensures call.authenticated && Truthy(call.data.text) && !Truthy(apiKey) ==>
              r == Failure(HttpsError(FailedPrecondition, MissingKeyMessage))
    ensures r.Success? ==> Forwarded(call, apiKey)
  {
    Catch(SynthesizeBody(call, apiKey, upstream), UnknownErrorMessage)
  }

  /** An unauthenticated call is refused whatever its data, the key and the upstream. */
  lemma UnauthenticatedIgnoresRest(
    d1: TtsRequest, d2: TtsRequest, k1: Option<string>, k2: Option<string>,
    u1: (SynthesisRequest, string) -> SpeechReply, u2: (SynthesisRequest, string) -> SpeechReply)
    ensures SynthesizeSpeech(TtsCall(false, d1), k1, u1) == SynthesizeSpeech(TtsCall(false, d2), k2, u2)
  {
  }

  /** A call stopped by a check makes no upstream call: its result is the same for every upstream. */
  lemma RejectedCallsIgnoreUpstream(
    call: TtsCall, apiKey: Option<string>,
    u1: (SynthesisRequest, string) -> SpeechReply, u2: (SynthesisRequest, string) -> SpeechReply)
    requires !Forwarded(call, apiKey)
    ensures SynthesizeSpeech(call, apiKey, u1) == SynthesizeSpeech(call, apiKey, u2)
    ensures SynthesizeSpeech(call, apiKey, u1).Failure?
  {
  }

  /** The text check reads only `text`: whitespace is accepted, and the key is not consulted first. */
  lemma TextCheckedBeforeKey(d: TtsRequest, k1: Option<string>, k2: Option<string>,
                             u1: (SynthesisRequest, string) -> SpeechReply, u2: (SynthesisRequest, string) -> SpeechReply)
    requires !Truthy(d.text)
    ensures SynthesizeSpeech(TtsCall(true, d), k1, u1) == SynthesizeSpeech(TtsCall(true, d), k2, u2)
    ensures SynthesizeSpeech(TtsCall(true, TtsRequest(Some(" "), d.languageCode, d.voiceName, d.speakingRate)), k1, u1)
              != Failure(HttpsError(InvalidArgument, MissingTextMessage))
  {
  }

  /** A forwarded call sends its text, voice, language and rate, with the fixed fields; pitch is always 0. */
  lemma ForwardedBody(call: TtsCall)
    requires Truthy(call.data.text)
    ensures SentBody(call).input.text == call.data.text.value
    ensures SentBody(call).voice.languageCode == call.data.languageCode.GetOr("en-GB")
    ensures SentBody(call).voice.name == call.data.voiceName.GetOr("en-GB-Journey-F")
    ensures SentBody(call).audioConfig.speakingRate == call.data.speakingRate.GetOr(1.0)
    ensures SentBody(call).audioConfig.pitch == 0.0
  {
  }

  /** A request with only `text` is sent with every default, and an explicit rate of 0 is kept. */
  lemma DefaultsOnlyForUndefined(text: string)
    requires text != ""
    ensures SentBody(TtsCall(true, TtsRequest(Some(text), None, None, None))) ==
            SynthesisRequest(
              SynthesisInput(text),
              VoiceSelection("en-GB", "en-GB-Journey-F", "FEMALE"),
              AudioConfig("MP3", 0.0, 1.0, ["headphone-class-device"]))
    ensures SentBody(TtsCall(true, TtsRequest(Some(text), Some(""), None, Some(0.0)))).audioConfig.speakingRate == 0.0
    ensures SentBody(TtsCall(true, TtsRequest(Some(text), Some(""), None, Some(0.0)))).voice.languageCode == ""
  {
  }

  /** An upstream PERMISSION_DENIED status is reclassified with the fixed remediation message. */
  lemma PermissionDeniedReclassified(call: TtsCall, apiKey: Option<string>, upstream: (SynthesisRequest, string) -> SpeechReply)
    requires Forwarded(call, apiKey)
    requires ReplyTo(call, apiKey, upstream).Refused?
    requires ReplyTo(call, apiKey, upstream).status == Some("PERMISSION_DENIED")
    ensures SynthesizeSpeech(call, apiKey, upstream) == Failure(HttpsError(PermissionDenied, PermissionDeniedMessage))
  {
  }

  /** Any other refusal is `internal`, carrying the upstream message or "Unknown error". */
  lemma OtherRefusalInternal(call: TtsCall, apiKey: Option<string>, upstream: (SynthesisRequest, string) -> SpeechReply)
    requires Forwarded(call, apiKey)
    requires ReplyTo(call, apiKey, upstream).Refused?
    requires ReplyTo(call, apiKey, upstream).status != Some("PERMISSION_DENIED")
    ensures var r := SynthesizeSpeech(call, apiKey, upstream);
            var m := ReplyTo(call, apiKey, upstream).message;
            && r.Failure? && r.error.code == Internal
            && (Truthy(m) ==> r.error.message == "Failed to synthesize speech: " + m.value)
            && (!Truthy(m) ==> r.error.message == "Failed to synthesize speech: Unknown error")
  {
  }

  /**
   * A successful reply succeeds exactly when it carries a non-empty
   * `audioContent`, and then the URL holds that payload verbatim.
   */
  lemma DeliveredOutcome(call: TtsCall, apiKey: Option<string>, upstream: (SynthesisRequest, string) -> SpeechReply)
    requires Forwarded(call, apiKey)
    requires ReplyTo(call, apiKey, upstream).Delivered?
    ensures var r := SynthesizeSpeech(call, apiKey, upstream);
            var audio := ReplyTo(call, apiKey, upstream).audioContent;
            && (!Truthy(audio) ==> r == Failure(HttpsError(Internal, MissingAudioMessage)))
            && (Truthy(audio) ==> r.Success? && r.value.success && r.value.fileName == "speech.mp3"
                                  && DataUrlPayload(r.value.url) == Some(audio.value))
  {
    var audio := ReplyTo(call, apiKey, upstream).audioContent;
    if Truthy(audio) {
      DataUrlRoundTrip(audio.value);
    }
  }

  /** The handler succeeds exactly for a forwarded call whose reply carries audio. */
  lemma SuccessExactly(call: TtsCall, apiKey: Option<string>, upstream: (SynthesisRequest, string) -> SpeechReply)
    ensures SynthesizeSpeech(call, apiKey, upstream).Success? <==>
            Forwarded(call, apiKey) && ReplyTo(call, apiKey, upstream).Delivered?
            && Truthy(ReplyTo(call, apiKey, upstream).audioContent)
  {
  }

  /** An exception from the HTTP exchange is wrapped as `internal` with its message. */
  lemma CrashWrapped(call: TtsCall, apiKey: Option<string>, upstream: (SynthesisRequest, string) -> SpeechReply)
    requires Forwarded(call, apiKey)
    requires ReplyTo(call, apiKey, upstream).Crashed?
    ensures var r := SynthesizeSpeech(call, apiKey, upstream);
            var e := ReplyTo(call, apiKey, upstream).exception;
            && (e.ErrorInstance? ==> r == Failure(HttpsError(Internal, e.message)))
            && (e.NonErrorValue? ==> r == Failure(HttpsError(Internal, "An unknown error occurred")))
  {
  }
}
