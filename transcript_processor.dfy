/**
 * The `processTranscript` callable handler (gemini_example.ts): check the
 * image, obtain a bearer token, send one generation request with the image
 * and a prompt, and parse the JSON answer out of the streamed chunks.
 *
 * The credential provider, the HTTP exchange and `JSON.parse` are inputs:
 * `credential` is what the provider yields, `upstream` maps the request and
 * token that would be sent to the reply, and `parse` is a partial parser
 * (None where `JSON.parse` throws).
 */
module TranscriptProcessor {
  import opened Wrappers
  import opened Callable
  import opened ResponseText

  const NoImageMessage := "No image data provided"
  const NoTokenMessage := "Failed to get access token"
  const ParseFailedMessage := "Failed to parse transcript data"
  const UnexpectedErrorMessage := "Unexpected error occurred"
  const Prompt := "<your prompt>"
  const HarmCategories := [
    "HARM_CATEGORY_HARASSMENT",
    "HARM_CATEGORY_HATE_SPEECH",
    "HARM_CATEGORY_SEXUALLY_EXPLICIT",
    "HARM_CATEGORY_DANGEROUS_CONTENT"]

  /** `request.data`; None stands for a property that is undefined. */
  datatype TranscriptRequest = TranscriptRequest(base64Image: Option<string>, mimeType: Option<string>)

  /** What `auth.getClient()` and `client.getAccessToken()` yield. */
  datatype Credential = Issued(token: Option<string>) | CredentialFailed(exception: Foreign)

  /** The generation request. */
  datatype Part = InlineData(mimeType: Option<string>, data: string) | TextPart(text: string)
  datatype Content = Content(role: string, parts: seq<Part>)
  /** The sampling numbers are passed through untouched; they are kept as exact decimals. */
  datatype GenerationConfig = GenerationConfig(
    responseModalities: seq<string>, temperature: real, maxOutputTokens: nat, topP: real)
  datatype SafetySetting = SafetySetting(category: string, threshold: string)
  datatype GeminiRequest = GeminiRequest(
    contents: Content, generationConfig: GenerationConfig, safetySettings: seq<SafetySetting>)

  /** What the generation call yields. */
  datatype GeminiReply =
    | Rejected(statusText: string, errorText: string) // not ok; its status text and body as text
    | Received(body: ResponseBody)                    // ok; its body as JSON
    | CallFailed(exception: Foreign)                  // `fetch`, `response.text()` or `response.json()` threw

  /** The request built for an image: one user turn, image first, then the prompt; every safety filter off. */
  function BuildRequest(image: string, mimeType: Option<string>): (g: GeminiRequest)
    ensures g.contents.role == "user"
    ensures g.contents.parts == [InlineData(mimeType, image), TextPart(Prompt)]
    ensures |g.safetySettings| == 4
    ensures forall i :: 0 <= i < 4 ==> g.safetySettings[i] == SafetySetting(HarmCategories[i], "OFF")
    ensures g.generationConfig.responseModalities == ["text"]
    ensures g.generationConfig.maxOutputTokens == 8192
  {
    GeminiRequest(
      Content("user", [InlineData(mimeType, image), TextPart(Prompt)]),
      GenerationConfig(["text"], 1.0, 8192, 0.95),
      seq(4, i requires 0 <= i < 4 => SafetySetting(HarmCategories[i], "OFF")))
  }

  /** The message of a rejected generation call. */
  function RejectionMessage(statusText: string, errorText: string): (m: string)
    ensures OccursAt(m, statusText, |"Gemini API error: "|)
    ensures |errorText| <= |m| && OccursAt(m, errorText, |m| - |errorText|)
  {
    "Gemini API error: " + statusText + ". Details: " + errorText
  }

  /** `t` occurs in `s` starting at position `i`. */
  predicate OccursAt(s: string, t: string, i: nat) {
    i + |t| <= |s| && s[i..i + |t|] == t
  }

  /** `t` occurs in `s` as a contiguous piece. */
  ghost predicate Contains(s: string, t: string) {
    exists i: nat :: OccursAt(s, t, i)
  }

  /** The rejection message carries both the status text and the raw error body. */
  lemma RejectionMessageCarriesBoth(statusText: string, errorText: string)
    ensures Contains(RejectionMessage(statusText, errorText), statusText)
    ensures Contains(RejectionMessage(statusText, errorText), errorText)
  {
    var m := RejectionMessage(statusText, errorText);
    var i := |"Gemini API error: "|;
    assert OccursAt(m, statusText, i);
    var j := |m| - |errorText|;
    assert OccursAt(m, errorText, j);
  }

  /** Whether the image and token checks pass, so that the generation call is made. */
  predicate Forwarded(req: TranscriptRequest, credential: Credential) {
    Truthy(req.base64Image) && credential.Issued? && Truthy(credential.token)
  }

  function ReplyTo(req: TranscriptRequest, credential: Credential, upstream: (GeminiRequest, string) -> GeminiReply)
    : GeminiReply
    requires Forwarded(req, credential)
  {
    upstream(BuildRequest(req.base64Image.value, req.mimeType), credential.token.value)
  }

  /** The handler body up to `response.json()`: the checks and the generation call. */
  function Fetch(req: TranscriptRequest, credential: Credential, upstream: (GeminiRequest, string) -> GeminiReply)
    : (c: Completion<ResponseBody>)
    ensures c.Returned? ==> Forwarded(req, credential) && ReplyTo(req, credential, upstream) == Received(c.value)
    ensures Forwarded(req, credential) && ReplyTo(req, credential, upstream).Received? ==> c.Returned?
  {
    if !Truthy(req.base64Image) then Raise(InvalidArgument, NoImageMessage)
    else match credential
      case CredentialFailed(e) => Threw(Unclassified(e))
      case Issued(token) =>
        if !Truthy(token) then Raise(Internal, NoTokenMessage)
        else match upstream(BuildRequest(req.base64Image.value, req.mimeType), token.value)
          case CallFailed(e) => Threw(Unclassified(e))
          case Rejected(statusText, errorText) => Raise(Internal, RejectionMessage(statusText, errorText))
          case Received(body) => Returned(body)
  }

  /**
   * The inner `try`, with the parsed value returned: any failure to map,
   * join or parse becomes the fixed parse-failure error.
   */
  function ParseResponse<J>(body: ResponseBody, parse: string -> Option<J>): (c: Completion<J>)
    ensures c.Threw? ==> c.thrown == Classified(HttpsError(Internal, ParseFailedMessage))
    ensures c.Returned? ==> body.ChunkArray? && Combine(body.items).Some?
                            && parse(StripFences(Combine(body.items).value)) == Some(c.value)
  {
    match body
    case NotAnArray => Raise(Internal, ParseFailedMessage)
    case ChunkArray(items) =>
      match Combine(items)
      case None => Raise(Internal, ParseFailedMessage)
      case Some(text) =>
        match parse(StripFences(text))
        case None => Raise(Internal, ParseFailedMessage)
        case Some(v) => Returned(v)
  }

  /** The handler body with its inner `try`. */
  function TranscriptBody<J>(
    req: TranscriptRequest, credential: Credential,
    upstream: (GeminiRequest, string) -> GeminiReply, parse: string -> Option<J>): (c: Completion<J>)
    ensures !Forwarded(req, credential) ==> c.Threw?
    ensures c.Threw? && c.thrown.Unclassified? ==>
              || credential == CredentialFailed(c.thrown.foreign)
              || (Forwarded(req, credential) && ReplyTo(req, credential, upstream) == CallFailed(c.thrown.foreign))
    ensures c.Returned? ==> Forwarded(req, credential) && ReplyTo(req, credential, upstream).Received?
                            && ParseResponse(ReplyTo(req, credential, upstream).body, parse) == c
  {
    match Fetch(req, credential, upstream)
    case Threw(t) => Threw(t)
    case Returned(body) => ParseResponse(body, parse)
  }

  /**
   * `processTranscript`, with the parsed value returned: the image is
   * checked before any credential is requested, a missing token stops the
   * call before the upstream, and only a forwarded call can succeed.
   */
  function ProcessTranscript<J>(
    req: TranscriptRequest, credential: Credential,
    upstream: (GeminiRequest, string) -> GeminiReply, parse: string -> Option<J>): (r: Result<J, HttpsError>)
    ensures !Truthy(req.base64Image) ==> r == Failure(HttpsError(InvalidArgument, NoImageMessage))
    ensures Truthy(req.base64Image) && credential.Issued? && !Truthy(credential.token) ==>
              r == Failure(HttpsError(Internal, NoTokenMessage))
    ensures r.Success? ==> Forwarded(req, credential)
  {
    Catch(TranscriptBody(req, credential, upstream, parse), UnexpectedErrorMessage)
  }

  /** A missing image is refused without consulting the credential provider or the upstream. */
  lemma NoImageNoCredential<J>(
    req: TranscriptRequest, c1: Credential, c2: Credential,
    u1: (GeminiRequest, string) -> GeminiReply, u2: (GeminiRequest, string) -> GeminiReply,
    parse: string -> Option<J>)
    requires !Truthy(req.base64Image)
    ensures ProcessTranscript(req, c1, u1, parse) == ProcessTranscript(req, c2, u2, parse)
  {
  }

  /** A call stopped before the generation request makes no upstream call. */
  lemma RejectedCallsIgnoreUpstream<J>(
    req: TranscriptRequest, credential: Credential,
    u1: (GeminiRequest, string) -> GeminiReply, u2: (GeminiRequest, string) -> GeminiReply,
    parse: string -> Option<J>)
    requires !Forwarded(req, credential)
    ensures ProcessTranscript(req, credential, u1, parse) == ProcessTranscript(req, credential, u2, parse)
    ensures ProcessTranscript(req, credential, u1, parse).Failure?
  {
  }

  /** A rejected generation call is `internal`, naming the status text and the raw error body. */
  lemma RejectedCallInternal<J>(
    req: TranscriptRequest, credential: Credential,
    upstream: (GeminiRequest, string) -> GeminiReply, parse: string -> Option<J>)
    requires Forwarded(req, credential)
    requires ReplyTo(req, credential, upstream).Rejected?
    ensures var r := ProcessTranscript(req, credential, upstream, parse);
            var reply := ReplyTo(req, credential, upstream);
            && r.Failure? && r.error.code == Internal
            && Contains(r.error.message, reply.statusText)
            && Contains(r.error.message, reply.errorText)
  {
    var reply := ReplyTo(req, credential, upstream);
    RejectionMessageCarriesBoth(reply.statusText, reply.errorText);
  }

  /**
   * A body that cannot be read as chunks, or whose stripped text does not
   * parse, yields the fixed parse-failure error; no part of the raw reply
   * reaches the caller.
   */
  lemma UnparsableReplyHidden<J>(
    req: TranscriptRequest, credential: Credential,
    upstream: (GeminiRequest, string) -> GeminiReply, parse: string -> Option<J>)
    requires Forwarded(req, credential)
    requires ReplyTo(req, credential, upstream).Received?
    requires var body := ReplyTo(req, credential, upstream).body;
             || body.NotAnArray?
             || Combine(body.items).None?
             || parse(StripFences(Combine(body.items).value)).None?
    ensures ProcessTranscript(req, credential, upstream, parse) == Failure(HttpsError(Internal, ParseFailedMessage))
  {
  }

  /**
   * A reply of non-null chunks whose fence-stripped, joined first texts
   * parse to `v` returns `v`.
   */
  lemma ReturnsParsedChunks<J>(
    req: TranscriptRequest, credential: Credential,
    upstream: (GeminiRequest, string) -> GeminiReply, parse: string -> Option<J>, v: J)
    requires Forwarded(req, credential)
    requires ReplyTo(req, credential, upstream).Received?
    requires ReplyTo(req, credential, upstream).body.ChunkArray?
    requires var items := ReplyTo(req, credential, upstream).body.items;
             && (forall i :: 0 <= i < |items| ==> items[i].Some?)
             && parse(StripFences(Concat(Texts(items)))) == Some(v)
    ensures ProcessTranscript(req, credential, upstream, parse) == Success(v)
  {
    CombineIsJoin(ReplyTo(req, credential, upstream).body.items);
  }

  /** An exception from the credential provider or the HTTP exchange is wrapped as `internal`. */
  lemma ForeignFailuresWrapped<J>(
    req: TranscriptRequest, credential: Credential,
    upstream: (GeminiRequest, string) -> GeminiReply, parse: string -> Option<J>, e: Foreign)
    requires Truthy(req.base64Image)
    requires credential == CredentialFailed(e) || (Forwarded(req, credential) && ReplyTo(req, credential, upstream) == CallFailed(e))
    ensures var r := ProcessTranscript(req, credential, upstream, parse);
            && (e.ErrorInstance? ==> r == Failure(HttpsError(Internal, e.message)))
            && (e.NonErrorValue? ==> r == Failure(HttpsError(Internal, UnexpectedErrorMessage)))
  {
  }

  // The source as written logs an undeclared `subjects` after a successful
  // parse (gemini_example.ts:143). That line throws a ReferenceError inside
  // the inner `try`, so the parse-failure error replaces the parsed value.

  /** The inner `try` as written: a successful parse is followed by the throwing log line. */
  function ParseResponseAsWritten<J>(body: ResponseBody, parse: string -> Option<J>): (c: Completion<J>)
    ensures c == Threw(Classified(HttpsError(Internal, ParseFailedMessage)))
  {
    match ParseResponse(body, parse)
    case Returned(_) => Raise(Internal, ParseFailedMessage)
    case Threw(t) => Threw(t)
  }

  function ProcessTranscriptAsWritten<J>(
    req: TranscriptRequest, credential: Credential,
    upstream: (GeminiRequest, string) -> GeminiReply, parse: string -> Option<J>): (r: Result<J, HttpsError>)
    ensures r.Failure?
  {
    var body :=
      match Fetch(req, credential, upstream)
      case Threw(t) => Threw(t)
      case Returned(b) => ParseResponseAsWritten(b, parse);
    Catch(body, UnexpectedErrorMessage)
  }

  /** As written, the handler never returns a transcript, whatever the inputs. */
  lemma AsWrittenNeverSucceeds<J>(
    req: TranscriptRequest, credential: Credential,
    upstream: (GeminiRequest, string) -> GeminiReply, parse: string -> Option<J>)
    ensures ProcessTranscriptAsWritten(req, credential, upstream, parse).Failure?
    ensures ProcessTranscript(req, credential, upstream, parse).Success? ==>
              ProcessTranscriptAsWritten(req, credential, upstream, parse)
              == Failure(HttpsError(Internal, ParseFailedMessage))
  {
  }

  /** The two differ on a well-formed reply: one chunk holding a fenced JSON block. */
  lemma AsWrittenDiffersFromIntended()
    ensures var req := TranscriptRequest(Some("aW1n"), Some("image/png"));
            var credential := Issued(Some("token"));
            var text := JsonFence + "{}" + Fence;
            var chunk := Chunk(Some([Some(Candidate(Some(CandidateContent(Some([Some(ResponsePart(Some(text)))])))))]));
            var upstream := (g: GeminiRequest, t: string) => Received(ChunkArray([Some(chunk)]));
            var parse := (s: string) => if s == "{}" then Some(0) else None;
            && ProcessTranscript(req, credential, upstream, parse) == Success(0)
            && ProcessTranscriptAsWritten(req, credential, upstream, parse).Failure?
  {
    var text := JsonFence + "{}" + Fence;
    var chunk := Chunk(Some([Some(Candidate(Some(CandidateContent(Some([Some(ResponsePart(Some(text)))])))))]));
    assert FirstText(chunk) == Some(text);
    assert Combine([Some(chunk)]) == Some(text) by {
      assert [Some(chunk)][1..] == [];
      assert text + "" == text;
    }
    assert FenceFree("{}");
    UnwrapsJsonBlock("{}");
  }
}
