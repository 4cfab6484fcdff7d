/**
  `generateAnimalImages`: two retried requests to the image model (skeleton
  first, then the living animal), extraction of the first inline image of each
  response, the empty-image check, and the mapping of every failure inside the
  request block to one of two user-facing messages.

  The model call itself is opaque: for each of the two requests the caller
  supplies the oracle of what the i-th attempt of that request produces.
*/
module Images {
  import opened Options
  import opened Strings
  import opened Retry

  /** The parts of a provider response that `extractUrl` looks at; every
      optional-chained field may be missing. */
  datatype InlineData = InlineData(data: string)
  datatype Part = Part(inlineData: Option<InlineData>)
  datatype Content = Content(parts: Option<seq<Part>>)
  datatype Candidate = Candidate(content: Option<Content>)
  datatype Response = Response(candidates: Option<seq<Candidate>>)

  datatype ImagePair = ImagePair(skeleton: string, living: string)

  /** How a call of `generateAnimalImages` ends, how many times each request
      was attempted, and every sleep in order (ms). */
  datatype ImagesTrace = ImagesTrace(outcome: Outcome<ImagePair>, skeletonCalls: nat, livingCalls: nat, sleeps: seq<int>)

  const DataUrlPrefix := "data:image/png;base64,"

  /** The pause between the two requests (ms). */
  const InterRequestPause := 500

  /** Raised when a response holds no image. */
  const NoImagesMessage := "No se pudieron generar las imágenes."

  /** The two messages callers can see. */
  const RateLimitMessage := "¡Vaya! Demasiados pacientes. Espera un momento, doctor/a."
  const GenericMessage := "¡Ay! El equipo ha fallado. ¿Reintentamos la prueba?"

  /** `response.candidates?.[0]?.content?.parts`. */
  function FirstCandidateParts(response: Response): Option<seq<Part>>
  {
    match response.candidates
    case None => None
    case Some(cs) =>
      if |cs| == 0 then None
      else match cs[0].content
        case None => None
        case Some(c) => c.parts
  }

  /** Position of the first part carrying inline data, if any. */
  function FirstInline(parts: seq<Part>): (r: Option<nat>)
    ensures r.Some? ==> r.value < |parts| && parts[r.value].inlineData.Some?
    ensures r.Some? ==> forall j :: 0 <= j < r.value ==> parts[j].inlineData.None?
    ensures r.None? ==> forall j :: 0 <= j < |parts| ==> parts[j].inlineData.None?
  {
    if |parts| == 0 then None
    else if parts[0].inlineData.Some? then Some(0)
    else match FirstInline(parts[1..])
      case None => None
      case Some(k) => Some(k + 1)
  }

  /** `extractUrl`: the data URL of the first inline image among the first
      candidate's parts, or "" when there is none. */
  function ExtractUrl(response: Response): (url: string)
    ensures url == "" || StartsWith(url, DataUrlPrefix)
    ensures url == "" <==>
              (FirstCandidateParts(response).None?
               || forall j :: 0 <= j < |FirstCandidateParts(response).value| ==>
                    FirstCandidateParts(response).value[j].inlineData.None?)
    ensures url != "" ==>
              exists k :: 0 <= k < |FirstCandidateParts(response).value|
                && (forall j :: 0 <= j < k ==> FirstCandidateParts(response).value[j].inlineData.None?)
                && FirstCandidateParts(response).value[k].inlineData.Some?
                && url == DataUrlPrefix + FirstCandidateParts(response).value[k].inlineData.value.data
  {
    match FirstCandidateParts(response)
    case None => ""
    case Some(parts) =>
      match FirstInline(parts)
      case None => ""
      case Some(k) =>
        var u := DataUrlPrefix + parts[k].inlineData.value.data;
        assert u[..|DataUrlPrefix|] == DataUrlPrefix;
        u
  }

  /** The message the service rethrows for a caught error. */
  function UserMessage(caught: Error): (m: string)
    ensures m == RateLimitMessage || m == GenericMessage
    ensures m == RateLimitMessage <==> IsRateLimit(caught.message)
  {
    if IsRateLimit(caught.message) then RateLimitMessage else GenericMessage
  }

  /** What the `catch` block rethrows: `new Error(message)`, without a status. */
  function Rethrown(caught: Error): Outcome<ImagePair>
  {
    Threw(Error(UserMessage(caught), None))
  }

  /** `generateAnimalImages` with the two requests' attempt oracles. */
  function GenerateAnimalImages(skeleton: nat -> Attempt<Response>, living: nat -> Attempt<Response>): (t: ImagesTrace)
    ensures t.outcome.Returned? ==>
              t.outcome.value.skeleton != "" && t.outcome.value.living != ""
              && StartsWith(t.outcome.value.skeleton, DataUrlPrefix)
              && StartsWith(t.outcome.value.living, DataUrlPrefix)
    ensures t.outcome.Threw? ==>
              t.outcome.error.status.None?
              && (t.outcome.error.message == RateLimitMessage || t.outcome.error.message == GenericMessage)
    ensures t.skeletonCalls <= DefaultMaxRetries && t.livingCalls <= DefaultMaxRetries
    ensures t.livingCalls > 0 ==> t.skeletonCalls > 0
  {
    var s := FetchWithRetry(skeleton, DefaultMaxRetries, DefaultInitialDelay);
    match s.outcome
    case Threw(e) => ImagesTrace(Rethrown(e), s.calls, 0, s.delays)
    case Returned(skeletonResponse) =>
      var l := FetchWithRetry(living, DefaultMaxRetries, DefaultInitialDelay);
      var sleeps := s.delays + [InterRequestPause] + l.delays;
      match l.outcome
      case Threw(e) => ImagesTrace(Rethrown(e), s.calls, l.calls, sleeps)
      case Returned(livingResponse) =>
        var skeletonUrl := ExtractUrl(skeletonResponse);
        var livingUrl := ExtractUrl(livingResponse);
        if skeletonUrl == "" || livingUrl == "" then
          ImagesTrace(Rethrown(Error(NoImagesMessage, None)), s.calls, l.calls, sleeps)
        else
          ImagesTrace(Returned(ImagePair(skeletonUrl, livingUrl)), s.calls, l.calls, sleeps)
  }

  /** The "no image" error carries neither rate-limit marker, so it is reported
      with the generic message. */
  lemma NoImagesIsGeneric()
    ensures UserMessage(Error(NoImagesMessage, None)) == GenericMessage
  {
    var m := NoImagesMessage;
    assert forall k :: 0 <= k < |m| ==> m[k] != '4' && m[k] != 'R';
    NotContainsWithoutFirstChar(m, "429");
    NotContainsWithoutFirstChar(m, "RESOURCE_EXHAUSTED");
  }

  /** Only the first candidate is looked at, and within it nothing after the
      first part carrying an image: appending parts or candidates never changes
      a URL already found. */
  lemma ExtractUrlFirstMatch(parts: seq<Part>, moreParts: seq<Part>, content: Option<Content>, others: seq<Candidate>)
    requires ExtractUrl(Response(Some([Candidate(Some(Content(Some(parts))))]))) != ""
    ensures ExtractUrl(Response(Some([Candidate(Some(Content(Some(parts + moreParts))))] + others)))
              == ExtractUrl(Response(Some([Candidate(Some(Content(Some(parts))))])))
  {
    FirstInlinePrefix(parts, moreParts);
  }

  /** A first image found in `parts` stays the first image of any extension. */
  lemma {:induction false} FirstInlinePrefix(parts: seq<Part>, moreParts: seq<Part>)
    requires FirstInline(parts).Some?
    ensures FirstInline(parts + moreParts) == FirstInline(parts)
  {
    if parts[0].inlineData.None? {
      assert (parts + moreParts)[1..] == parts[1..] + moreParts;
      FirstInlinePrefix(parts[1..], moreParts);
    }
  }

  /** A failed skeleton request ends the call: the living request is never
      attempted, the only sleeps are the skeleton's backoffs, and the caught
      error is mapped to a user message. */
  lemma SkeletonFailureSkipsLiving(skeleton: nat -> Attempt<Response>, living: nat -> Attempt<Response>)
    requires FetchWithRetry(skeleton, DefaultMaxRetries, DefaultInitialDelay).outcome.Threw?
    ensures var s := FetchWithRetry(skeleton, DefaultMaxRetries, DefaultInitialDelay);
      GenerateAnimalImages(skeleton, living)
        == ImagesTrace(Threw(Error(UserMessage(s.outcome.error), None)), s.calls, 0, s.delays)
  {
  }

  /** The call succeeds exactly when both requests return a response and both
      responses hold an image; the result is the pair of extracted URLs, and the
      sleeps are the skeleton's backoffs, the pause, then the living backoffs. */
  lemma SuccessIffBothImages(skeleton: nat -> Attempt<Response>, living: nat -> Attempt<Response>)
    ensures var s := FetchWithRetry(skeleton, DefaultMaxRetries, DefaultInitialDelay);
      var l := FetchWithRetry(living, DefaultMaxRetries, DefaultInitialDelay);
      var t := GenerateAnimalImages(skeleton, living);
      && (t.outcome.Returned? <==>
            s.outcome.Returned? && l.outcome.Returned?
            && ExtractUrl(s.outcome.value) != "" && ExtractUrl(l.outcome.value) != "")
      && (t.outcome.Returned? ==>
            t.outcome.value == ImagePair(ExtractUrl(s.outcome.value), ExtractUrl(l.outcome.value))
            && t.sleeps == s.delays + [InterRequestPause] + l.delays)
  {
  }

  /** Every failure after a successful skeleton request is reported by one of
      the two messages: the rate-limit one exactly when the living request's
      error names a rate limit, the generic one for every other error and for a
      response without an image. */
  lemma FailureAfterSkeleton(skeleton: nat -> Attempt<Response>, living: nat -> Attempt<Response>)
    requires FetchWithRetry(skeleton, DefaultMaxRetries, DefaultInitialDelay).outcome.Returned?
    ensures var l := FetchWithRetry(living, DefaultMaxRetries, DefaultInitialDelay);
      var t := GenerateAnimalImages(skeleton, living);
      && (l.outcome.Threw? ==>
            t.outcome == Threw(Error(UserMessage(l.outcome.error), None)))
      && (l.outcome.Returned? && t.outcome.Threw? ==>
            t.outcome == Threw(Error(GenericMessage, None)))
      && t.skeletonCalls >= 1
  {
    NoImagesIsGeneric();
    var s := FetchWithRetry(skeleton, DefaultMaxRetries, DefaultInitialDelay);
    var l := FetchWithRetry(living, DefaultMaxRetries, DefaultInitialDelay);
    var t := GenerateAnimalImages(skeleton, living);
    assert s.calls >= 1;
    if l.outcome.Returned? {
      var su := ExtractUrl(s.outcome.value);
      var lu := ExtractUrl(l.outcome.value);
      if su == "" || lu == "" {
        assert t.outcome == Rethrown(Error(NoImagesMessage, None));
      }
    }
  }

  /** The rate-limit message is shown exactly when the error that stopped the
      call (the skeleton's or the living request's) names a rate limit. */
  lemma RateLimitMessageIff(skeleton: nat -> Attempt<Response>, living: nat -> Attempt<Response>)
    requires GenerateAnimalImages(skeleton, living).outcome.Threw?
    ensures var s := FetchWithRetry(skeleton, DefaultMaxRetries, DefaultInitialDelay);
      var l := FetchWithRetry(living, DefaultMaxRetries, DefaultInitialDelay);
      (GenerateAnimalImages(skeleton, living).outcome.error.message == RateLimitMessage
       <==> (s.outcome.Threw? && IsRateLimit(s.outcome.error.message))
            || (s.outcome.Returned? && l.outcome.Threw? && IsRateLimit(l.outcome.error.message)))
  {
    var s := FetchWithRetry(skeleton, DefaultMaxRetries, DefaultInitialDelay);
    if s.outcome.Returned? {
      FailureAfterSkeleton(skeleton, living);
    }
  }
}
