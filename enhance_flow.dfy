/** The enhancement flow: one call of the hosted model with the photo and a
    fixed instruction; the answer's media url is the single enhanced image. */
module EnhanceFlow {
  import opened ModelCall

  datatype EnhanceInput = EnhanceInput(photoDataUri: string)

  /** The declared output: exactly one image, as a string. */
  datatype EnhanceOutput = EnhanceOutput(enhancedPhotoDataUri: string)

  const EnhanceInstruction := "enhance this image, upscale it and denoise it"

  function EnhanceRequest(input: EnhanceInput): (q: Request)
  {
    ImageRequest(input.photoDataUri, EnhanceInstruction)
  }

  /** `enhanceImageFlow`. The model is called once, with the photo passed
      through unchanged. `media!.url!` throws on an absent media; an absent url
      reaches the output schema, which demands a string, and is rejected; an
      empty url is a string and passes. */
  function EnhanceImage(input: EnhanceInput, oracle: Oracle): (run: Run<EnhanceOutput>)
    ensures run.calls == [ImageRequest(input.photoDataUri, EnhanceInstruction)]
    ensures var answer := oracle(0, EnhanceRequest(input));
      && (run.result.Ok? <==> MediaUrl(answer).Some?)
      && (run.result.Ok? ==> run.result.value.enhancedPhotoDataUri == MediaUrl(answer).value)
      && (answer.Threw? ==> run.result == Err(ModelError(answer.message)))
      && (answer == Returned(None) ==> run.result == Err(NoMedia))
      && (answer == Returned(Some(Media(None))) ==> run.result == Err(OutputRejected))
  {
    var request := EnhanceRequest(input);
    var calls := [request];
    match oracle(0, request)
    case Threw(message) => Run(Err(ModelError(message)), calls)
    case Returned(None) => Run(Err(NoMedia), calls)
    case Returned(Some(Media(None))) => Run(Err(OutputRejected), calls)
    case Returned(Some(Media(Some(url)))) => Run(Ok(EnhanceOutput(url)), calls)
  }
}
