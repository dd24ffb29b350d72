/** The two server actions: guard clauses on their inputs, one flow run,
    the flow's value passed through and its failure re-raised with a fixed
    prefix. */
module Actions {
  import opened ModelCall
  import EnhanceFlow
  import VariationsFlow

  const NoImageMessage := "No image data provided."
  const NoPromptMessage := "A prompt is required to generate variations."
  const EnhanceFailurePrefix := "Failed to enhance image: "
  const VariationsFailurePrefix := "Failed to generate variations: "

  /** `performImageEnhancement`, stated in terms of the model's one answer. */
  function PerformImageEnhancement(photoDataUri: string, oracle: Oracle): (run: Run<string>)
    ensures photoDataUri == "" ==> run == Run(Err(Invalid(NoImageMessage)), [])
    ensures photoDataUri != "" ==>
      var answer := oracle(0, EnhanceFlow.EnhanceRequest(EnhanceFlow.EnhanceInput(photoDataUri)));
      && run.calls == [ImageRequest(photoDataUri, EnhanceFlow.EnhanceInstruction)]
      && (run.result.Ok? <==> MediaUrl(answer).Some?)
      && (run.result.Ok? ==> run.result.value == MediaUrl(answer).value)
      && (run.result.Err? ==> run.result.error.Wrapped? && run.result.error.prefix == EnhanceFailurePrefix)
      && (answer.Threw? ==> run.result == Err(Wrapped(EnhanceFailurePrefix, ModelError(answer.message))))
      && (answer == Returned(None) ==> run.result == Err(Wrapped(EnhanceFailurePrefix, NoMedia)))
      && (answer == Returned(Some(Media(None))) ==> run.result == Err(Wrapped(EnhanceFailurePrefix, OutputRejected)))
  {
    if photoDataUri == "" then
      Run(Err(Invalid(NoImageMessage)), [])
    else
      var flow := EnhanceFlow.EnhanceImage(EnhanceFlow.EnhanceInput(photoDataUri), oracle);
      match flow.result
      case Ok(output) => Run(Ok(output.enhancedPhotoDataUri), flow.calls)
      case Err(e) => Run(Err(Wrapped(EnhanceFailurePrefix, e)), flow.calls)
  }

  /** `performVariationGeneration`: the image is checked before the prompt;
      a successful list, empty or not, is returned unchanged. */
  function PerformVariationGeneration(photoDataUri: string, prompt: string, oracle: Oracle): (run: Run<seq<string>>)
    ensures photoDataUri == "" ==> run == Run(Err(Invalid(NoImageMessage)), [])
    ensures photoDataUri != "" && prompt == "" ==> run == Run(Err(Invalid(NoPromptMessage)), [])
    ensures photoDataUri != "" && prompt != "" ==>
      var flow := VariationsFlow.Flow(VariationsFlow.VariationsInput(photoDataUri, prompt), oracle);
      && run.calls == flow.calls
      && (run.result.Ok? <==> flow.result.Ok?)
      && (run.result.Ok? ==> run.result.value == flow.result.value.stylisticVariations)
      && (run.result.Err? ==> run.result.error == Wrapped(VariationsFailurePrefix, flow.result.error))
  {
    if photoDataUri == "" then
      Run(Err(Invalid(NoImageMessage)), [])
    else if prompt == "" then
      Run(Err(Invalid(NoPromptMessage)), [])
    else
      var flow := VariationsFlow.Flow(VariationsFlow.VariationsInput(photoDataUri, prompt), oracle);
      match flow.result
      case Ok(output) => Run(Ok(output.stylisticVariations), flow.calls)
      case Err(e) => Run(Err(Wrapped(VariationsFailurePrefix, e)), flow.calls)
  }

  /** The model is reached exactly when both guards pass: a validation error
      is reported iff no call was made, and every other error carries the
      operation's prefix. */
  lemma VariationGuardsPrecedeModel(photoDataUri: string, prompt: string, oracle: Oracle)
    ensures var run := PerformVariationGeneration(photoDataUri, prompt, oracle);
      && (run.calls == [] <==> photoDataUri == "" || prompt == "")
      && (run.result.Err? && run.result.error.Invalid? <==> run.calls == [])
      && (run.result.Err? && !run.result.error.Invalid? ==> run.result.error.Wrapped? && run.result.error.prefix == VariationsFailurePrefix)
  {
    if photoDataUri != "" && prompt != "" {
      VariationsFlow.FlowContract(VariationsFlow.VariationsInput(photoDataUri, prompt), oracle);
    }
  }

  /** What a successful variation action hands back: up to three non-empty
      urls, the truthy answers of the model in call order, after exactly three
      calls with the same photo and the styled prompt. */
  lemma VariationActionSuccess(photoDataUri: string, prompt: string, oracle: Oracle)
    requires PerformVariationGeneration(photoDataUri, prompt, oracle).result.Ok?
    ensures var run := PerformVariationGeneration(photoDataUri, prompt, oracle);
      var urls := run.result.value;
      var input := VariationsFlow.VariationsInput(photoDataUri, prompt);
      && photoDataUri != "" && prompt != ""
      && urls == VariationsFlow.TruthyUrls(VariationsFlow.Answers(input, oracle))
      && |urls| <= VariationsFlow.VariationCount
      && (forall u :: u in urls ==> u != "")
      && run.calls == VariationsFlow.Repeat(
           ImageRequest(photoDataUri, VariationsFlow.StylePrefix + prompt), VariationsFlow.VariationCount)
  {
    VariationsFlow.FlowContract(VariationsFlow.VariationsInput(photoDataUri, prompt), oracle);
  }

  /** Answers without a usable url are an empty success, not an error. */
  lemma NoUsableUrlIsEmptySuccess(photoDataUri: string, prompt: string, oracle: Oracle)
    requires photoDataUri != "" && prompt != ""
    requires forall k :: 0 <= k < VariationsFlow.VariationCount ==>
      var answer := oracle(k, VariationsFlow.StyleRequest(VariationsFlow.VariationsInput(photoDataUri, prompt)));
      answer.Returned? && (MediaUrl(answer).Some? ==> MediaUrl(answer).value == "")
    ensures PerformVariationGeneration(photoDataUri, prompt, oracle).result == Ok([])
  {
    var input := VariationsFlow.VariationsInput(photoDataUri, prompt);
    var answers := VariationsFlow.Answers(input, oracle);
    VariationsFlow.FlowContract(input, oracle);
    VariationsFlow.UnfoldThree(answers);
    assert VariationsFlow.Kept(answers[0]) == [] && VariationsFlow.Kept(answers[1]) == [] && VariationsFlow.Kept(answers[2]) == [];
  }
}
