/** The workspace page: four pieces of state and the three handlers that
    update them. Each handler runs as one atomic transition; an operation
    raises the processing flag before calling its server action and always
    lowers it afterwards, whether the action succeeded or failed. */
module Workspace {
  import opened ModelCall
  import Actions
  import Panel

  /** A notification: a success notice, or a destructive alert showing the
      error's message. */
  datatype Toast = Notice(title: string, description: string) | Alert(title: string, cause: Error)

  const EnhancementComplete := Notice("Enhancement Complete", "Your image has been successfully enhanced.")
  const EnhancementFailedTitle := "Enhancement Failed"
  const VariationsGenerated := Notice("Variations Generated", "Stylistic variations have been created.")
  const GenerationFailedTitle := "Generation Failed"

  /** `!!originalImage`: a present, non-empty data URL. */
  predicate Selected(image: Option<string>)
  {
    image.Some? && image.value != ""
  }

  /** The selection test is JavaScript truthiness of the optional data URL:
      a missing image and an empty string are both unselected. */
  lemma SelectedIsTruthy(dataUrl: string)
    ensures !Selected(None)
    ensures Selected(Some(dataUrl)) <==> dataUrl != ""
  {
  }

  class Home {
    var originalImage: Option<string>
    var enhancedImage: Option<string>
    var variations: seq<string>
    var isProcessing: bool

    constructor()
      ensures originalImage == None && enhancedImage == None
      ensures variations == [] && !isProcessing
    {
      originalImage := None;
      enhancedImage := None;
      variations := [];
      isProcessing := false;
    }

    /** The panel's two flags, as the page passes them. */
    function PanelGate(): (g: Panel.Gate)
      reads this
      ensures g.isImageSelected <==> originalImage.Some? && originalImage.value != ""
      ensures g.isProcessing == isProcessing
    {
      Panel.Gate(Selected(originalImage), isProcessing)
    }

    /** A new image replaces the old one and clears its results. */
    method HandleImageSelect(dataUrl: string)
      modifies this
      ensures originalImage == Some(dataUrl)
      ensures enhancedImage == None && variations == []
      ensures isProcessing == old(isProcessing)
    {
      originalImage := Some(dataUrl);
      enhancedImage := None;
      variations := [];
    }

    /** `handleEnhance`. Returns the toast shown, the model calls made, and
        whether the processing flag was up when the action was invoked. */
    method HandleEnhance(oracle: Oracle) returns (toast: Option<Toast>, calls: seq<Request>, busyAtCall: bool)
      modifies this
      ensures !Selected(old(originalImage)) ==>
        && unchanged(this)
        && toast == None && calls == [] && !busyAtCall
      ensures Selected(old(originalImage)) ==>
        var run := Actions.PerformImageEnhancement(old(originalImage).value, oracle);
        && busyAtCall && !isProcessing
        && calls == run.calls
        && originalImage == old(originalImage) && variations == old(variations)
        && (run.result.Ok? ==> enhancedImage == Some(run.result.value) && toast == Some(EnhancementComplete))
        && (run.result.Err? ==>
              enhancedImage == old(enhancedImage) && toast == Some(Alert(EnhancementFailedTitle, run.result.error)))
    {
      toast, calls, busyAtCall := None, [], false;
      if !Selected(originalImage) {
        return;
      }
      isProcessing := true;
      busyAtCall := isProcessing;
      var run := Actions.PerformImageEnhancement(originalImage.value, oracle);
      calls := run.calls;
      match run.result {
        case Ok(uri) =>
          enhancedImage := Some(uri);
          toast := Some(EnhancementComplete);
        case Err(e) =>
          toast := Some(Alert(EnhancementFailedTitle, e));
      }
      isProcessing := false;
    }

    /** `handleGenerateVariations`, with the prompt the panel submitted. */
    method HandleGenerateVariations(prompt: string, oracle: Oracle)
      returns (toast: Option<Toast>, calls: seq<Request>, busyAtCall: bool)
      modifies this
      ensures !Selected(old(originalImage)) ==>
        && unchanged(this)
        && toast == None && calls == [] && !busyAtCall
      ensures Selected(old(originalImage)) ==>
        var run := Actions.PerformVariationGeneration(old(originalImage).value, prompt, oracle);
        && busyAtCall && !isProcessing
        && calls == run.calls
        && originalImage == old(originalImage) && enhancedImage == old(enhancedImage)
        && (run.result.Ok? ==> variations == run.result.value && toast == Some(VariationsGenerated))
        && (run.result.Err? ==>
              variations == old(variations) && toast == Some(Alert(GenerationFailedTitle, run.result.error)))
    {
      toast, calls, busyAtCall := None, [], false;
      if !Selected(originalImage) {
        return;
      }
      isProcessing := true;
      busyAtCall := isProcessing;
      var run := Actions.PerformVariationGeneration(originalImage.value, prompt, oracle);
      calls := run.calls;
      match run.result {
        case Ok(results) =>
          variations := results;
          toast := Some(VariationsGenerated);
        case Err(e) =>
          toast := Some(Alert(GenerationFailedTitle, e));
      }
      isProcessing := false;
    }
  }

  /** An enabled enhance button means the handler gets past its guard and the
      action gets past its image check, so the model is called. */
  lemma EnhanceEnabledReachesModel(h: Home, oracle: Oracle)
    requires !Panel.EnhanceDisabled(h.PanelGate())
    ensures Selected(h.originalImage) && !h.isProcessing
    ensures Actions.PerformImageEnhancement(h.originalImage.value, oracle).calls != []
  {
  }

  /** An enabled generate button means both guards of the action pass, so a
      prompt submitted from it always reaches the model and never fails
      validation. */
  lemma GenerateEnabledReachesModel(h: Home, prompt: string, oracle: Oracle)
    requires !Panel.GenerateDisabled(h.PanelGate(), prompt)
    ensures Selected(h.originalImage) && !h.isProcessing
    ensures var run := Actions.PerformVariationGeneration(h.originalImage.value, prompt, oracle);
      run.calls != [] && !(run.result.Err? && run.result.error.Invalid?)
  {
    Actions.VariationGuardsPrecedeModel(h.originalImage.value, prompt, oracle);
  }
}
