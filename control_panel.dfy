/** The control panel: which controls are enabled, the guarded submit of the
    style prompt, and the history list with its loading placeholders. */
module Panel {
  import opened ModelCall

  /** The two flags the page hands to the panel. */
  datatype Gate = Gate(isImageSelected: bool, isProcessing: bool)

  predicate UploadDisabled(g: Gate)
  {
    g.isProcessing
  }

  predicate EnhanceDisabled(g: Gate)
  {
    !g.isImageSelected || g.isProcessing
  }

  predicate PromptDisabled(g: Gate)
  {
    !g.isImageSelected || g.isProcessing
  }

  predicate GenerateDisabled(g: Gate, prompt: string)
  {
    !g.isImageSelected || prompt == "" || g.isProcessing
  }

  /** One operation at a time: while processing, no control that starts an
      operation or changes its input is enabled. */
  lemma BusyDisablesEveryControl(g: Gate, prompt: string)
    requires g.isProcessing
    ensures UploadDisabled(g) && EnhanceDisabled(g) && PromptDisabled(g) && GenerateDisabled(g, prompt)
  {
  }

  /** Upload waits only for a running operation: it is disabled exactly
      while processing, so a first image can be chosen before any image is
      selected, when enhancing is still disabled. */
  lemma UploadWaitsOnlyForProcessing(g: Gate)
    ensures UploadDisabled(g) <==> g.isProcessing
    ensures !g.isImageSelected && !g.isProcessing ==> !UploadDisabled(g) && EnhanceDisabled(g)
  {
  }

  /** Generating needs everything enhancing needs, and a prompt. */
  lemma GenerateNeedsPrompt(g: Gate, prompt: string)
    ensures !GenerateDisabled(g, prompt) <==> !EnhanceDisabled(g) && prompt != ""
    ensures !EnhanceDisabled(g) <==> g.isImageSelected && !g.isProcessing
    ensures !PromptDisabled(g) <==> !EnhanceDisabled(g)
  {
  }

  /** One entry of the history list handed to the panel. */
  datatype HistoryImage = HistoryImage(id: string, storageUrl: string, originalFileName: string)

  /** A rendered history cell: a loading skeleton, or a clickable thumbnail
      that selects its image. */
  datatype HistoryTile = Placeholder | Thumbnail(image: HistoryImage)

  const PlaceholderCount: nat := 4

  /** `Array.from({length: n}).map(...)` of skeleton cells. */
  function Placeholders(n: nat): (tiles: seq<HistoryTile>)
  {
    seq(n, _ => Placeholder)
  }

  function Thumbnails(history: seq<HistoryImage>): (tiles: seq<HistoryTile>)
    ensures |tiles| == |history|
    ensures forall k :: 0 <= k < |history| ==> tiles[k] == Thumbnail(history[k])
  {
    if history == [] then [] else [Thumbnail(history[0])] + Thumbnails(history[1..])
  }

  /** While history loads, four placeholders; otherwise one thumbnail per
      record, in the given order. */
  function HistoryTiles(isLoadingHistory: bool, imageHistory: seq<HistoryImage>): (tiles: seq<HistoryTile>)
    ensures isLoadingHistory ==> |tiles| == PlaceholderCount && forall t :: t in tiles ==> t == Placeholder
    ensures !isLoadingHistory ==> |tiles| == |imageHistory|
    ensures !isLoadingHistory ==> forall k :: 0 <= k < |tiles| ==> tiles[k] == Thumbnail(imageHistory[k])
  {
    if isLoadingHistory then Placeholders(PlaceholderCount) else Thumbnails(imageHistory)
  }

  class ControlPanel {
    /** The text of the style prompt input. */
    var prompt: string

    constructor()
      ensures prompt == ""
    {
      prompt := "";
    }

    /** The input's `onChange`. */
    method ChangePrompt(value: string)
      modifies this
      ensures prompt == value
    {
      prompt := value;
    }

    /** `handleGenerate`: the variation callback is called, with the prompt
        unchanged, iff the prompt is non-empty. */
    method HandleGenerate() returns (submitted: Option<string>)
      ensures submitted.Some? <==> prompt != ""
      ensures submitted.Some? ==> submitted.value == prompt
    {
      if prompt != "" {
        submitted := Some(prompt);
      } else {
        submitted := None;
      }
    }

    /** A click on the enabled submit button runs `handleGenerate`, which then
        always submits the prompt. */
    method ClickGenerate(g: Gate) returns (submitted: Option<string>)
      requires !GenerateDisabled(g, prompt)
      ensures submitted == Some(prompt)
    {
      submitted := HandleGenerate();
    }
  }
}
