# Image session model

A Dafny model of the logic inside a browser image workspace. A user uploads a
photo, asks a hosted generative-image model to enhance it or to produce three
stylistic variations, and browses a gallery of their past records. The hosted
model is an uninterpreted oracle. Each call is answered by
`oracle(n, request)`, where `n` counts the calls of one flow run. An answer
either throws with a message or returns a response whose media, and whose
media url, may be absent.

One module per core source file, plus `ModelCall` for the values both flows
share:

- `ModelCall` (`model_call.dfy`): the request both flows send, call outcomes,
  the error taxonomy and `Run` (a result plus the log of model calls made).
- `EnhanceFlow` (`enhance_flow.dfy`): the enhancement flow, one call.
- `VariationsFlow` (`variations_flow.dfy`): the variations flow. The
  three-iteration loop is a method proved equal to the function `Flow`, and
  the flow's promises are lemmas about `Flow`.
- `Actions` (`actions.dfy`): the two server actions. They check their guards
  in order, pass results through and re-wrap failures with a prefix.
- `Panel` (`control_panel.dfy`): the enable/disable rules, the prompt state
  and its guarded submit, and the history tiles. The predicates
  `UploadDisabled`, `EnhanceDisabled`, `PromptDisabled` and `GenerateDisabled`
  are the four `disabled` expressions of the panel. The lemmas
  `UploadWaitsOnlyForProcessing`, `BusyDisablesEveryControl` and
  `GenerateNeedsPrompt` state what they mean.
- `Gallery` (`image_gallery.dfy`): the owner query, and the client-side
  newest-first sort as an in-place insertion sort on a fresh array copy. A
  stable functional sort `ByRecency` specifies it, with lemmas for
  permutation, order and stability.
- `Workspace` (`workspace.dfy`): the page as a class with the four state
  fields and its three handlers. The predicate `Selected` is the page's
  truthiness test `!!originalImage`. The handlers' guard `!originalImage` is
  its negation.

Notes on what the code does:

- In the variations flow, a call that throws is not caught. It aborts the
  whole flow, and the partial list is lost. Only answers without a truthy url
  are skipped (`ImagelessCallIsSkipped`, `ThrowingCallAborts`).
- The enhancement flow succeeds with an empty string when the model returns
  media whose url is `""`. The output schema only asks for a string. Absent
  media, or an absent url, is a failure.
- The panel's `isImageSelected` is `!!originalImage`, so it is also false for
  an empty data URL, not only for a missing one.

## Model

| member | source | states |
|---|---|---|
| `ModelCall.ImageRequest` | src/ai/flows/automatically-enhance-uploaded-images.ts:54-63 | a request carries the fixed model, text-and-image output, the photo unchanged as the media part and then the instruction text |
| `ModelCall.MediaUrl` | src/ai/flows/generate-stylistic-variations.ts:69 | `media?.url` is present exactly when the call returned media that has a url, and then it is that url |
| `EnhanceFlow.EnhanceImage` | src/ai/flows/automatically-enhance-uploaded-images.ts:47-66 | exactly one model call, with the photo and the fixed enhance instruction; it succeeds iff the answer has a media url, and the single output image is that url; a thrown call, absent media or an absent url is each a distinct failure, never an empty success |
| `VariationsFlow.GenerateStylisticVariations` | src/ai/flows/generate-stylistic-variations.ts:56-74 | the loop yields exactly the result and the call log of the reference function `Flow` |
| `VariationsFlow.AbortIsFinal` | src/ai/flows/generate-stylistic-variations.ts:59-68 | after a call has thrown, later answers change neither the outcome nor the number of calls |
| `VariationsFlow.CallsStopAtFirstThrow` | src/ai/flows/generate-stylistic-variations.ts:58-68 | collection succeeds iff no call throws, and then every call is made; otherwise calls stop at the first one that throws, and its message is the error |
| `VariationsFlow.TruthyUrlsAppend` | src/ai/flows/generate-stylistic-variations.ts:69-71 | the truthy urls of the answers plus one more answer are the earlier ones followed by what that answer contributes |
| `VariationsFlow.CollectIsTruthyUrls` | src/ai/flows/generate-stylistic-variations.ts:69-71 | a successful result is exactly the subsequence of truthy urls, in call order |
| `VariationsFlow.TruthyUrlsBounds` | src/ai/flows/generate-stylistic-variations.ts:69-71 | at most one url per call, and every kept url is non-empty |
| `VariationsFlow.FlowContract` | src/ai/flows/generate-stylistic-variations.ts:56-74 | 1 to 3 calls, all with the same photo and `"Generate an image of this character in the style of: " + prompt`; success iff no call throws, with 3 calls and 0 to 3 non-empty urls in call order; a failure returns no partial list, only the first thrown error |
| `VariationsFlow.AllImagesGiveThree` | src/ai/flows/generate-stylistic-variations.ts:58-73 | three answers with non-empty urls give those three urls, in call order |
| `VariationsFlow.ImagelessCallIsSkipped` | src/ai/flows/generate-stylistic-variations.ts:69-71 | an imageless second answer is skipped, leaving the other two urls after three calls |
| `VariationsFlow.ThrowingCallAborts` | src/ai/flows/generate-stylistic-variations.ts:59-68 | a second call that throws ends the flow after two calls with that error; the first url is discarded |
| `VariationsFlow.UnfoldThree` | src/ai/flows/generate-stylistic-variations.ts:58-72 | for three answers, the kept urls are what the first, second and third answers contribute, in that order |
| `Actions.PerformImageEnhancement` | src/app/actions.ts:6-17 | an empty photo fails with "No image data provided." and makes no call; otherwise one call; success returns exactly the flow's image url; every flow failure is re-raised with the prefix "Failed to enhance image: " followed by the original cause: the thrown message, absent media or an absent url |
| `Actions.PerformVariationGeneration` | src/app/actions.ts:19-36 | the image check comes before the prompt check, and each fails with its fixed message and no call; otherwise the flow's list, empty or not, is returned unchanged, and its failure is re-raised with the prefix "Failed to generate variations: " |
| `Actions.VariationGuardsPrecedeModel` | src/app/actions.ts:23-28 | the model is called iff both the image and the prompt are non-empty; a validation error occurs iff no call was made; every other error carries the operation's prefix |
| `Actions.VariationActionSuccess` | src/app/actions.ts:29-31 | a successful action returns up to three non-empty urls, the truthy answers in call order, after exactly three identical styled calls |
| `Actions.NoUsableUrlIsEmptySuccess` | src/app/actions.ts:29-31 | when no answer has a truthy url and none throws, the result is an empty list without error |
| `Panel.UploadWaitsOnlyForProcessing` | src/components/control-panel.tsx:64 | upload is disabled exactly while processing, so it stays enabled with no image selected, when enhance is disabled |
| `Panel.BusyDisablesEveryControl` | src/components/control-panel.tsx:62-99 | while processing, upload, enhance, the prompt input and generate are all disabled |
| `Panel.GenerateNeedsPrompt` | src/components/control-panel.tsx:73-99 | generate is enabled iff enhance is enabled and the prompt is non-empty; enhance is enabled iff an image is selected and nothing is processing; the prompt input is enabled exactly when enhance is |
| `Panel.Thumbnails` | src/components/control-panel.tsx:116-131 | one thumbnail per history record, in the given order |
| `Panel.HistoryTiles` | src/components/control-panel.tsx:112-132 | while history loads, exactly 4 placeholders; otherwise one thumbnail per record, in order |
| `Panel.ControlPanel.constructor` | src/components/control-panel.tsx:45 | the prompt starts empty |
| `Panel.ControlPanel.ChangePrompt` | src/components/control-panel.tsx:89 | typing sets the prompt to the input's value |
| `Panel.ControlPanel.HandleGenerate` | src/components/control-panel.tsx:47-52 | the variation callback is called iff the prompt is non-empty, and with the prompt unchanged |
| `Panel.ControlPanel.ClickGenerate` | src/components/control-panel.tsx:92-99 | a click on the enabled submit button always submits the current prompt |
| `Gallery.ImageRecordsQuery` | src/components/image-gallery.tsx:18-27 | no query without a signed-in user; otherwise a query on the image-records collection for that user's uid |
| `Gallery.Owned` | src/components/image-gallery.tsx:23-26 | a record is included iff it is stored and its `userId` equals the uid |
| `Gallery.Fetch` | src/components/image-gallery.tsx:29 | no data for a missing query; otherwise exactly the owner's stored records |
| `Gallery.InsertPermutes` | src/components/image-gallery.tsx:50 | one insertion step adds the record and loses none |
| `Gallery.InsertKeepsOrder` | src/components/image-gallery.tsx:50-54 | one insertion step keeps a newest-first list newest first |
| `Gallery.InsertIsStable` | src/components/image-gallery.tsx:50 | one insertion step puts the record after all records with an equal key |
| `Gallery.ByRecencyPermutes` | src/components/image-gallery.tsx:50 | the sorted list is a permutation of the fetched records |
| `Gallery.ByRecencyIsNewestFirst` | src/components/image-gallery.tsx:50-54 | the sorted list is non-increasing by timestamp |
| `Gallery.ByRecencyIsStable` | src/components/image-gallery.tsx:50 | records with equal keys keep their fetched order, as the stable `Array.prototype.sort` does (section 23.1.3.30 of ECMA-262, 2024 edition) |
| `Gallery.MissingTimestampSortsAfterPositive` | src/components/image-gallery.tsx:51-52 | a record without a timestamp is keyed 0, so it sorts after every record with a positive timestamp |
| `Gallery.SortNewestFirst` | src/components/image-gallery.tsx:49-54 | sorting a fresh copy of the records in place by insertion yields exactly `ByRecency` of the input |
| `Gallery.InsertNext` | src/components/image-gallery.tsx:50-54 | one pass shifts the next record into the sorted prefix, which gives `Insert` of it into that prefix, and leaves the rest of the array alone |
| `Gallery.InsertLandsAt` | src/components/image-gallery.tsx:50-53 | the record being inserted lands behind the last record whose key is at least its own, ahead of the smaller-keyed records it was moved past |
| `Gallery.RenderContent` | src/components/image-gallery.tsx:31-54 | a spinner iff loading; the empty state iff loaded and the data is absent or empty; otherwise cards in a permutation of the records, newest first, with ties in fetched order |
| `Gallery.GalleryShowsOwnRecordsNewestFirst` | src/components/image-gallery.tsx:18-54 | once loaded, a signed-out visitor sees the empty state; a signed-in user's cards are exactly their own stored records, newest first |
| `Workspace.SelectedIsTruthy` | src/app/page.tsx:76 | an image counts as selected iff it is present and non-empty: a missing image and `""` are both unselected |
| `Workspace.Home.constructor` | src/app/page.tsx:14-17 | no image, no enhanced image, no variations, not processing |
| `Workspace.Home.PanelGate` | src/app/page.tsx:76-77 | `isImageSelected` is true iff the original image is present and non-empty; `isProcessing` is passed through |
| `Workspace.Home.HandleImageSelect` | src/app/page.tsx:20-25 | the original image becomes the data URL; the enhanced image and the variations are reset; the processing flag is untouched |
| `Workspace.Home.HandleEnhance` | src/app/page.tsx:27-46 | without an image it is a no-op: nothing changes and no call is made; otherwise the flag is up when the action is invoked and down afterwards; success sets only the enhanced image and shows the success toast; failure changes no image field and shows the error |
| `Workspace.Home.HandleGenerateVariations` | src/app/page.tsx:48-67 | without an image it is a no-op; otherwise the flag is up at the call and down afterwards; success replaces only the variations with the returned list, which may be empty; failure changes no image field and shows the error |
| `Workspace.EnhanceEnabledReachesModel` | src/app/page.tsx:27-31 | when the enhance button is enabled, the handler passes its guard and the action calls the model |
| `Workspace.GenerateEnabledReachesModel` | src/app/page.tsx:48-52 | when the generate button is enabled, both of the action's guards pass, so the model is called and no validation error occurs |

## Left out

- The hosted model's internals, the model configuration beyond the model name and output channels, and the unused `definePrompt` objects with their templating. The model is the oracle described above.
- The wording of the two errors produced by the runtime rather than by the code: the TypeError from `media!.url` on absent media, and the output-schema rejection of a missing url. The model keeps them as the distinct errors `NoMedia` and `OutputRejected`. A re-wrapped error is `Wrapped(prefix, cause)`, which stands for the message `prefix + cause.message`.
- Input-schema validation. The inputs are strings, which the schemas accept.
- The `console.error` logging in the actions, and how toasts are shown. Toasts are returned as values.
- Firebase. The query result is a given list of stored records, filtered by owner. The document store's own result order, authentication, login, the contact form and storage are not modelled.
- `SortKey`: the key is the timestamp in nanoseconds. It orders records as `toMillis()` does with exact arithmetic. Floating-point rounding of `toMillis()` and NaN are not modelled. A negative timestamp is truthy and stays negative, so such records sort after records without a timestamp.
- Reading the file. The upload button's output is an opaque data-URL string given to `HandleImageSelect`. Its second argument, the `File`, is unused by the page.
- Async timing. Each handler is one atomic transition. While it runs, no other handler can interleave, so the processing flag is only observed through `busyAtCall` and through the panel rules over `PanelGate`.
- The history wiring. The page does not pass `imageHistory`, `isLoadingHistory` or `onSelectFromGallery` to the panel. `Panel.HistoryTiles` models the panel's rule over a given list.
- Presentation-only components: header, logo, preview, workspace tabs, the image-processor stub, and the redirect page.
