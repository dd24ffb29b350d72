/** Values shared by the image-session model: the request sent to the hosted
    image model, what one call of that model can come back with, and the
    errors the flows and server actions raise. The model itself is an
    uninterpreted oracle. */
module ModelCall {

  datatype Option<+T> = None | Some(value: T)

  /** One part of a multi-part prompt: `{media: {url}}` or `{text}`. */
  datatype Part = MediaPart(url: string) | TextPart(text: string)

  /** An output channel requested through `responseModalities`. */
  datatype Modality = Text | Image

  /** The argument of one `ai.generate` call. */
  datatype Request = Request(model: string, prompt: seq<Part>, responseModalities: seq<Modality>)

  const ImageModel := "googleai/gemini-2.5-flash-image-preview"

  /** Both flows ask for text and image output. */
  const TextAndImage: seq<Modality> := [Text, Image]

  /** The `media` of a generate response; its `url` may be absent. */
  datatype Media = Media(url: Option<string>)

  /** What one `ai.generate` call does: it throws an error with a message,
      or it returns a response whose `media` may be absent. */
  datatype CallOutcome = Threw(message: string) | Returned(media: Option<Media>)

  /** The hosted model: the answer to the n-th call (counting from 0) that
      one flow run makes with a given request. Successive calls with the same
      request may answer differently. */
  type Oracle = (nat, Request) -> CallOutcome

  /** The errors raised by the core. The wording of the two errors that the
      JavaScript runtime and the flow framework produce themselves (NoMedia,
      OutputRejected) is not modelled, only which error it is. */
  datatype Error =
    | ModelError(message: string)               // the model call threw
    | NoMedia                                   // `media!.url` read on an absent media
    | OutputRejected                            // the output schema rejected a missing url
    | Invalid(message: string)                  // a guard clause of a server action
    | Wrapped(prefix: string, cause: Error)     // `new Error(prefix + cause.message)`

  datatype Result<+T> = Ok(value: T) | Err(error: Error)

  /** The result of running a flow or an action, with the log of the model
      calls it made, in call order. */
  datatype Run<+T> = Run(result: Result<T>, calls: seq<Request>)

  /** The request both flows build: the photo as the media part, then the
      instruction text. */
  function ImageRequest(photoDataUri: string, instruction: string): (q: Request)
    ensures q.model == ImageModel && q.responseModalities == TextAndImage
    ensures |q.prompt| == 2
    ensures q.prompt[0] == MediaPart(photoDataUri) && q.prompt[1] == TextPart(instruction)
  {
    Request(ImageModel, [MediaPart(photoDataUri), TextPart(instruction)], TextAndImage)
  }

  /** `media?.url` of a call that returned; None for a call that threw. */
  function MediaUrl(o: CallOutcome): (url: Option<string>)
    ensures url.Some? <==> o.Returned? && o.media.Some? && o.media.value.url.Some?
    ensures url.Some? ==> url.value == o.media.value.url.value
  {
    match o
    case Threw(_) => None
    case Returned(None) => None
    case Returned(Some(m)) => m.url
  }
}
