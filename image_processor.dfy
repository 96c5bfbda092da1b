/**
 * ImageProcessor (gdrive_summarizer/processors/image_processor.py): describe an
 * image through the vision fallback of the client. Loading, enhancing and
 * encoding the image with Pillow is abstract: the prepared image is its data
 * URL, or nothing when preparing it raises.
 */
module ImageProcessor {
  import opened Wrappers
  import opened Strings
  import opened Config
  import opened LlmClient
  import opened ProcessorBase

  /** The extensions the module registers ImageProcessor for. */
  const IMAGE_EXTENSIONS: seq<string> := [".jpg", ".jpeg", ".png", ".gif", ".webp", ".bmp", ".tiff", ".tif"]

  /** The extensions are written in lower case, so registering them stores them as written. */
  lemma ImageExtensionsLowerCase()
    ensures LowerAll(IMAGE_EXTENSIONS) == IMAGE_EXTENSIONS
  {
    LowerAllUnchanged(IMAGE_EXTENSIONS);
  }

  /** The prompt `extract` sends with every image: transcribe the document, or describe the picture. */
  const DOCUMENT_PROMPT: string :=
    "Это изображение — скорее всего скан или фотография документа/страницы. "
    + "Качество может быть невысоким. "
    + "1) Внимательно распознай и перепиши ВЕСЬ текст, который видишь на изображении. "
    + "Если текст на русском языке — пиши на русском. "
    + "2) Если текст нечитаем или отсутствует, опиши содержимое изображения максимально подробно. "
    + "3) Укажи язык текста и общий тип документа (если возможно определить)."

  /** What `extract` does with an image, and how many requests it sends. */
  datatype ImageRun = ImageRun(result: ExtractResult, sent: nat)

  /** `describe_image` on the prepared image; any error it raises leaves `extract`. */
  function ImageText(net: Network, start: nat, settings: Settings, image: Option<string>): (r: ImageRun)
    ensures image.None? ==> r == ImageRun(ExtractRaised, 0)
    ensures r.sent <= |Dedup([settings.visionModel] + settings.visionFallbacks)| * Attempts(Policy(settings))
  {
    match image
    case None => ImageRun(ExtractRaised, 0)
    case Some(dataUrl) =>
      var models := Dedup([settings.visionModel] + settings.visionFallbacks);
      var t := FallbackSpec(VisionRun(net, VisionMessages(DOCUMENT_PROMPT, dataUrl), Policy(settings)), start, models, 0, None);
      VisionFallbackFacts(net, start, models, VisionMessages(DOCUMENT_PROMPT, dataUrl), Policy(settings));
      ScaledBound(t.sent, t.tried, |models|, Attempts(Policy(settings)));
      ImageRun(if t.outcome.Reply? then Extracted(t.outcome.text) else ExtractRaised, t.sent)
  }

  /** A count bounded by `tried` runs of at most `bound` each is bounded by `models` such runs. */
  lemma ScaledBound(sent: nat, tried: nat, models: nat, bound: nat)
    requires sent <= tried * bound && tried <= models
    ensures sent <= models * bound
  {
  }

  /** `ImageProcessor.extract`. */
  method Extract(net: Network, start: nat, settings: Settings, image: Option<string>)
    returns (r: ExtractResult, sent: nat)
    ensures ImageRun(r, sent) == ImageText(net, start, settings, image)
  {
    if image.None? {
      return ExtractRaised, 0;
    }
    var outcome, tried, backoffs;
    outcome, sent, tried, backoffs := DescribeImage(net, start, settings, image.value, DOCUMENT_PROMPT);
    r := if outcome.Reply? then Extracted(outcome.text) else ExtractRaised;
  }

  /** The module's registration loop. */
  method RegisterImageProcessor(registry: Registry)
    modifies registry
    ensures registry.extensionMap == RegisterAll(old(registry.extensionMap), IMAGE_EXTENSIONS, ImageKind)
  {
    registry.RegisterEach(IMAGE_EXTENSIONS, ImageKind);
  }
}
