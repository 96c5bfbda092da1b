/**
 * The orchestrator of gdrive_summarizer/summarizer.py: extract every
 * downloaded file with the processor registered for its suffix, keep one
 * entry per file name, and ask the text model for one combined summary.
 * Downloading is abstract: the folder is the list of files it yielded.
 */
module Summarizer {
  import opened Wrappers
  import opened Strings
  import opened Config
  import opened LlmClient
  import opened ProcessorBase
  import TextProcessor
  import PdfProcessor
  import ImageProcessor

  /** The system message of the final `chat` call. */
  const SYSTEM_PROMPT: string :=
    "You are an expert analyst. The user will give you descriptions / extracted "
    + "content of several files from one folder. Produce a coherent, well-structured "
    + "summary that covers ALL of the files. Highlight key themes, relationships "
    + "between files, and any notable details. Answer in Russian."

  /** Returned when the download yields no file. */
  const EMPTY_FOLDER_MESSAGE: string := "Папка пуста или файлы не удалось скачать."

  /** Stored for a file whose content could not be extracted, or is empty. */
  const PLACEHOLDER: string := "(не удалось извлечь содержимое)"

  /** Returned when every stored entry is the placeholder. */
  const NOTHING_EXTRACTED_MESSAGE: string := "Не удалось извлечь содержимое ни из одного файла."

  /** The number of characters of a file's text that reach the prompt. */
  const MAX_CHARS: nat := 12000

  /** Appended to a text that was cut. */
  const TRUNCATION_MARKER: string := "\n... (содержимое обрезано)"

  /** The two lines that open the combined prompt, followed by a blank line. */
  const PROMPT_HEADER: string :=
    "Ниже приведено содержимое / описание каждого файла из папки.\n"
    + "Сделай общее подробное саммари по ВСЕМ файлам папки.\n\n"

  /** The heading in front of each file's name. */
  const PART_HEADER: string := "### Файл: "

  /** The separator between the parts of two files. */
  const PART_DELIMITER: string := "\n\n---\n\n"

  /**
   * A downloaded file: its name, its suffix (`Path.suffix`, given rather than
   * parsed) and what each processor would obtain from it.
   */
  datatype DownloadedFile = DownloadedFile(
    name: string,
    suffix: string,
    text: TextProcessor.TextFile,
    pdf: PdfProcessor.PdfDocument,
    image: Option<string>)

  // ---------------------------------------------------------------------------
  // The registry as the imports of summarizer.py leave it
  // ---------------------------------------------------------------------------

  /** The map after importing base, image_processor, pdf_processor and text_processor, in that order. */
  function BuiltinExtensions(): ExtensionMap {
    RegisterAll(
      Registered(RegisterAll(map[], ImageProcessor.IMAGE_EXTENSIONS, ImageKind), ".pdf", PdfKind),
      TextProcessor.TEXT_EXTENSIONS, TextKind)
  }

  /** The processor modules registering themselves. */
  method LoadProcessors() returns (registry: Registry)
    ensures fresh(registry) && registry.extensionMap == BuiltinExtensions()
  {
    registry := new Registry();
    ImageProcessor.RegisterImageProcessor(registry);
    PdfProcessor.RegisterPdfProcessor(registry);
    TextProcessor.RegisterTextProcessor(registry);
  }

  /** Which processor the built-in registry picks for a suffix, in any letter case. */
  lemma BuiltinLookup(suffix: string)
    ensures LookupIn(BuiltinExtensions(), suffix)
      == if Lower(suffix) in TextProcessor.TEXT_EXTENSIONS then Some(TextKind)
         else if Lower(suffix) == ".pdf" then Some(PdfKind)
         else if Lower(suffix) in ImageProcessor.IMAGE_EXTENSIONS then Some(ImageKind)
         else None
  {
    var images := RegisterAll(map[], ImageProcessor.IMAGE_EXTENSIONS, ImageKind);
    var pdf := Registered(images, ".pdf", PdfKind);
    TextProcessor.TextExtensionsLowerCase();
    ImageProcessor.ImageExtensionsLowerCase();
    LowerUnchanged(".pdf");
    RegisterAllLookup(pdf, TextProcessor.TEXT_EXTENSIONS, TextKind, suffix);
    RegisterAllLookup(map[], ImageProcessor.IMAGE_EXTENSIONS, ImageKind, suffix);
  }

  // ---------------------------------------------------------------------------
  // _extract_file_content
  // ---------------------------------------------------------------------------

  /** A file's extracted content (`None` when there is none) and the requests sent for it. */
  datatype Extraction = Extraction(content: Option<string>, sent: nat)

  /** A processor's result, with an exception turned into `None`. */
  function ContentOf(r: ExtractResult, sent: nat): Extraction {
    Extraction(if r.Extracted? then Some(r.text) else None, sent)
  }

  /** What the processor of kind `kind` extracts from `f`. */
  function RunProcessor(kind: ProcessorKind, net: Network, start: nat, settings: Settings, f: DownloadedFile): Extraction {
    match kind
    case TextKind => ContentOf(TextProcessor.Decoding(f.text, TextProcessor.ENCODINGS), 0)
    case PdfKind => ContentOf(PdfProcessor.PdfText(f.pdf), 0)
    case ImageKind =>
      var run := ImageProcessor.ImageText(net, start, settings, f.image);
      ContentOf(run.result, run.sent)
  }

  /** `_extract_file_content(f)`, with the registry's map `m`. */
  function FileContent(m: ExtensionMap, net: Network, start: nat, settings: Settings, f: DownloadedFile): (x: Extraction)
    ensures LookupIn(m, f.suffix).None? ==> x == Extraction(None, 0)
    ensures x.sent > 0 ==> LookupIn(m, f.suffix) == Some(ImageKind)
  {
    match LookupIn(m, f.suffix)
    case None => Extraction(None, 0)
    case Some(kind) => RunProcessor(kind, net, start, settings, f)
  }

  /** `_extract_file_content`: look up the processor, return early without one, catch what `extract` raises. */
  method ExtractFileContent(registry: Registry, net: Network, start: nat, settings: Settings, f: DownloadedFile)
    returns (content: Option<string>, sent: nat)
    ensures Extraction(content, sent) == FileContent(registry.extensionMap, net, start, settings, f)
  {
    var processor := registry.GetProcessor(f.suffix);
    if processor == null {
      return None, 0;
    }
    var r: ExtractResult;
    sent := 0;
    match processor.kind {
      case TextKind =>
        r := TextProcessor.Extract(f.text);
      case PdfKind =>
        r := PdfProcessor.Extract(f.pdf);
      case ImageKind =>
        r, sent := ImageProcessor.Extract(net, start, settings, f.image);
    }
    content := if r.Extracted? then Some(r.text) else None;
  }

  /** There is no content exactly when no processor is registered or the processor raises. */
  lemma NoContentCases(m: ExtensionMap, net: Network, start: nat, settings: Settings, f: DownloadedFile)
    ensures FileContent(m, net, start, settings, f).content.None? <==>
      || LookupIn(m, f.suffix).None?
      || (match LookupIn(m, f.suffix).value
          case TextKind => TextProcessor.Decoding(f.text, TextProcessor.ENCODINGS).ExtractRaised?
          case PdfKind => f.pdf.Unreadable?
          case ImageKind => ImageProcessor.ImageText(net, start, settings, f.image).result.ExtractRaised?)
  {
  }

  /** Only images send requests, and only after a processor was found. */
  lemma OnlyImagesSendRequests(m: ExtensionMap, net: Network, start: nat, settings: Settings, f: DownloadedFile)
    ensures FileContent(m, net, start, settings, f).sent > 0 ==> LookupIn(m, f.suffix) == Some(ImageKind)
  {
  }

  // ---------------------------------------------------------------------------
  // The per_file dictionary
  // ---------------------------------------------------------------------------

  /**
   * `per_file`, as a Python dict: its keys in insertion order and the value
   * of each key.
   */
  datatype PerFile = PerFile(keys: seq<string>, values: map<string, string>)

  /** `{}`. */
  const NO_FILES: PerFile := PerFile([], map[])

  /** The ordered keys are the keys of the dictionary, each once. */
  predicate Coherent(d: PerFile) {
    && NoDuplicates(d.keys)
    && (forall k :: k in d.values ==> k in d.keys)
    && (forall k :: k in d.keys ==> k in d.values)
  }

  /** `per_file.get(name)`. */
  function Get(d: PerFile, name: string): Option<string> {
    if name in d.values then Some(d.values[name]) else None
  }

  /** `per_file[name] = content`: a new key goes to the end; a present key keeps its place. */
  function Put(d: PerFile, name: string, content: string): (r: PerFile)
    ensures r.keys == d.keys || r.keys == d.keys + [name]
    ensures Get(r, name) == Some(content)
  {
    PerFile(if name in d.keys then d.keys else d.keys + [name], d.values[name := content])
  }

  /** The stored key reads back the new value, and every other key its old one. */
  lemma PutGet(d: PerFile, name: string, content: string, other: string)
    ensures Get(Put(d, name, content), name) == Some(content)
    ensures other != name ==> Get(Put(d, name, content), other) == Get(d, other)
  {
  }

  /** Storing a value keeps the keys unique and in step with the dictionary. */
  lemma PutCoherent(d: PerFile, name: string, content: string)
    requires Coherent(d)
    ensures Coherent(Put(d, name, content))
  {
    var e := Put(d, name, content);
    forall k | k in d.keys + [name] ensures k in d.keys || k == name {
    }
  }

  /** One item of `per_file.items()`. */
  datatype Entry = Entry(name: string, content: string)

  /**
   * `per_file.items()`, in insertion order; in a coherent dictionary every
   * key has a value, so the default is never used.
   */
  function Items(d: PerFile): seq<Entry> {
    seq(|d.keys|, i requires 0 <= i < |d.keys| => Entry(d.keys[i], Get(d, d.keys[i]).GetOr("")))
  }

  /** Each item of a coherent dictionary is a key with its value. */
  lemma ItemsOfCoherent(d: PerFile)
    requires Coherent(d)
    ensures |Items(d)| == |d.keys|
    ensures forall i :: 0 <= i < |d.keys| ==> d.keys[i] in d.values && Items(d)[i] == Entry(d.keys[i], d.values[d.keys[i]])
  {
  }

  /** What `per_file` stores for an extracted content: the text, unless it is missing or empty. */
  function Stored(content: Option<string>): (s: string)
    ensures s != []
    ensures content.Some? && content.value != [] ==> s == content.value
  {
    if content.Some? && content.value != [] then content.value else PLACEHOLDER
  }

  /**
   * The placeholder is stored exactly when there is no content, the content is
   * empty, or it is the placeholder text itself; anything else is the content.
   */
  lemma StoredCases(content: Option<string>)
    ensures Stored(content) == PLACEHOLDER <==> content.None? || content.value == [] || content.value == PLACEHOLDER
    ensures Stored(content) != PLACEHOLDER ==> content == Some(Stored(content))
  {
  }

  /** `_extract_file_content` applied to a file whose requests are numbered from the given start. */
  type FileExtractor = (DownloadedFile, nat) -> Extraction

  /** The extractor of a registry map, a network and the settings. */
  function Extractor(m: ExtensionMap, net: Network, settings: Settings): FileExtractor {
    (f: DownloadedFile, start: nat) => FileContent(m, net, start, settings, f)
  }

  /** `per_file` after the extraction loop, the requests the loop sent, and how many files it extracted. */
  datatype Collected = Collected(perFile: PerFile, sent: nat, calls: nat)

  /** One pass of the extraction loop: extract `f` and store what it yields under its name. */
  function CollectNext(extract: FileExtractor, start: nat, c: Collected, f: DownloadedFile): (n: Collected)
    ensures n.calls == c.calls + 1 && f.name in n.perFile.keys
  {
    var x := extract(f, start + c.sent);
    Collected(Put(c.perFile, f.name, Stored(x.content)), c.sent + x.sent, c.calls + 1)
  }

  /** The extraction loop over `files`, starting at request number `start`. */
  function Collect(extract: FileExtractor, start: nat, files: seq<DownloadedFile>): (c: Collected)
    ensures c.calls == |files|
    ensures files != [] ==> files[|files| - 1].name in c.perFile.keys
    decreases |files|
  {
    if files == [] then Collected(NO_FILES, 0, 0)
    else CollectNext(extract, start, Collect(extract, start, files[..|files| - 1]), files[|files| - 1])
  }

  /** The file names, in download order. */
  function FileNames(files: seq<DownloadedFile>): seq<string> {
    seq(|files|, i requires 0 <= i < |files| => files[i].name)
  }

  /** The loop leaves a dictionary whose ordered keys are its keys, each once. */
  lemma {:induction false} CollectCoherent(extract: FileExtractor, start: nat, files: seq<DownloadedFile>)
    ensures Coherent(Collect(extract, start, files).perFile)
    decreases |files|
  {
    if files != [] {
      var init, f := files[..|files| - 1], files[|files| - 1];
      CollectCoherent(extract, start, init);
      var c := Collect(extract, start, init);
      PutCoherent(c.perFile, f.name, Stored(extract(f, start + c.sent).content));
    }
  }

  /**
   * The keys of `per_file` are the file names without repeats, each at the
   * position where it first occurred.
   */
  lemma {:induction false} CollectNames(extract: FileExtractor, start: nat, files: seq<DownloadedFile>)
    ensures Collect(extract, start, files).perFile.keys == Dedup(FileNames(files))
    decreases |files|
  {
    if files != [] {
      CollectNames(extract, start, files[..|files| - 1]);
      DedupNamesLast(files);
    }
  }

  /** The last file adds its name to the distinct names, unless the name is already there. */
  lemma DedupNamesLast(files: seq<DownloadedFile>)
    requires files != []
    ensures Dedup(FileNames(files))
      == if files[|files| - 1].name in Dedup(FileNames(files[..|files| - 1])) then Dedup(FileNames(files[..|files| - 1]))
         else Dedup(FileNames(files[..|files| - 1])) + [files[|files| - 1].name]
  {
    var names := FileNames(files);
    assert names[..|names| - 1] == FileNames(files[..|files| - 1]);
  }

  /**
   * The value stored under the last file's name is that file's, whatever an
   * earlier file of the same name yielded.
   */
  lemma LaterFileReplaces(extract: FileExtractor, start: nat, files: seq<DownloadedFile>)
    requires files != []
    ensures Get(Collect(extract, start, files).perFile, files[|files| - 1].name)
      == Some(Stored(extract(files[|files| - 1], start + Collect(extract, start, files[..|files| - 1]).sent).content))
  {
    var c := Collect(extract, start, files[..|files| - 1]);
    var f := files[|files| - 1];
    var stored := Stored(extract(f, start + c.sent).content);
    assert Collect(extract, start, files).perFile == Put(c.perFile, f.name, stored);
    PutGet(c.perFile, f.name, stored, f.name);
  }

  /**
   * What the `j`-th file yields in the loop: its extraction, with its
   * requests numbered after those of the files before it.
   */
  ghost function YieldOf(extract: FileExtractor, start: nat, files: seq<DownloadedFile>, j: nat): Extraction
    requires j < |files|
  {
    extract(files[j], start + Collect(extract, start, files[..j]).sent)
  }

  /** Dropping a file after the `j`-th does not change what the `j`-th yields. */
  lemma YieldOfInit(extract: FileExtractor, start: nat, files: seq<DownloadedFile>, j: nat)
    requires j < |files| - 1
    ensures YieldOf(extract, start, files[..|files| - 1], j) == YieldOf(extract, start, files, j)
  {
    var init := files[..|files| - 1];
    assert init[j] == files[j] && init[..j] == files[..j];
  }

  /**
   * For every file that no later file shares a name with, the value under
   * its name is what that file yielded: a later file of the same name
   * replaces an earlier one, and a file of another name leaves it alone.
   */
  lemma {:induction false} ValueIsLastFile(extract: FileExtractor, start: nat, files: seq<DownloadedFile>, j: nat)
    requires j < |files|
    requires forall k :: j < k < |files| ==> files[k].name != files[j].name
    ensures Get(Collect(extract, start, files).perFile, files[j].name) == Some(Stored(YieldOf(extract, start, files, j).content))
    decreases |files|
  {
    var init := files[..|files| - 1];
    if j == |files| - 1 {
      var c := Collect(extract, start, init);
      var x := extract(files[j], start + c.sent);
      assert YieldOf(extract, start, files, j) == x;
      CollectNextOf(extract, start, c.perFile, c.sent, c.calls, files[j], x);
      PutGet(c.perFile, files[j].name, Stored(x.content), files[j].name);
    } else {
      assert init[j] == files[j];
      assert forall k :: j < k < |init| ==> init[k] == files[k];
      ValueIsLastFile(extract, start, init, j);
      YieldOfInit(extract, start, files, j);
      OtherNameKept(extract, start, files, files[j].name);
    }
  }

  /** A pass over a file of another name leaves the value under `name` as it was. */
  lemma OtherNameKept(extract: FileExtractor, start: nat, files: seq<DownloadedFile>, name: string)
    requires files != [] && files[|files| - 1].name != name
    ensures Get(Collect(extract, start, files).perFile, name) == Get(Collect(extract, start, files[..|files| - 1]).perFile, name)
  {
    var c := Collect(extract, start, files[..|files| - 1]);
    var f := files[|files| - 1];
    var x := extract(f, start + c.sent);
    CollectNextOf(extract, start, c.perFile, c.sent, c.calls, f, x);
    PutGet(c.perFile, f.name, Stored(x.content), name);
  }

  /** `not any(v != PLACEHOLDER for v in per_file.values())`. */
  predicate AllPlaceholders(d: PerFile) {
    forall k :: k in d.values ==> d.values[k] == PLACEHOLDER
  }

  /** When no file yields content, every value is the placeholder and nothing is sent. */
  lemma {:induction false} NothingExtractedGivesPlaceholders(extract: FileExtractor, start: nat, files: seq<DownloadedFile>)
    requires forall i, s: nat :: 0 <= i < |files| ==> extract(files[i], s) == Extraction(None, 0)
    ensures AllPlaceholders(Collect(extract, start, files).perFile)
    ensures Collect(extract, start, files).sent == 0
    decreases |files|
  {
    if files != [] {
      var init, f := files[..|files| - 1], files[|files| - 1];
      assert forall i :: 0 <= i < |init| ==> init[i] == files[i];
      NothingExtractedGivesPlaceholders(extract, start, init);
      var c := Collect(extract, start, init);
      assert extract(f, start + c.sent) == Extraction(None, 0);
    }
  }

  // ---------------------------------------------------------------------------
  // Prompt assembly
  // ---------------------------------------------------------------------------

  /** `content[:12000]`, followed by the marker when something was cut. */
  function Truncate(content: string): (t: string)
    ensures |content| <= MAX_CHARS ==> t == content
    ensures |content| > MAX_CHARS ==>
      |t| == MAX_CHARS + |TRUNCATION_MARKER| && t[..MAX_CHARS] == content[..MAX_CHARS] && t[MAX_CHARS..] == TRUNCATION_MARKER
  {
    Take(content, MAX_CHARS) + if |content| > MAX_CHARS then TRUNCATION_MARKER else ""
  }

  /** The part of the prompt for one entry. */
  function PartText(e: Entry): string {
    PART_HEADER + e.name + "\n\n" + Truncate(e.content)
  }

  /** The parts, in the dictionary's insertion order. */
  function Parts(es: seq<Entry>): (parts: seq<string>)
    ensures |parts| == |es| && forall i :: 0 <= i < |es| ==> parts[i] == PartText(es[i])
    ensures forall i :: 0 <= i < |es| ==>
      |parts[i]| <= |PART_HEADER| + |es[i].name| + 2 + MAX_CHARS + |TRUNCATION_MARKER|
  {
    seq(|es|, i requires 0 <= i < |es| => PartText(es[i]))
  }

  /** `combined_prompt`. */
  function CombinedPrompt(es: seq<Entry>): (p: string)
    ensures |PROMPT_HEADER| <= |p| && p[..|PROMPT_HEADER|] == PROMPT_HEADER
    ensures es == [] <==> p == PROMPT_HEADER
  {
    var parts := Parts(es);
    assert forall i :: 0 <= i < |parts| ==> parts[i][..|PART_HEADER|] == PART_HEADER;
    JoinEmpty(parts, PART_DELIMITER);
    PROMPT_HEADER + Join(parts, PART_DELIMITER)
  }

  /** With a single entry the prompt is the header followed by that entry's part. */
  lemma PromptOfOne(e: Entry)
    ensures CombinedPrompt([e]) == PROMPT_HEADER + PART_HEADER + e.name + "\n\n" + Truncate(e.content)
  {
    assert Parts([e]) == [PartText(e)];
  }

  /** A later entry's part comes after the earlier ones, behind a delimiter. */
  lemma PromptAppend(es: seq<Entry>, e: Entry)
    requires es != []
    ensures CombinedPrompt(es + [e]) == CombinedPrompt(es) + PART_DELIMITER + PartText(e)
  {
    assert Parts(es + [e]) == Parts(es) + [PartText(e)];
    JoinAppend(Parts(es), PartText(e), PART_DELIMITER);
  }

  // ---------------------------------------------------------------------------
  // summarize_folder
  // ---------------------------------------------------------------------------

  /**
   * What `summarize_folder` returns or raises, how many files it extracted,
   * the prompt of its `chat` call if it made one, and the requests sent while
   * extracting and by `chat`.
   */
  datatype FolderResult = FolderResult(
    outcome: Outcome,
    extractions: nat,
    chatPrompt: Option<string>,
    extractionRequests: nat,
    chatRequests: nat)

  /** The request the final `chat` call sends for `prompt`. */
  function SummaryRequest(settings: Settings, prompt: string): Payload {
    Payload(settings.textModel, ChatMessages(prompt, SYSTEM_PROMPT))
  }

  /** The final `chat` call for a prompt, with its requests numbered from the given start. */
  type ChatRun = (string, nat) -> Trace

  /** `chat(prompt=..., system=_SYSTEM_PROMPT)` over a network with the given settings. */
  function SummaryChat(net: Network, settings: Settings): ChatRun {
    (prompt: string, start: nat) => RetrySpec(net, start, SummaryRequest(settings, prompt), Policy(settings))
  }

  /** `summarize_folder` on the downloaded `files`, each extracted by `extract`, summarised by `chat`. */
  function Summary(extract: FileExtractor, chat: ChatRun, start: nat, files: seq<DownloadedFile>): (r: FolderResult)
    ensures r.extractions == |files|
    ensures r.chatPrompt.Some? ==> files != []
    ensures r.chatPrompt.None? ==> r.chatRequests == 0
  {
    if files == [] then FolderResult(Reply(EMPTY_FOLDER_MESSAGE), 0, None, 0, 0)
    else Conclude(Collect(extract, start, files), chat, start)
  }

  /** What follows the extraction loop, which produced `c`. */
  function Conclude(c: Collected, chat: ChatRun, start: nat): (r: FolderResult)
    ensures r.extractions == c.calls && r.extractionRequests == c.sent
    ensures r.chatPrompt.None? <==> AllPlaceholders(c.perFile)
    ensures r.chatPrompt.None? ==> r.chatRequests == 0
  {
    if AllPlaceholders(c.perFile) then FolderResult(Reply(NOTHING_EXTRACTED_MESSAGE), c.calls, None, c.sent, 0)
    else
      var prompt := CombinedPrompt(Items(c.perFile));
      var t := chat(prompt, start + c.sent);
      FolderResult(t.outcome, c.calls, Some(prompt), c.sent, t.sent)
  }

  /** One pass of the extraction loop. */
  lemma CollectStep(extract: FileExtractor, start: nat, files: seq<DownloadedFile>, i: nat,
                    perFile: PerFile, sent: nat, x: Extraction)
    requires i < |files| && Collected(perFile, sent, i) == Collect(extract, start, files[..i])
    requires x == extract(files[i], start + sent)
    ensures Collected(Put(perFile, files[i].name, Stored(x.content)), sent + x.sent, i + 1) == Collect(extract, start, files[..i + 1])
  {
    CollectPrefix(extract, start, files, i);
    CollectNextOf(extract, start, perFile, sent, i, files[i], x);
  }

  /** One pass stores what `f` yields under its name and adds its requests and its call. */
  lemma CollectNextOf(extract: FileExtractor, start: nat, perFile: PerFile, sent: nat, calls: nat,
                      f: DownloadedFile, x: Extraction)
    requires x == extract(f, start + sent)
    ensures CollectNext(extract, start, Collected(perFile, sent, calls), f)
      == Collected(Put(perFile, f.name, Stored(x.content)), sent + x.sent, calls + 1)
  {
  }

  /** The loop over the first `i + 1` files is the loop over the first `i` followed by one pass. */
  lemma CollectPrefix(extract: FileExtractor, start: nat, files: seq<DownloadedFile>, i: nat)
    requires i < |files|
    ensures Collect(extract, start, files[..i + 1]) == CollectNext(extract, start, Collect(extract, start, files[..i]), files[i])
  {
    var prefix := files[..i + 1];
    assert prefix[..|prefix| - 1] == files[..i];
  }

  /** The extraction loop of `summarize_folder`, filling `per_file`. */
  method CollectContents(registry: Registry, net: Network, start: nat, settings: Settings, files: seq<DownloadedFile>)
    returns (perFile: PerFile, sent: nat)
    ensures Collected(perFile, sent, |files|) == Collect(Extractor(registry.extensionMap, net, settings), start, files)
  {
    ghost var extract := Extractor(registry.extensionMap, net, settings);
    perFile, sent := NO_FILES, 0;
    for i := 0 to |files|
      invariant Collected(perFile, sent, i) == Collect(extract, start, files[..i])
    {
      var f := files[i];
      var content, n := ExtractFileContent(registry, net, start + sent, settings, f);
      CollectStep(extract, start, files, i, perFile, sent, Extraction(content, n));
      perFile := Put(perFile, f.name, Stored(content));
      sent := sent + n;
    }
    assert files[..|files|] == files;
  }

  /** The loop of `summarize_folder` over `per_file.items()` that turns each item into its part. */
  method BuildParts(perFile: PerFile) returns (parts: seq<string>)
    requires Coherent(perFile)
    ensures parts == Parts(Items(perFile))
  {
    ItemsOfCoherent(perFile);
    parts := [];
    for i := 0 to |perFile.keys|
      invariant |parts| == i && forall k :: 0 <= k < i ==> parts[k] == PartText(Items(perFile)[k])
    {
      var name := perFile.keys[i];
      var content := perFile.values[name];
      var truncated := Take(content, MAX_CHARS);
      if |content| > MAX_CHARS {
        truncated := truncated + TRUNCATION_MARKER;
      }
      parts := parts + [PART_HEADER + name + "\n\n" + truncated];
    }
  }

  /**
   * Once the extraction loop has produced `perFile` and sent `sent` requests:
   * if every entry is the placeholder, the "nothing extracted" message is
   * returned and `chat` is not called; otherwise `chat` is called once, with
   * the combined prompt, and what it returns or raises is passed on unchanged.
   */
  lemma ConcludeCases(perFile: PerFile, sent: nat, count: nat, chat: ChatRun, start: nat)
    ensures AllPlaceholders(perFile) ==>
      Conclude(Collected(perFile, sent, count), chat, start)
        == FolderResult(Reply(NOTHING_EXTRACTED_MESSAGE), count, None, sent, 0)
    ensures !AllPlaceholders(perFile) ==>
      Conclude(Collected(perFile, sent, count), chat, start)
        == FolderResult(chat(CombinedPrompt(Items(perFile)), start + sent).outcome, count,
                        Some(CombinedPrompt(Items(perFile))), sent, chat(CombinedPrompt(Items(perFile)), start + sent).sent)
  {
  }

  /** The prompt assembly and the final `chat` call of `summarize_folder`. */
  method SummarizeEntries(net: Network, start: nat, settings: Settings, perFile: PerFile)
    returns (prompt: string, t: Trace)
    requires Coherent(perFile)
    ensures prompt == CombinedPrompt(Items(perFile)) && t == SummaryChat(net, settings)(prompt, start)
  {
    var parts := BuildParts(perFile);
    prompt := PROMPT_HEADER + Join(parts, PART_DELIMITER);
    var outcome, n, backoffs := Chat(net, start, settings, prompt, SYSTEM_PROMPT);
    t := Trace(outcome, n, backoffs);
    assert SummaryRequest(settings, prompt) == Payload(settings.textModel, ChatMessages(prompt, SYSTEM_PROMPT));
  }

  /** `summarize_folder`. */
  method SummarizeFolder(registry: Registry, net: Network, start: nat, settings: Settings, files: seq<DownloadedFile>)
    returns (r: FolderResult)
    ensures r == Summary(Extractor(registry.extensionMap, net, settings), SummaryChat(net, settings), start, files)
  {
    if files == [] {
      return FolderResult(Reply(EMPTY_FOLDER_MESSAGE), 0, None, 0, 0);
    }
    var perFile, sent := CollectContents(registry, net, start, settings, files);
    CollectCoherent(Extractor(registry.extensionMap, net, settings), start, files);
    ConcludeCases(perFile, sent, |files|, SummaryChat(net, settings), start);
    if !exists name :: name in perFile.values && perFile.values[name] != PLACEHOLDER {
      return FolderResult(Reply(NOTHING_EXTRACTED_MESSAGE), |files|, None, sent, 0);
    }
    var prompt, t := SummarizeEntries(net, start + sent, settings, perFile);
    r := FolderResult(t.outcome, |files|, Some(prompt), sent, t.sent);
  }

  /** An empty folder returns the fixed message without extracting anything or calling `chat`. */
  lemma EmptyFolderShortCircuits(extract: FileExtractor, chat: ChatRun, start: nat)
    ensures Summary(extract, chat, start, []) == FolderResult(Reply(EMPTY_FOLDER_MESSAGE), 0, None, 0, 0)
  {
  }

  /**
   * When no file has a processor, every file is still looked at, the
   * "nothing extracted" message is returned, and no request is sent.
   */
  lemma NothingRegisteredShortCircuits(m: ExtensionMap, net: Network, start: nat, settings: Settings,
                                       files: seq<DownloadedFile>)
    requires files != []
    requires forall i :: 0 <= i < |files| ==> LookupIn(m, files[i].suffix).None?
    ensures Summary(Extractor(m, net, settings), SummaryChat(net, settings), start, files)
      == FolderResult(Reply(NOTHING_EXTRACTED_MESSAGE), |files|, None, 0, 0)
  {
    var extract := Extractor(m, net, settings);
    forall i, s: nat | 0 <= i < |files| ensures extract(files[i], s) == Extraction(None, 0) {
      assert extract(files[i], s) == FileContent(m, net, s, settings, files[i]);
    }
    NothingExtractedGivesPlaceholders(extract, start, files);
    var c := Collect(extract, start, files);
    ConcludeCases(c.perFile, c.sent, c.calls, SummaryChat(net, settings), start);
  }

  /**
   * The prompt holds one part per distinct file name, in the order the names
   * first occur, each with the value stored for that name.
   */
  lemma PromptCoversEveryName(extract: FileExtractor, start: nat, files: seq<DownloadedFile>)
    ensures |Parts(Items(Collect(extract, start, files).perFile))| == |Dedup(FileNames(files))|
    ensures forall i :: 0 <= i < |Dedup(FileNames(files))| ==>
      Items(Collect(extract, start, files).perFile)[i].name == Dedup(FileNames(files))[i]
      && Get(Collect(extract, start, files).perFile, Dedup(FileNames(files))[i])
         == Some(Items(Collect(extract, start, files).perFile)[i].content)
  {
    var d := Collect(extract, start, files).perFile;
    CollectNames(extract, start, files);
    CollectCoherent(extract, start, files);
    ItemsOfCoherent(d);
  }
}
