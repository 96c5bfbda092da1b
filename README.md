# gdrive_summarizer, modelled in Dafny

This is a model of the core of `gdrive_summarizer`. The tool downloads the files of a public Google Drive folder and extracts each file's content with a processor chosen by its extension:

- plain text is decoded with the first encoding that works;
- a PDF keeps its non-blank pages;
- an image is described by a vision model, which falls back through a list of models.

It then asks a text model, through the OpenRouter chat-completion API, for one summary of the whole folder.

The model covers:

- **`Config`** (`config.dfy`): the configuration defaults. These are `MAX_RETRIES = 3`, `RETRY_DELAY = 5.0`, the default models and the parsing of the comma-separated `VISION_FALLBACK_MODELS`.
- **`LlmClient`** (`llm_client.dfy`):
  - the retry loop `_request_with_retry`, with its linear back-off on 429/402/503;
  - `ContentBlockedError` on 403, and the exhaustion error;
  - `chat`;
  - `describe_image`, with its de-duplicated list of candidate models and its walk through them.
- **`ProcessorBase`** (`processor_base.dfy`):
  - the extension registry, as a class whose map `register_processor` updates in place;
  - `get_processor`, which lowers the suffix and returns a fresh instance or nothing.
- **The three processors.** `TextProcessor`, `PdfProcessor` and `ImageProcessor` (`text_processor.dfy`, `pdf_processor.dfy`, `image_processor.dfy`) each model the processor's `extract` and its module-level self-registration.
- **`Summarizer`** (`summarizer.dfy`):
  - `_extract_file_content`;
  - `summarize_folder`, in four steps:
    - the empty-folder message;
    - the `per_file` dictionary, where a later file of the same name replaces an earlier one and any missing content becomes the placeholder;
    - the "nothing extracted" message;
    - the truncated per-file parts joined into one prompt, and the final `chat` call.
- **`Strings`** and **`Wrappers`** (`strings.dfy`, `wrappers.dfy`): the string helpers (`strip`, `lower`, `split`, `join`, slicing), order-preserving de-duplication and `Option`.

The outside world is passed in as parameters:

- **The network.** The HTTP endpoint is a function `Network = (Payload, nat) -> Delivery`. It gives the answer to the n-th request sent during a run. That request number is threaded through every call, so a run names exactly which requests it sent and in what order.
- **Sleeping.** `time.sleep` is not performed. Each wait the loop would sleep is recorded as a `Backoff(attempt, seconds)`.
- **Downloaded files.** A file is given as the outcome of decoding it with each encoding, as its PDF page texts, and as its prepared image.
- **Results.** Each model function returns the text returned or the exception raised, together with the number of requests sent.

## Model

| member | source | states |
|---|---|---|
| Config.KeepStripped | gdrive_summarizer/config.py:34-36 | keeps at most as many entries as there are pieces |
| Config.KeepStrippedClean | gdrive_summarizer/config.py:34-36 | every entry kept is non-empty and stripped |
| Config.ParseFallbackModels | gdrive_summarizer/config.py:27-36 | every model in VISION_FALLBACK_MODELS is non-empty and has no surrounding whitespace |
| Config.KeepStrippedAppend | gdrive_summarizer/config.py:34-36 | the comprehension distributes over concatenation, so the models keep their order and none are merged |
| Config.ParseAroundComma | gdrive_summarizer/config.py:34-36 | the list for `a,b` is the list for `a` followed by the list for `b` |
| Config.ParseSinglePiece | gdrive_summarizer/config.py:34-36 | a piece with no comma gives its stripped text, or nothing when that is blank |
| Config.DuplicatesSurvive | gdrive_summarizer/config.py:34-36 | the config list is not de-duplicated, so `m,m` gives `[m, m]` |
| Config.ParseOneModel | gdrive_summarizer/config.py:34-36 | a model name with no comma and no surrounding whitespace parses to the one-entry list of itself |
| Config.ParsePrepend | gdrive_summarizer/config.py:34-36 | such a name before a comma becomes the first entry, followed by the list of the rest |
| Config.ParseFourModels | gdrive_summarizer/config.py:34-36 | four such names joined by commas parse to the list of the four, in order |
| Config.CleanModelName | gdrive_summarizer/config.py:29-32 | a name written as vendor, model and tier, none with a comma, starting and ending with non-whitespace, is one clean entry |
| Config.MistralSmallIsClean | gdrive_summarizer/config.py:29 | the first default fallback model is one clean entry |
| Config.Gemma12bIsClean | gdrive_summarizer/config.py:30 | the second default fallback model is one clean entry |
| Config.NemotronNanoIsClean | gdrive_summarizer/config.py:31 | the third default fallback model is one clean entry |
| Config.GeminiFlashIsClean | gdrive_summarizer/config.py:32 | the fourth default fallback model is one clean entry |
| Config.DefaultFallbackModels | gdrive_summarizer/config.py:27-36 | with VISION_FALLBACK_MODELS unset, the list is the four default models, in the order written |
| Config.DefaultSettingsValues | gdrive_summarizer/config.py:19-43 | with no variable set, TEXT_MODEL and VISION_MODEL are the default model, the fallbacks are the four defaults in order, MAX_RETRIES is 3 and RETRY_DELAY is 5.0 |
| Strings.TrimLeft | gdrive_summarizer/config.py:35 | the result is a suffix of the input; only whitespace was removed, and the result starts with non-whitespace |
| Strings.TrimRight | gdrive_summarizer/config.py:35 | the result is a prefix of the input; only whitespace was removed, and the result ends with non-whitespace |
| Strings.Strip | gdrive_summarizer/config.py:35 | the result is stripped and no longer than the input; it is empty iff the input is all whitespace; a stripped input is unchanged |
| Strings.StripIsSlice | gdrive_summarizer/config.py:35 | the stripped text is a contiguous slice of the input with only whitespace before and after it |
| Strings.StripIdempotent | gdrive_summarizer/config.py:35 | stripping twice is stripping once |
| Strings.Lower | gdrive_summarizer/processors/base.py:43 | lower-casing keeps the length and leaves no capital letter |
| Strings.LowerIdempotent | gdrive_summarizer/processors/base.py:53 | lower-casing an already lowered suffix changes nothing |
| Strings.LowerUnchanged | gdrive_summarizer/processors/base.py:29 | an extension written without capitals is its own lower-case form |
| Strings.Take | gdrive_summarizer/summarizer.py:80 | `s[:n]` is the prefix of length min(n, len(s)) |
| Strings.Split | gdrive_summarizer/config.py:35 | `str.split(",")` gives at least one piece, and no piece contains the separator |
| Strings.SplitWithoutSeparator | gdrive_summarizer/config.py:35 | a text with no comma splits into itself |
| Strings.SplitAround | gdrive_summarizer/config.py:35 | splitting `a,b` gives the pieces of `a` followed by the pieces of `b` |
| Strings.JoinSplit | gdrive_summarizer/config.py:35 | joining the pieces of a split with the separator gives back the text |
| Strings.SplitJoin | gdrive_summarizer/config.py:35 | splitting a join of pieces that contain no separator gives back the pieces |
| Strings.JoinEmpty | gdrive_summarizer/processors/pdf_processor.py:26 | a join of non-empty parts is empty iff there are no parts |
| Strings.JoinAppend | gdrive_summarizer/summarizer.py:88 | joining one more part appends the separator and that part |
| Strings.IndexOf | gdrive_summarizer/llm_client.py:158 | the position of the first occurrence of an element |
| Strings.Dedup | gdrive_summarizer/llm_client.py:155-159 | the result has no duplicates and holds exactly the elements of the input |
| Strings.IndexOfPrefix | gdrive_summarizer/llm_client.py:158 | an element's first occurrence does not move when the list is extended |
| Strings.DedupFirstSeenOrder | gdrive_summarizer/llm_client.py:155-159 | de-duplication keeps elements in the order of their first occurrence |
| Strings.DedupHead | gdrive_summarizer/llm_client.py:156 | de-duplication keeps the first element first |
| LlmClient.FirstDecisive | gdrive_summarizer/llm_client.py:34-77 | the first attempt that returns or raises; every earlier attempt went on to the next one |
| LlmClient.FirstDecisiveIs | gdrive_summarizer/llm_client.py:34-77 | an attempt that returns or raises after attempts that all went on is the one that ends the loop |
| LlmClient.BlockedDetail | gdrive_summarizer/llm_client.py:67-71 | the JSON error message when the body decodes; otherwise `text[:300]`, the prefix of the raw text of length min(len(text), 300) |
| LlmClient.Decide | gdrive_summarizer/llm_client.py:41-77 | one attempt: a reply returned is non-empty; a sleep lasts RETRY_DELAY times the attempt number; the error raised is never a RuntimeError, a block names the payload model, and a failed post raises the transport error |
| LlmClient.Backoffs | gdrive_summarizer/llm_client.py:53-63 | at most one recorded wait per attempt |
| LlmClient.LastResponse | gdrive_summarizer/llm_client.py:33-41 | `last_resp` after m attempts is the answer to the m-th request when that request was answered, and there is none otherwise |
| LlmClient.RetryReference | gdrive_summarizer/llm_client.py:31-83 | never more than MAX_RETRIES requests and at most one wait per request; a RuntimeError is only the exhaustion error, raised after all MAX_RETRIES attempts |
| LlmClient.ExhaustedError | gdrive_summarizer/llm_client.py:79-83 | the exhaustion error reports MAX_RETRIES, and the last response's status and its first 500 characters whenever there was a last response (corrected behaviour) |
| LlmClient.ExhaustedErrorAsWritten | gdrive_summarizer/llm_client.py:79-83 | as written: the status is reported only when the last response is truthy, which a 4xx or 5xx response is not |
| LlmClient.AsWrittenHidesRateLimitStatus | gdrive_summarizer/llm_client.py:79-83 | after a last 429, the code as written reports status `?`; the corrected error reports 429 |
| LlmClient.ExhaustionAsWritten | gdrive_summarizer/llm_client.py:34-83 | after at least one attempt, when no attempt returns or raises, the loop as written reaches line 79 with a last response, and its message shows `?` exactly when that last status is 429/402/503 |
| LlmClient.RetryFrom | gdrive_summarizer/llm_client.py:34-83 | never sends more than MAX_RETRIES requests; never raises the all-models error; a ContentBlocked error names the payload's model |
| LlmClient.RetrySpec | gdrive_summarizer/llm_client.py:31-83 | the whole retry loop, with the same guarantees as RetryFrom |
| LlmClient.RetryFromMatchesReference | gdrive_summarizer/llm_client.py:34-83 | the loop unrolled one step at a time agrees with the first-decisive-attempt reference definition |
| LlmClient.RetryMatchesReference | gdrive_summarizer/llm_client.py:31-83 | _request_with_retry equals the reference: it ends at the first attempt that returns or raises, otherwise with the exhaustion error after all attempts |
| LlmClient.RetryEndsAt | gdrive_summarizer/llm_client.py:43-77 | the first returning or raising attempt j ends the call with j+1 requests sent, and no later request is sent |
| LlmClient.RetryBackoffs | gdrive_summarizer/llm_client.py:53-63 | the recorded waits are exactly those of the attempts the call used |
| LlmClient.RequestWithRetry | gdrive_summarizer/llm_client.py:31-83 | the loop method matches the specification of its outcome, requests sent and waits |
| LlmClient.ReplyReturnedAtOnce | gdrive_summarizer/llm_client.py:43-47 | a 200 with non-empty content is returned at once |
| LlmClient.BlockedRaisedAtOnce | gdrive_summarizer/llm_client.py:65-74 | a 403 raises ContentBlockedError for the payload's model at once, without a retry |
| LlmClient.HttpErrorRaisedAtOnce | gdrive_summarizer/llm_client.py:76-77 | any other 4xx or 5xx status makes `raise_for_status` raise an HTTP error on that attempt, and no further request is sent |
| LlmClient.EmptyReplyUsesAttempt | gdrive_summarizer/llm_client.py:48-51 | a 200 whose content is empty neither returns nor sleeps; the loop goes on to the next attempt |
| LlmClient.SleepOnlyWhenRateLimited | gdrive_summarizer/llm_client.py:53-63 | the loop sleeps exactly after 429/402/503, for RETRY_DELAY times the attempt number |
| LlmClient.BackoffsSound | gdrive_summarizer/llm_client.py:53-63 | every recorded wait is one an attempt decided on, lasting RETRY_DELAY times its attempt number |
| LlmClient.BackoffsInAttemptOrder | gdrive_summarizer/llm_client.py:34-63 | the waits are recorded in attempt order, each under one of the attempts made |
| LlmClient.BackoffsScaled | gdrive_summarizer/llm_client.py:54 | each recorded wait is RETRY_DELAY times its attempt number, and the attempt numbers increase |
| LlmClient.BackoffsComplete | gdrive_summarizer/llm_client.py:53-63 | every attempt that decided to sleep has its wait recorded |
| LlmClient.BackoffWaitsIncrease | gdrive_summarizer/llm_client.py:54 | with a positive RETRY_DELAY, the waits grow strictly |
| LlmClient.ScaledWaitsIncrease | gdrive_summarizer/llm_client.py:54 | waits of a positive delay times increasing attempt numbers increase |
| LlmClient.WaitsOrdered | gdrive_summarizer/llm_client.py:54 | of two waits `RETRY_DELAY * attempt` with a positive delay, the later attempt waits longer |
| LlmClient.ExhaustionReportsLastStatus | gdrive_summarizer/llm_client.py:79-83 | the exhaustion error is raised iff no attempt returns or raises; all attempts are then used, and it reports the last status |
| LlmClient.AlwaysRateLimited | gdrive_summarizer/llm_client.py:53-63 | against a provider that always answers 429, every attempt i waits RETRY_DELAY·i |
| LlmClient.AlwaysRateLimitedExhausts | gdrive_summarizer/llm_client.py:35-83 | against a provider that always answers 429, all MAX_RETRIES requests are sent, each followed by a wait, and the exhaustion error carries the last 429 answer |
| LlmClient.ChatMessages | gdrive_summarizer/llm_client.py:108-111 | the user message comes last; a system message is present iff `system` is non-empty, and then it comes first |
| LlmClient.Chat | gdrive_summarizer/llm_client.py:93-121 | one retried request to TEXT_MODEL with the chat messages |
| LlmClient.CandidateModels | gdrive_summarizer/llm_client.py:155-159 | the primary model comes first; there are no duplicates; the list holds exactly the primary and the fallbacks, in order of first occurrence |
| LlmClient.FallbackSpec | gdrive_summarizer/llm_client.py:161-182 | the walk from model i tries at most the models left, and at least one when any is left |
| LlmClient.FallbackTriesInOrder | gdrive_summarizer/llm_client.py:161-182 | the models are tried in order, at least one and each at most once; ContentBlocked and exhaustion errors never escape; the final error comes after all models and carries the error the last model raised |
| LlmClient.FallbackEndsAtModel | gdrive_summarizer/llm_client.py:163-169 | any other result is what the last model tried returned or raised, and it is not an error that moves on |
| LlmClient.FallbackSentBound | gdrive_summarizer/llm_client.py:163-178 | each model tried costs at most the bound of its retry loop |
| LlmClient.FallbackLastFromRun | gdrive_summarizer/llm_client.py:170-182 | the error carried to the final RuntimeError is a retry-loop error, never the final error itself |
| LlmClient.VisionFallbackFacts | gdrive_summarizer/llm_client.py:124-182 | describe_image sends at most MAX_RETRIES requests per model tried, and its final error carries a ContentBlocked or exhaustion error |
| LlmClient.AllBlockedFallback | gdrive_summarizer/llm_client.py:163-182 | if every model blocks at once, each is tried once and the final error carries the last model's block |
| LlmClient.AllBlockedDescribeImage | gdrive_summarizer/llm_client.py:124-182 | against an all-403 provider, describe_image fails after one request per model |
| LlmClient.FallbackAdvance | gdrive_summarizer/llm_client.py:170-178 | a model whose error moves on hands over to the next model |
| LlmClient.FallbackStop | gdrive_summarizer/llm_client.py:166-169 | a model that replies, or raises any other error, ends the walk |
| LlmClient.AskModel | gdrive_summarizer/llm_client.py:163-166 | one pass of the loop sends the messages to that model through the retry loop |
| LlmClient.TryModels | gdrive_summarizer/llm_client.py:161-182 | the loop over the models matches the fallback specification |
| LlmClient.DescribeImage | gdrive_summarizer/llm_client.py:124-182 | the fallback walk over the de-duplicated candidates, sending the image messages |
| ProcessorBase.LowerAll | gdrive_summarizer/processors/base.py:43 | the keys stored for a list of extensions are all lower case, one per extension |
| ProcessorBase.Registered | gdrive_summarizer/processors/base.py:43-44 | the map gains the lowered extension for the class; every other key keeps its class and no other key appears |
| ProcessorBase.RegisterAll | gdrive_summarizer/processors/base.py:43-44 | registering a list of extensions loses no key already registered |
| ProcessorBase.RegisterThenLookup | gdrive_summarizer/processors/base.py:43-54 | a registered extension is found again under a suffix of any letter case |
| ProcessorBase.RegisterLeavesOthers | gdrive_summarizer/processors/base.py:43-44 | registering one extension leaves the lookup of every other extension unchanged |
| ProcessorBase.LastRegistrationWins | gdrive_summarizer/processors/base.py:44 | registering the same extension twice keeps only the later class |
| ProcessorBase.LookupIgnoresCase | gdrive_summarizer/processors/base.py:53-54 | looking up a suffix is the same as looking up its lower-case form |
| ProcessorBase.UpperPdfIsPdf | gdrive_summarizer/processors/base.py:53-54 | `.PDF` and `.pdf` find the same class |
| ProcessorBase.LookupIn | gdrive_summarizer/processors/base.py:53-57 | `_EXTENSION_MAP.get(suffix.lower())`: None iff the lowered suffix is not a key, and otherwise a class the map holds; LookupMissing and LookupIgnoresCase are its partners |
| ProcessorBase.LookupMissing | gdrive_summarizer/processors/base.py:54-57 | a lookup gives None iff the lowered suffix is unregistered, and otherwise gives its class |
| ProcessorBase.RegisterAllLookup | gdrive_summarizer/processors/base.py:43-44 | after registering a list of extensions, a suffix among them finds the class, and any other suffix finds what it found before |
| ProcessorBase.LowerAllUnchanged | gdrive_summarizer/processors/base.py:29 | a list of lower-case extensions is its own lower-cased form |
| ProcessorBase.Processor.constructor | gdrive_summarizer/processors/base.py:58 | `cls()`: an instance of the registered class |
| ProcessorBase.Registry.constructor | gdrive_summarizer/processors/base.py:30 | the map starts empty |
| ProcessorBase.Registry.Register | gdrive_summarizer/processors/base.py:33-45 | the map gains the lowered extension for the class, and nothing else changes |
| ProcessorBase.Registry.RegisterEach | gdrive_summarizer/processors/text_processor.py:39-40 | registers each extension in turn |
| ProcessorBase.Registry.GetProcessor | gdrive_summarizer/processors/base.py:48-58 | None iff the lowered suffix is unregistered; otherwise a fresh instance of the registered class |
| TextProcessor.Decoding | gdrive_summarizer/processors/text_processor.py:21-35 | the walk over the encodings: a raise comes from an encoding whose read raised something other than a decode error, and a non-empty text is the decode of one of the encodings; FirstSuccessWins, AllFailGiveEmpty and DecodingCases pin which one |
| TextProcessor.Extract | gdrive_summarizer/processors/text_processor.py:18-35 | the loop over the encodings ends with Decoding over ENCODINGS: the first decode, `""` after all fail, or the raise |
| TextProcessor.FirstSuccessWins | gdrive_summarizer/processors/text_processor.py:21-30 | the first encoding that decodes gives the result, after earlier ones all failed |
| TextProcessor.AllFailGiveEmpty | gdrive_summarizer/processors/text_processor.py:31-35 | when every encoding fails to decode, the result is `""` |
| TextProcessor.DecodingCases | gdrive_summarizer/processors/text_processor.py:21-35 | conversely, the result is `""` after all encodings fail, or comes from the first encoding that does not fail to decode: its text, or an uncaught read error |
| TextProcessor.RegisterTextProcessor | gdrive_summarizer/processors/text_processor.py:38-40 | registers the nine text extensions |
| TextProcessor.TextExtensionsLowerCase | gdrive_summarizer/processors/text_processor.py:39-40 | the text extensions are written in lower case, so they are stored as written |
| PdfProcessor.KeptPages | gdrive_summarizer/processors/pdf_processor.py:21-25 | no more pages than the document has |
| PdfProcessor.KeptPagesNotBlank | gdrive_summarizer/processors/pdf_processor.py:23-25 | every kept page has a character that is not whitespace |
| PdfProcessor.PdfText | gdrive_summarizer/processors/pdf_processor.py:18-33 | extract raises exactly for an unreadable document, that is, one on which PyPDF2 raises anywhere during extract; otherwise it gives the kept pages joined by a blank line |
| PdfProcessor.Extract | gdrive_summarizer/processors/pdf_processor.py:18-33 | the page loop matches the joined kept pages; an unreadable PDF raises |
| PdfProcessor.KeptSinglePage | gdrive_summarizer/processors/pdf_processor.py:23-25 | a page is kept, unchanged, iff its text is not blank |
| PdfProcessor.KeptPagesAppend | gdrive_summarizer/processors/pdf_processor.py:22-25 | filtering distributes over concatenation, so pages stay in page order |
| PdfProcessor.KeptPagesFromDocument | gdrive_summarizer/processors/pdf_processor.py:22-25 | every kept page is one of the document's pages |
| PdfProcessor.NothingKept | gdrive_summarizer/processors/pdf_processor.py:22-25 | no page is kept iff every page is blank |
| PdfProcessor.EmptyWhenNothingKept | gdrive_summarizer/processors/pdf_processor.py:22-26 | the extracted text is empty iff every page is blank |
| PdfProcessor.RegisterPdfProcessor | gdrive_summarizer/processors/pdf_processor.py:36-37 | registers `.pdf` |
| ImageProcessor.ImageText | gdrive_summarizer/processors/image_processor.py:79-97 | extract on an image: one that cannot be prepared raises and sends nothing; otherwise describe_image sends at most MAX_RETRIES requests per de-duplicated candidate model |
| ImageProcessor.Extract | gdrive_summarizer/processors/image_processor.py:79-97 | describe_image with the document prompt on the prepared image; a failure to prepare the image raises and sends nothing |
| ImageProcessor.RegisterImageProcessor | gdrive_summarizer/processors/image_processor.py:100-102 | registers the eight image extensions |
| ImageProcessor.ImageExtensionsLowerCase | gdrive_summarizer/processors/image_processor.py:101-102 | the image extensions are written in lower case, so they are stored as written |
| Summarizer.LoadProcessors | gdrive_summarizer/summarizer.py:13-16 | the imports register the image, then pdf, then text extensions into a fresh registry |
| Summarizer.BuiltinLookup | gdrive_summarizer/summarizer.py:13-17 | for a suffix in any letter case, the built-in registry picks the text, PDF or image processor, or none |
| Summarizer.FileContent | gdrive_summarizer/summarizer.py:29-38 | `_extract_file_content`: without a registered processor, None and no request; a request is sent only when the image processor was chosen; NoContentCases gives the converse |
| Summarizer.ExtractFileContent | gdrive_summarizer/summarizer.py:29-38 | _extract_file_content with the registry's processor and its try block equals FileContent over the registry's map |
| Summarizer.NoContentCases | gdrive_summarizer/summarizer.py:31-38 | there is no content iff no processor is registered or the chosen processor raises |
| Summarizer.OnlyImagesSendRequests | gdrive_summarizer/summarizer.py:29-38 | requests are sent only for files the image processor handles |
| Summarizer.Put | gdrive_summarizer/summarizer.py:69-71 | `per_file[name] = value`: the keys stay as they were or gain the name at the end, and the name reads back the new value; PutGet and PutCoherent are its partners |
| Summarizer.PutGet | gdrive_summarizer/summarizer.py:69-71 | the key just stored maps to its value, and every other key is unchanged |
| Summarizer.PutCoherent | gdrive_summarizer/summarizer.py:69-71 | storing a value keeps the ordered keys unique and equal to the dictionary's keys |
| Summarizer.ItemsOfCoherent | gdrive_summarizer/summarizer.py:78 | `per_file.items()` gives each key, in insertion order, with its value |
| Summarizer.Stored | gdrive_summarizer/summarizer.py:68-71 | `content if content else placeholder`: never empty, and a non-empty content is stored unchanged; StoredCases gives the converse |
| Summarizer.StoredCases | gdrive_summarizer/summarizer.py:68-71 | the placeholder is stored iff the content is missing, empty or the placeholder text itself; otherwise the content itself is stored |
| Summarizer.CollectNext | gdrive_summarizer/summarizer.py:66-71 | one pass of the loop: the file's name becomes a key and the extraction count grows by one; CollectNextOf gives the stored value and the requests |
| Summarizer.Collect | gdrive_summarizer/summarizer.py:65-71 | the extraction loop: every file is extracted once, and the last file's name is a key; CollectNames, CollectCoherent, LaterFileReplaces and ValueIsLastFile are its partners |
| Summarizer.CollectCoherent | gdrive_summarizer/summarizer.py:65-71 | the loop leaves a dictionary whose ordered keys are its keys, each once |
| Summarizer.CollectNames | gdrive_summarizer/summarizer.py:65-71 | per_file has one key per distinct file name, in order of first occurrence |
| Summarizer.DedupNamesLast | gdrive_summarizer/summarizer.py:66-71 | the last file adds its name to the keys unless an earlier file had that name |
| Summarizer.LaterFileReplaces | gdrive_summarizer/summarizer.py:66-71 | the value under the last file's name is that file's, whatever an earlier file of the same name yielded |
| Summarizer.ValueIsLastFile | gdrive_summarizer/summarizer.py:65-71 | for every file j that no later file shares a name with, the value under its name is what file j yielded (`YieldOf`: its extraction, numbered after the requests of the files before it), so a later file of the same name replaces an earlier one and files of other names leave it alone |
| Summarizer.NothingExtractedGivesPlaceholders | gdrive_summarizer/summarizer.py:66-73 | when no file yields content, every value is the placeholder and no request is sent |
| Summarizer.Truncate | gdrive_summarizer/summarizer.py:80-82 | content of at most 12000 characters is unchanged; longer content becomes its first 12000 characters followed by the marker |
| Summarizer.Parts | gdrive_summarizer/summarizer.py:77-83 | one part per entry, in order, none longer than its header, name and blank line plus 12000 characters and the marker |
| Summarizer.CombinedPrompt | gdrive_summarizer/summarizer.py:83-89 | the prompt begins with the fixed two-line header and is exactly the header iff there are no entries; PromptOfOne and PromptAppend give the parts and delimiters |
| Summarizer.PromptOfOne | gdrive_summarizer/summarizer.py:83-89 | the prompt for one file is the header, `### Файл: name`, a blank line and the truncated content |
| Summarizer.PromptAppend | gdrive_summarizer/summarizer.py:85-89 | one more entry appends the delimiter and its part to the prompt |
| Summarizer.CollectStep | gdrive_summarizer/summarizer.py:66-71 | one iteration of the extraction loop extends the collected state by one file |
| Summarizer.CollectContents | gdrive_summarizer/summarizer.py:65-71 | the extraction loop leaves `per_file` and the requests sent as Collect gives them |
| Summarizer.BuildParts | gdrive_summarizer/summarizer.py:77-83 | the parts loop matches Parts |
| Summarizer.ConcludeCases | gdrive_summarizer/summarizer.py:73-94 | if every value is the placeholder, the "nothing extracted" message is returned without calling chat; otherwise chat is called once with the combined prompt, and what it returns or raises is passed on |
| Summarizer.Conclude | gdrive_summarizer/summarizer.py:66-94 | the extraction count and requests are the loop's; chat is not called iff every stored value is the placeholder, and then no chat request is sent |
| Summarizer.Summary | gdrive_summarizer/summarizer.py:59-94 | every file is extracted, as Collect's count shows; chat is called only for a non-empty folder, and no chat request is sent when it is not called |
| Summarizer.SummarizeEntries | gdrive_summarizer/summarizer.py:85-94 | builds the combined prompt and calls chat with the system prompt |
| Summarizer.SummarizeFolder | gdrive_summarizer/summarizer.py:41-94 | summarize_folder equals Summary with the registry's extractor and SummaryChat |
| Summarizer.EmptyFolderShortCircuits | gdrive_summarizer/summarizer.py:60-62 | an empty folder returns the fixed message with no extraction and no request |
| Summarizer.NothingRegisteredShortCircuits | gdrive_summarizer/summarizer.py:66-74 | when no file has a processor, the "nothing extracted" message is returned and no request is sent |
| Summarizer.PromptCoversEveryName | gdrive_summarizer/summarizer.py:77-89 | the prompt has one part for each distinct file name, in order of first occurrence, each with the value stored for that name |

## Left out

- `downloader.py` and `main.py` (downloading the folder, the command line) are not part of this model. The downloaded files are an input.
- `_prepare_image` (Pillow loading, sharpening, contrast, PNG and base64 encoding) is abstract. The prepared image is its data URL, or `None` when preparing it raises.
- The lazy-import singleton `_get_llm_client` is left out: it only caches a module reference.
- `requests.post` and the JSON decoding of a response are abstract:
  - a response is a status, an optional decoded body (the reply content and the error message) and its raw text;
  - a failed `post` is `TransportFailed`, which leaves the loop as an error.
- The 120-second timeout is not modelled as a duration: a post that times out raises, which is `TransportFailed`. The headers and the API key (`_headers`) only change what the provider answers, and the abstract network already ranges over every answer.
- `raise_for_status` is modelled as one HTTP error carrying the status. It does not separate `requests`' exception classes.
- A status-200 body that is not JSON is modelled as one error, `MalformedJson`. A negative wait, which makes `time.sleep` raise, is modelled as one error, `NegativeSleep`.
- `time.sleep` is recorded as a back-off entry, not performed.
- Logging is left out.
- Floating point is modelled with `real`. `RETRY_DELAY * attempt` is exact here.
- `MAX_RETRIES` and `RETRY_DELAY` come from `Settings` and default to the constants. Converting them from environment strings (`int(...)`, `float(...)`) is not modelled. A non-positive `MAX_RETRIES` gives zero attempts, as `range` does.
- The text codecs are abstract. A file is the outcome of reading it with each encoding.
- PyPDF2 is abstract. A document is unreadable, or its pages' `extract_text()` results. Unreadable stands for PyPDF2 raising anywhere during extract: in `PdfReader(...)`, in `reader.pages`, or in any page's `extract_text()`. Which of these raised is not distinguished, since `extract` has no try block and raises in each case.
- `Path.suffix` is an input field of the downloaded file.
- `str.lower` is modelled for ASCII letters only. Other Unicode case mappings are left out.
- `str.strip` removes the characters for which `str.isspace()` holds, listed explicitly.
- Processor instances carry only their class (a `ProcessorKind`). `BaseProcessor` as an abstract class has no further behaviour.
- LlmClient.RetryFrom: when every attempt goes on, the loop raises the corrected exhaustion error (the last status and body whenever there was a last response). As written, the source reports `?` and `N/A` after a last 4xx/5xx response; LlmClient.ExhaustionAsWritten proves that this exit is reached with such a response, and the Findings table gives the input.
- LlmClient.RetrySpec: raises the corrected exhaustion error on the exhaustion exit, as RetryFrom does, for the same reason. So do LlmClient.Chat, whose RuntimeError text is that error, and LlmClient.AskModel and LlmClient.DescribeImage, where it is the `last_error` carried in the final RuntimeError.
- LlmClient.RetryReference: raises the corrected exhaustion error on the exhaustion exit, as RetryFrom does, for the same reason.
- LlmClient.RequestWithRetry: the loop method raises the corrected exhaustion error on the exhaustion exit, as RetryFrom does, for the same reason.
- LlmClient.ExhaustionReportsLastStatus: "reports the last status" holds of the corrected error. The error as written drops the status after a last 429/402/503, as LlmClient.ExhaustionAsWritten states.
- LlmClient.DescribeImage: the default argument `prompt="Describe this image in detail."` is not modelled. The prompt is always a parameter, and the only caller in this model, the image processor, always passes its document prompt.
- LlmClient.DescribeImage: the number of models tried is a count (`tried`), not the list of them. The models are those at indices `0..tried` of the candidate list, in order.
- Summarizer.SummarizeFolder: the Python dictionary `per_file` is modelled as a value, its keys in insertion order beside a map from key to value. That order is the one Python's `dict` keeps.

## Findings

| source | as written | input that shows it | evidently intended | confidence | as-written member | corrected member |
|---|---|---|---|---|---|---|
| gdrive_summarizer/llm_client.py:79-83 | `last_resp.status_code if last_resp else '?'` tests the truth value of a `requests.Response`, which is false for any 4xx/5xx status | every attempt answers 429, so the loop ends after MAX_RETRIES attempts and the message says `Last status: ?, body: N/A` | report the status and body of the last response whenever there was one | not executed | LlmClient.ExhaustedErrorAsWritten (shown by LlmClient.AsWrittenHidesRateLimitStatus and LlmClient.ExhaustionAsWritten) | LlmClient.ExhaustedError |
