/**
 * Configuration constants and the parsing of the comma-separated vision
 * fallback list (gdrive_summarizer/config.py). Reading the process
 * environment is modelled by an explicit map from variable names to values.
 */
module Config {
  import opened Strings

  /** Default model for both text and vision requests. */
  const DEFAULT_MODEL: string := "google/gemma-3-27b-it:free"

  /** The four default vision fallback models, each written as its vendor, its name and its tier. */
  const MISTRAL_SMALL: string := "mistralai/" + "mistral-small-3.1-24b-instruct" + ":free"
  const GEMMA_12B: string := "google/" + "gemma-3-12b-it" + ":free"
  const NEMOTRON_NANO: string := "nvidia/" + "nemotron-nano-12b-v2-vl" + ":free"
  const GEMINI_FLASH: string := "google/" + "gemini-2.5-flash" + ":free"

  /** The default value of VISION_FALLBACK_MODELS: adjacent literals, concatenated. */
  const DEFAULT_VISION_FALLBACKS: string :=
    MISTRAL_SMALL + "," + (GEMMA_12B + "," + (NEMOTRON_NANO + "," + GEMINI_FLASH))

  /** Default number of attempts per request. */
  const MAX_RETRIES: int := 3

  /** Default base of the linear back-off, in seconds. */
  const RETRY_DELAY: real := 5.0

  /** The values the client and the orchestrator read from this module. */
  datatype Settings = Settings(
    textModel: string,
    visionModel: string,
    visionFallbacks: seq<string>,
    maxRetries: int,
    retryDelay: real)

  /**
   * The stripped pieces that are not empty, in order:
   * `[m.strip() for m in pieces if m.strip()]`.
   */
  function KeepStripped(pieces: seq<string>): (models: seq<string>)
    ensures |models| <= |pieces|
    decreases |pieces|
  {
    if pieces == [] then []
    else
      var m := Strip(pieces[0]);
      var rest := KeepStripped(pieces[1..]);
      if m != [] then [m] + rest else rest
  }

  /** Every model kept is non-empty and has no surrounding whitespace. */
  lemma {:induction false} KeepStrippedClean(pieces: seq<string>)
    ensures forall i :: 0 <= i < |KeepStripped(pieces)| ==> KeepStripped(pieces)[i] != [] && IsStripped(KeepStripped(pieces)[i])
    decreases |pieces|
  {
    if pieces != [] {
      KeepStrippedClean(pieces[1..]);
    }
  }

  /** The VISION_FALLBACK_MODELS list built from its comma-separated source text. */
  function ParseFallbackModels(raw: string): (models: seq<string>)
    ensures forall i :: 0 <= i < |models| ==> models[i] != [] && IsStripped(models[i])
  {
    KeepStrippedClean(Split(raw, ','));
    KeepStripped(Split(raw, ','))
  }

  /** `os.getenv(name, default)`. */
  function GetEnv(env: map<string, string>, name: string, default: string): string {
    if name in env then env[name] else default
  }

  /** VISION_FALLBACK_MODELS as config.py computes it at import time. */
  function VisionFallbackModels(env: map<string, string>): seq<string> {
    ParseFallbackModels(GetEnv(env, "VISION_FALLBACK_MODELS", DEFAULT_VISION_FALLBACKS))
  }

  /** The settings in force when no variable is set. */
  function DefaultSettings(): Settings {
    Settings(DEFAULT_MODEL, DEFAULT_MODEL, VisionFallbackModels(map[]), MAX_RETRIES, RETRY_DELAY)
  }

  /** Filtering distributes over concatenation: order is kept and nothing is merged. */
  lemma {:induction false} KeepStrippedAppend(a: seq<string>, b: seq<string>)
    ensures KeepStripped(a + b) == KeepStripped(a) + KeepStripped(b)
    decreases |a|
  {
    if a == [] {
      assert a + b == b;
    } else {
      assert (a + b)[0] == a[0];
      assert (a + b)[1..] == a[1..] + b;
      KeepStrippedAppend(a[1..], b);
      if Strip(a[0]) != [] {
        assert [Strip(a[0])] + (KeepStripped(a[1..]) + KeepStripped(b))
          == ([Strip(a[0])] + KeepStripped(a[1..])) + KeepStripped(b);
      }
    }
  }

  /**
   * The list for "a,b" is the list for "a" followed by the list for "b":
   * entries keep their left-to-right order and duplicates survive.
   */
  lemma ParseAroundComma(a: string, b: string)
    ensures ParseFallbackModels(a + "," + b) == ParseFallbackModels(a) + ParseFallbackModels(b)
  {
    SplitAround(a, ',', b);
    KeepStrippedAppend(Split(a, ','), Split(b, ','));
  }

  /** A piece without a comma yields its stripped text, or nothing when that is empty. */
  lemma ParseSinglePiece(s: string)
    requires ',' !in s
    ensures ParseFallbackModels(s) == if Strip(s) == [] then [] else [Strip(s)]
  {
    SplitWithoutSeparator(s, ',');
  }

  /** No de-duplication happens here: a repeated entry stays repeated. */
  lemma DuplicatesSurvive(m: string)
    requires ',' !in m && m != [] && IsStripped(m)
    ensures ParseFallbackModels(m + "," + m) == [m, m]
  {
    ParseAroundComma(m, m);
    ParseSinglePiece(m);
  }

  /** A comma-free model name with no surrounding whitespace parses to itself. */
  lemma ParseOneModel(m: string)
    requires ',' !in m && m != [] && IsStripped(m)
    ensures ParseFallbackModels(m) == [m]
  {
    ParseSinglePiece(m);
  }

  /** A clean model name in front of a comma puts that name in front of the list. */
  lemma ParsePrepend(m: string, rest: string)
    requires ',' !in m && m != [] && IsStripped(m)
    ensures ParseFallbackModels(m + "," + rest) == [m] + ParseFallbackModels(rest)
  {
    ParseAroundComma(m, rest);
    ParseOneModel(m);
  }

  /** Four such names joined with commas parse to the list of the four, in order. */
  lemma ParseFourModels(a: string, b: string, c: string, d: string)
    requires ',' !in a && a != [] && IsStripped(a)
    requires ',' !in b && b != [] && IsStripped(b)
    requires ',' !in c && c != [] && IsStripped(c)
    requires ',' !in d && d != [] && IsStripped(d)
    ensures ParseFallbackModels(a + "," + (b + "," + (c + "," + d))) == [a, b, c, d]
  {
    var cd := c + "," + d;
    var bcd := b + "," + cd;
    assert [a] + [b, c, d] == [a, b, c, d];
    assert ParseFallbackModels(cd) == [c, d] by {
      ParseOneModel(d);
      ParsePrepend(c, d);
    }
    assert ParseFallbackModels(bcd) == [b, c, d] by {
      ParsePrepend(b, cd);
    }
    ParsePrepend(a, bcd);
  }

  /**
   * A model written as vendor, name and tier, none containing a comma, with
   * no whitespace at its two ends, is one clean entry of the list.
   */
  lemma CleanModelName(vendor: string, name: string, tier: string)
    requires ',' !in vendor && ',' !in name && ',' !in tier
    requires vendor != [] && !IsSpace(vendor[0])
    requires tier != [] && !IsSpace(tier[|tier| - 1])
    ensures var m := vendor + name + tier; ',' !in m && m != [] && IsStripped(m)
  {
    var m := vendor + name + tier;
    assert m[0] == vendor[0];
    assert m[|m| - 1] == tier[|tier| - 1];
    forall k | 0 <= k < |m|
      ensures m[k] != ','
    {
      if k < |vendor| {
        assert m[k] == vendor[k];
      } else if k < |vendor| + |name| {
        assert m[k] == name[k - |vendor|];
      } else {
        assert m[k] == tier[k - |vendor| - |name|];
      }
    }
  }

  /** Each default fallback model is one clean entry. */
  lemma MistralSmallIsClean()
    ensures ',' !in MISTRAL_SMALL && MISTRAL_SMALL != [] && IsStripped(MISTRAL_SMALL)
  {
    CleanModelName("mistralai/", "mistral-small-3.1-24b-instruct", ":free");
  }

  lemma Gemma12bIsClean()
    ensures ',' !in GEMMA_12B && GEMMA_12B != [] && IsStripped(GEMMA_12B)
  {
    CleanModelName("google/", "gemma-3-12b-it", ":free");
  }

  lemma NemotronNanoIsClean()
    ensures ',' !in NEMOTRON_NANO && NEMOTRON_NANO != [] && IsStripped(NEMOTRON_NANO)
  {
    CleanModelName("nvidia/", "nemotron-nano-12b-v2-vl", ":free");
  }

  lemma GeminiFlashIsClean()
    ensures ',' !in GEMINI_FLASH && GEMINI_FLASH != [] && IsStripped(GEMINI_FLASH)
  {
    CleanModelName("google/", "gemini-2.5-flash", ":free");
  }

  /** With VISION_FALLBACK_MODELS unset, the fallback list is the four default models, in order. */
  lemma DefaultFallbackModels()
    ensures VisionFallbackModels(map[]) == [MISTRAL_SMALL, GEMMA_12B, NEMOTRON_NANO, GEMINI_FLASH]
  {
    MistralSmallIsClean();
    Gemma12bIsClean();
    NemotronNanoIsClean();
    GeminiFlashIsClean();
    ParseFourModels(MISTRAL_SMALL, GEMMA_12B, NEMOTRON_NANO, GEMINI_FLASH);
  }

  /**
   * With no variable set, the settings are the defaults of config.py: the
   * default model for text and vision, the four fallback models in order,
   * three attempts and a five-second back-off base.
   */
  lemma DefaultSettingsValues()
    ensures DefaultSettings().textModel == DEFAULT_MODEL && DefaultSettings().visionModel == DEFAULT_MODEL
    ensures DefaultSettings().visionFallbacks == [MISTRAL_SMALL, GEMMA_12B, NEMOTRON_NANO, GEMINI_FLASH]
    ensures DefaultSettings().maxRetries == 3 && DefaultSettings().retryDelay == 5.0
  {
    DefaultFallbackModels();
  }
}
