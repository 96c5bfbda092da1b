/**
 * TextProcessor (gdrive_summarizer/processors/text_processor.py): read a file
 * with each encoding in turn and return the first decode that succeeds. The
 * codec itself is abstract: a file is the outcome of reading it with each encoding.
 */
module TextProcessor {
  import opened ProcessorBase

  datatype Encoding = Utf8 | Cp1251 | Latin1

  /** `TextProcessor.ENCODINGS`, in the order they are tried. */
  const ENCODINGS: seq<Encoding> := [Utf8, Cp1251, Latin1]

  /** The extensions the module registers TextProcessor for. */
  const TEXT_EXTENSIONS: seq<string> := [".txt", ".md", ".csv", ".json", ".xml", ".html", ".htm", ".log", ".rst"]

  /** The extensions are written in lower case, so registering them stores them as written. */
  lemma TextExtensionsLowerCase()
    ensures LowerAll(TEXT_EXTENSIONS) == TEXT_EXTENSIONS
  {
    LowerAllUnchanged(TEXT_EXTENSIONS);
  }

  /**
   * `file_path.read_text(encoding=enc)`: the decoded text, a failure the loop
   * catches (UnicodeDecodeError or ValueError), or any other exception (such
   * as an OSError), which leaves `extract`.
   */
  datatype ReadOutcome = Decoded(text: string) | DecodeFailed | ReadFailed

  /** A text file, as the outcome of reading it with each encoding. */
  type TextFile = Encoding -> ReadOutcome

  /** What the loop over `encs` ends with: the first decode, `""` when all fail, or a raise. */
  function Decoding(file: TextFile, encs: seq<Encoding>): (r: ExtractResult)
    ensures r.ExtractRaised? ==> exists k :: 0 <= k < |encs| && file(encs[k]).ReadFailed?
    ensures r.Extracted? && r.text != [] ==> exists k :: 0 <= k < |encs| && file(encs[k]) == Decoded(r.text)
    decreases |encs|
  {
    if encs == [] then Extracted("")
    else match file(encs[0])
      case Decoded(text) => Extracted(text)
      case DecodeFailed =>
        assert forall k :: 0 <= k < |encs| - 1 ==> encs[1..][k] == encs[k + 1];
        Decoding(file, encs[1..])
      case ReadFailed => ExtractRaised
  }

  /** `TextProcessor.extract`. */
  method Extract(file: TextFile) returns (r: ExtractResult)
    ensures r == Decoding(file, ENCODINGS)
  {
    for i := 0 to |ENCODINGS|
      invariant Decoding(file, ENCODINGS) == Decoding(file, ENCODINGS[i..])
    {
      assert ENCODINGS[i..][1..] == ENCODINGS[i + 1..];
      match file(ENCODINGS[i])
      case Decoded(text) =>
        return Extracted(text);
      case DecodeFailed =>
      case ReadFailed =>
        return ExtractRaised;
    }
    return Extracted("");
  }

  /** Every encoding before index `j` raised an error the loop catches. */
  predicate FailsBefore(file: TextFile, encs: seq<Encoding>, j: nat)
    requires j <= |encs|
  {
    forall k :: 0 <= k < j ==> file(encs[k]).DecodeFailed?
  }

  /** The decode of the first encoding that succeeds is the result. */
  lemma {:induction false} FirstSuccessWins(file: TextFile, encs: seq<Encoding>, j: nat)
    requires j < |encs| && FailsBefore(file, encs, j) && file(encs[j]).Decoded?
    ensures Decoding(file, encs) == Extracted(file(encs[j]).text)
    decreases j
  {
    if j > 0 {
      assert file(encs[0]).DecodeFailed?;
      FirstSuccessWins(file, encs[1..], j - 1);
    }
  }

  /** When every encoding fails to decode, the result is the empty string. */
  lemma {:induction false} AllFailGiveEmpty(file: TextFile, encs: seq<Encoding>)
    requires FailsBefore(file, encs, |encs|)
    ensures Decoding(file, encs) == Extracted("")
    decreases |encs|
  {
    if encs != [] {
      assert file(encs[0]).DecodeFailed?;
      AllFailGiveEmpty(file, encs[1..]);
    }
  }

  /**
   * Conversely, the result always comes from one of those two cases or from an
   * uncaught read error: some encoding `j` ends the loop after every earlier
   * one failed to decode, or all of them failed.
   */
  lemma {:induction false} DecodingCases(file: TextFile, encs: seq<Encoding>)
    ensures FailsBefore(file, encs, |encs|) ==> Decoding(file, encs) == Extracted("")
    ensures !FailsBefore(file, encs, |encs|) ==>
      exists j :: 0 <= j < |encs| && FailsBefore(file, encs, j) && !file(encs[j]).DecodeFailed?
        && Decoding(file, encs) == (if file(encs[j]).Decoded? then Extracted(file(encs[j]).text) else ExtractRaised)
    decreases |encs|
  {
    if encs != [] {
      DecodingCases(file, encs[1..]);
      if FailsBefore(file, encs, |encs|) {
        AllFailGiveEmpty(file, encs);
      } else if !file(encs[0]).DecodeFailed? {
        assert FailsBefore(file, encs, 0);
      } else {
        assert !FailsBefore(file, encs[1..], |encs| - 1);
        var j :| 0 <= j < |encs| - 1 && FailsBefore(file, encs[1..], j) && !file(encs[1..][j]).DecodeFailed?
          && Decoding(file, encs[1..]) == (if file(encs[1..][j]).Decoded? then Extracted(file(encs[1..][j]).text) else ExtractRaised);
        assert FailsBefore(file, encs, j + 1);
      }
    }
  }

  /** The module's registration loop. */
  method RegisterTextProcessor(registry: Registry)
    modifies registry
    ensures registry.extensionMap == RegisterAll(old(registry.extensionMap), TEXT_EXTENSIONS, TextKind)
  {
    registry.RegisterEach(TEXT_EXTENSIONS, TextKind);
  }
}
