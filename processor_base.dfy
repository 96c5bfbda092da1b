/**
 * The processor registry of gdrive_summarizer/processors/base.py: a map from
 * lower-cased file extensions (with the dot) to processor classes, filled in
 * place by `register_processor` and read by `get_processor`.
 */
module ProcessorBase {
  import opened Wrappers
  import opened Strings

  /** The concrete `BaseProcessor` subclasses a registry entry can name. */
  datatype ProcessorKind = TextKind | PdfKind | ImageKind

  /** What a processor's `extract` does: return a text, or raise. */
  datatype ExtractResult = Extracted(text: string) | ExtractRaised

  type ExtensionMap = map<string, ProcessorKind>

  /** The map after `_EXTENSION_MAP[extension.lower()] = cls`. */
  function Registered(m: ExtensionMap, extension: string, kind: ProcessorKind): (r: ExtensionMap)
    ensures Lower(extension) in r && r[Lower(extension)] == kind
    ensures forall k :: k in r ==> k in m || k == Lower(extension)
    ensures forall k :: k in m && k != Lower(extension) ==> k in r && r[k] == m[k]
  {
    m[Lower(extension) := kind]
  }

  /** `_EXTENSION_MAP.get(suffix.lower())`. */
  function LookupIn(m: ExtensionMap, suffix: string): (r: Option<ProcessorKind>)
    ensures r.None? <==> Lower(suffix) !in m
    ensures r.Some? ==> r.value in m.Values
  {
    var ext := Lower(suffix);
    if ext in m then Some(m[ext]) else None
  }

  /** The map after registering `kind` for every extension of `exts`, in order. */
  function RegisterAll(m: ExtensionMap, exts: seq<string>, kind: ProcessorKind): (r: ExtensionMap)
    ensures forall k :: k in m ==> k in r
    decreases |exts|
  {
    if exts == [] then m
    else Registered(RegisterAll(m, exts[..|exts| - 1], kind), exts[|exts| - 1], kind)
  }

  /** The lower-cased forms of the extensions. */
  function LowerAll(exts: seq<string>): (r: seq<string>)
    ensures |r| == |exts| && forall i :: 0 <= i < |exts| ==> r[i] == Lower(exts[i])
    ensures forall i :: 0 <= i < |r| ==> HasNoUpper(r[i])
  {
    seq(|exts|, i requires 0 <= i < |exts| => Lower(exts[i]))
  }

  /** A registered extension is found again, whatever the case of the suffix looked up. */
  lemma RegisterThenLookup(m: ExtensionMap, extension: string, kind: ProcessorKind, suffix: string)
    requires Lower(suffix) == Lower(extension)
    ensures LookupIn(Registered(m, extension, kind), suffix) == Some(kind)
  {
  }

  /** Registering an extension leaves the lookup of every other extension as it was. */
  lemma RegisterLeavesOthers(m: ExtensionMap, extension: string, kind: ProcessorKind, suffix: string)
    requires Lower(suffix) != Lower(extension)
    ensures LookupIn(Registered(m, extension, kind), suffix) == LookupIn(m, suffix)
  {
  }

  /** Registering the same extension twice keeps only the later class. */
  lemma LastRegistrationWins(m: ExtensionMap, first: string, k1: ProcessorKind, second: string, k2: ProcessorKind)
    requires Lower(first) == Lower(second)
    ensures Registered(Registered(m, first, k1), second, k2) == Registered(m, second, k2)
  {
  }

  /** Lookup ignores the case of the suffix: `.PDF` and `.pdf` give the same class. */
  lemma LookupIgnoresCase(m: ExtensionMap, suffix: string)
    ensures LookupIn(m, suffix) == LookupIn(m, Lower(suffix))
  {
    LowerIdempotent(suffix);
  }

  /** The concrete instance of the case rule. */
  lemma UpperPdfIsPdf(m: ExtensionMap)
    ensures LookupIn(m, ".PDF") == LookupIn(m, ".pdf")
  {
    assert Lower(".PDF") == ".pdf";
    LookupIgnoresCase(m, ".PDF");
    LookupIgnoresCase(m, ".pdf");
  }

  /** An unregistered extension gives `None`; a registered one gives its class. */
  lemma LookupMissing(m: ExtensionMap, suffix: string)
    ensures LookupIn(m, suffix).None? <==> Lower(suffix) !in m
    ensures LookupIn(m, suffix).Some? ==> LookupIn(m, suffix).value == m[Lower(suffix)]
  {
  }

  /**
   * After registering a list of extensions, a suffix among them finds `kind`
   * and every other suffix finds what it found before.
   */
  lemma {:induction false} RegisterAllLookup(m: ExtensionMap, exts: seq<string>, kind: ProcessorKind, suffix: string)
    ensures LookupIn(RegisterAll(m, exts, kind), suffix)
      == if Lower(suffix) in LowerAll(exts) then Some(kind) else LookupIn(m, suffix)
    decreases |exts|
  {
    if exts != [] {
      var init := exts[..|exts| - 1];
      RegisterAllLookup(m, init, kind, suffix);
      assert LowerAll(exts) == LowerAll(init) + [Lower(exts[|exts| - 1])];
    }
  }

  /** Extensions written in lower case are their own lower-cased forms. */
  lemma LowerAllUnchanged(exts: seq<string>)
    requires forall i :: 0 <= i < |exts| ==> HasNoUpper(exts[i])
    ensures LowerAll(exts) == exts
  {
    forall i | 0 <= i < |exts| ensures LowerAll(exts)[i] == exts[i] {
      LowerUnchanged(exts[i]);
    }
  }

  /** An instance of a processor class, as `cls()` creates it. */
  class Processor {
    const kind: ProcessorKind

    constructor (kind: ProcessorKind)
      ensures this.kind == kind
    {
      this.kind := kind;
    }
  }

  /** The module-level `_EXTENSION_MAP`, as an object the registration code updates in place. */
  class Registry {
    var extensionMap: ExtensionMap

    /** The map is empty when base.py is first imported. */
    constructor ()
      ensures extensionMap == map[]
    {
      extensionMap := map[];
    }

    /** `register_processor(extension, cls)`. */
    method Register(extension: string, kind: ProcessorKind)
      modifies this
      ensures extensionMap == Registered(old(extensionMap), extension, kind)
    {
      var ext := Lower(extension);
      extensionMap := extensionMap[ext := kind];
    }

    /** `for ext in exts: register_processor(ext, cls)`. */
    method RegisterEach(exts: seq<string>, kind: ProcessorKind)
      modifies this
      ensures extensionMap == RegisterAll(old(extensionMap), exts, kind)
    {
      for i := 0 to |exts|
        invariant extensionMap == RegisterAll(old(extensionMap), exts[..i], kind)
      {
        assert exts[..i + 1][..i] == exts[..i];
        Register(exts[i], kind);
      }
      assert exts[..|exts|] == exts;
    }

    /** `get_processor`: `None` for an unregistered suffix, else a new instance of the registered class. */
    method GetProcessor(suffix: string) returns (p: Processor?)
      ensures p == null <==> LookupIn(extensionMap, suffix).None?
      ensures p != null ==> fresh(p) && LookupIn(extensionMap, suffix) == Some(p.kind)
    {
      var ext := Lower(suffix);
      if ext !in extensionMap {
        return null;
      }
      p := new Processor(extensionMap[ext]);
    }
  }
}
