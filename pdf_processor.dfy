/**
 * PDFProcessor (gdrive_summarizer/processors/pdf_processor.py): keep the
 * pages whose text is not blank and join them with a blank line. PyPDF2 is
 * abstract: a document is either unreadable or its pages' extracted texts.
 */
module PdfProcessor {
  import opened Wrappers
  import opened Strings
  import opened ProcessorBase

  /** PyPDF2 raising anywhere during extract (opening, `reader.pages`, a page's `extract_text()`), or the results of `page.extract_text()` in page order. */
  datatype PdfDocument = Unreadable | Pages(texts: seq<Option<string>>)

  /** The separator between kept pages. */
  const PAGE_SEPARATOR: string := "\n\n"

  /** `page.extract_text() or ""`. */
  function PageText(p: Option<string>): string {
    p.GetOr("")
  }

  /** `if text.strip():` — the page has a character that is not whitespace. */
  predicate Kept(p: Option<string>) {
    !AllSpace(PageText(p))
  }

  /** The texts of the kept pages, in page order. */
  function KeptPages(texts: seq<Option<string>>): (pages: seq<string>)
    ensures |pages| <= |texts|
    decreases |texts|
  {
    if texts == [] then []
    else
      var init, last := texts[..|texts| - 1], texts[|texts| - 1];
      KeptPages(init) + if Kept(last) then [PageText(last)] else []
  }

  /** What `extract` returns for the document. */
  function PdfText(doc: PdfDocument): (r: ExtractResult)
    ensures r.ExtractRaised? <==> doc.Unreadable?
  {
    match doc
    case Unreadable => ExtractRaised
    case Pages(texts) => Extracted(Join(KeptPages(texts), PAGE_SEPARATOR))
  }

  /** `PDFProcessor.extract`. */
  method Extract(doc: PdfDocument) returns (r: ExtractResult)
    ensures r == PdfText(doc)
  {
    if doc.Unreadable? {
      return ExtractRaised;
    }
    var texts := doc.texts;
    var pages: seq<string> := [];
    for i := 0 to |texts|
      invariant pages == KeptPages(texts[..i])
    {
      ghost var next := if Kept(texts[i]) then [PageText(texts[i])] else [];
      assert KeptPages(texts[..i + 1]) == KeptPages(texts[..i]) + next by {
        assert texts[..i + 1][..i] == texts[..i];
      }
      var text := texts[i].GetOr("");
      if Strip(text) != [] {
        pages := pages + [text];
      }
    }
    assert texts[..|texts|] == texts;
    r := Extracted(Join(pages, PAGE_SEPARATOR));
  }

  /** A single page is kept exactly when its text is not blank, and is kept as it is. */
  lemma KeptSinglePage(p: Option<string>)
    ensures KeptPages([p]) == if p.Some? && !AllSpace(p.value) then [p.value] else []
  {
    assert [p][..0] == [];
    assert KeptPages([p]) == [] + if Kept(p) then [PageText(p)] else [];
    assert Kept(p) <==> p.Some? && !AllSpace(p.value);
  }

  /** No kept page is blank. */
  lemma {:induction false} KeptPagesNotBlank(texts: seq<Option<string>>)
    ensures forall i :: 0 <= i < |KeptPages(texts)| ==> !AllSpace(KeptPages(texts)[i])
    decreases |texts|
  {
    if texts != [] {
      var init, last := texts[..|texts| - 1], texts[|texts| - 1];
      KeptPagesNotBlank(init);
      var pages := KeptPages(texts);
      assert pages == KeptPages(init) + if Kept(last) then [PageText(last)] else [];
      forall i | 0 <= i < |pages| ensures !AllSpace(pages[i]) {
        if i < |KeptPages(init)| {
          assert pages[i] == KeptPages(init)[i];
        } else {
          assert pages[i] == PageText(last) && Strip(PageText(last)) != [];
        }
      }
    }
  }

  /** Filtering distributes over concatenation, so kept pages stay in page order. */
  lemma {:induction false} KeptPagesAppend(a: seq<Option<string>>, b: seq<Option<string>>)
    ensures KeptPages(a + b) == KeptPages(a) + KeptPages(b)
    decreases |b|
  {
    if b == [] {
      assert a + b == a;
    } else {
      var init, last := b[..|b| - 1], b[|b| - 1];
      assert (a + b)[..|a + b| - 1] == a + init;
      assert (a + b)[|a + b| - 1] == last;
      KeptPagesAppend(a, init);
      var tail := if Kept(last) then [PageText(last)] else [];
      assert KeptPages(b) == KeptPages(init) + tail;
      assert KeptPages(a + b) == (KeptPages(a) + KeptPages(init)) + tail;
    }
  }

  /** Every kept page is one of the document's pages. */
  lemma {:induction false} KeptPagesFromDocument(texts: seq<Option<string>>)
    ensures forall i :: 0 <= i < |KeptPages(texts)| ==> Some(KeptPages(texts)[i]) in texts
    decreases |texts|
  {
    if texts != [] {
      var init, last := texts[..|texts| - 1], texts[|texts| - 1];
      KeptPagesFromDocument(init);
      var kept := KeptPages(texts);
      assert kept == KeptPages(init) + if Kept(last) then [PageText(last)] else [];
      forall i | 0 <= i < |kept| ensures Some(kept[i]) in texts {
        if i < |KeptPages(init)| {
          assert Some(kept[i]) in init;
        } else {
          assert Some(kept[i]) == last;
        }
      }
    }
  }

  /** No page is kept exactly when every page is blank. */
  lemma {:induction false} NothingKept(texts: seq<Option<string>>)
    ensures KeptPages(texts) == [] <==> forall i :: 0 <= i < |texts| ==> !Kept(texts[i])
    decreases |texts|
  {
    if texts != [] {
      var init, last := texts[..|texts| - 1], texts[|texts| - 1];
      NothingKept(init);
      assert forall i :: 0 <= i < |init| ==> init[i] == texts[i];
    }
  }

  /** The text is empty exactly when every page is blank. */
  lemma EmptyWhenNothingKept(texts: seq<Option<string>>)
    ensures Join(KeptPages(texts), PAGE_SEPARATOR) == [] <==> forall i :: 0 <= i < |texts| ==> !Kept(texts[i])
  {
    var pages := KeptPages(texts);
    KeptPagesNotBlank(texts);
    forall i | 0 <= i < |pages| ensures pages[i] != [] {
      assert !AllSpace(pages[i]);
    }
    JoinEmpty(pages, PAGE_SEPARATOR);
    NothingKept(texts);
  }

  /** The module's registration. */
  method RegisterPdfProcessor(registry: Registry)
    modifies registry
    ensures registry.extensionMap == Registered(old(registry.extensionMap), ".pdf", PdfKind)
  {
    registry.Register(".pdf", PdfKind);
  }
}
