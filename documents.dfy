/** Text extraction from documents: the page texts of a PDF and the paragraphs
    of a Word document, as the parsing libraries hand them over. */
module Documents {
  import opened Chars

  /** The page texts run together in page order. */
  function Concat(pages: seq<string>): string {
    if pages == [] then "" else Concat(pages[..|pages| - 1]) + pages[|pages| - 1]
  }

  /** Every paragraph followed by its own newline, the last one included. */
  function Lines(paragraphs: seq<string>): string {
    if paragraphs == [] then ""
    else Lines(paragraphs[..|paragraphs| - 1]) + paragraphs[|paragraphs| - 1] + "\n"
  }

  /** The total number of characters over all parts. */
  function TotalLength(parts: seq<string>): nat {
    if parts == [] then 0 else TotalLength(parts[..|parts| - 1]) + |parts[|parts| - 1]|
  }

  /** `p + "\n"` for every paragraph `p`. */
  function Terminated(paragraphs: seq<string>): (r: seq<string>)
    ensures |r| == |paragraphs|
  {
    seq(|paragraphs|, k requires 0 <= k < |paragraphs| => paragraphs[k] + "\n")
  }

  /** `extract_text_from_pdf`: appends the text of each page in turn. */
  method ExtractTextFromPdf(pages: seq<string>) returns (text: string)
    ensures text == Concat(pages)
  {
    text := "";
    for i := 0 to |pages|
      invariant text == Concat(pages[..i])
    {
      assert pages[..i + 1][..i] == pages[..i];
      text := text + pages[i];
    }
    assert pages[..|pages|] == pages;
  }

  /** `extract_text_from_docx`: appends each paragraph and a newline in turn. */
  method ExtractTextFromDocx(paragraphs: seq<string>) returns (text: string)
    ensures text == Lines(paragraphs)
  {
    text := "";
    for i := 0 to |paragraphs|
      invariant text == Lines(paragraphs[..i])
    {
      assert paragraphs[..i + 1][..i] == paragraphs[..i];
      text := text + paragraphs[i] + "\n";
    }
    assert paragraphs[..|paragraphs|] == paragraphs;
  }

  /** Extracting the pages of two documents one after the other gives the two
      texts one after the other. */
  lemma {:induction false} ConcatAppend(a: seq<string>, b: seq<string>)
    ensures Concat(a + b) == Concat(a) + Concat(b)
    decreases |b|
  {
    if b == [] {
      assert a + b == a;
    } else {
      var last := |b| - 1;
      assert (a + b)[..|a + b| - 1] == a + b[..last];
      ConcatAppend(a, b[..last]);
    }
  }

  /** The text of the PDF is as long as all its pages together. */
  lemma {:induction false} ConcatLength(pages: seq<string>)
    ensures |Concat(pages)| == TotalLength(pages)
  {
    if pages != [] {
      ConcatLength(pages[..|pages| - 1]);
    }
  }

  /** Each page's text appears, unchanged, right after the text of the pages
      before it: page order is kept. */
  lemma PageInPlace(pages: seq<string>, k: nat)
    requires k < |pages|
    ensures OccursAt(Concat(pages), pages[k], TotalLength(pages[..k]))
  {
    var before, after := pages[..k], pages[k + 1..];
    assert pages == before + [pages[k]] + after;
    ConcatAppend(before + [pages[k]], after);
    ConcatAppend(before, [pages[k]]);
    assert Concat([pages[k]]) == pages[k] by {
      assert [pages[k]][..0] == [];
    }
    ConcatLength(before);
    var text := Concat(before) + pages[k] + Concat(after);
    assert text[|Concat(before)|..|Concat(before)| + |pages[k]|] == pages[k];
  }

  /** The Word text is the PDF-style concatenation of the newline-terminated
      paragraphs: the newline terminates, it does not separate. */
  lemma {:induction false} LinesAreTerminatedParagraphs(paragraphs: seq<string>)
    ensures Lines(paragraphs) == Concat(Terminated(paragraphs))
  {
    if paragraphs != [] {
      var init := paragraphs[..|paragraphs| - 1];
      LinesAreTerminatedParagraphs(init);
      assert Terminated(paragraphs)[..|paragraphs| - 1] == Terminated(init);
    }
  }

  /** The Word text has one character more per paragraph than the paragraphs. */
  lemma {:induction false} LinesLength(paragraphs: seq<string>)
    ensures |Lines(paragraphs)| == TotalLength(paragraphs) + |paragraphs|
  {
    if paragraphs != [] {
      LinesLength(paragraphs[..|paragraphs| - 1]);
    }
  }

  /** A Word document with paragraphs yields text ending in a newline. */
  lemma LinesEndWithNewline(paragraphs: seq<string>)
    requires paragraphs != []
    ensures |Lines(paragraphs)| > 0 && Lines(paragraphs)[|Lines(paragraphs)| - 1] == '\n'
  {
  }
}
