/** The line list that extract_text_with_pypdf2 returns
    (pdf-to-excel_app.py lines 49-98). The PDF libraries are not modelled: each
    extractor is given by the texts of its pages, an extractor that raised
    being given no pages. */
module LineStream {
  import opened Text

  /** The stripped pieces that are not empty, in their order. */
  function KeepStripped(pieces: seq<string>): seq<string> {
    if pieces == [] then []
    else
      var last := Strip(pieces[|pieces| - 1]);
      KeepStripped(pieces[..|pieces| - 1]) + (if last == [] then [] else [last])
  }

  /** The lines one page contributes: its text split at "\n", each piece
      stripped, the empty ones dropped. */
  function PageLines(text: string): seq<string> {
    KeepStripped(Split(text))
  }

  /** The lines of each page, page by page. */
  function PageGroups(pages: seq<string>): seq<seq<string>> {
    seq(|pages|, i requires 0 <= i < |pages| => PageLines(pages[i]))
  }

  /** The groups one after the other. */
  function Flatten(groups: seq<seq<string>>): seq<string> {
    if groups == [] then [] else Flatten(groups[..|groups| - 1]) + groups[|groups| - 1]
  }

  /** The lines of all pages, page after page. */
  function BuildLines(pages: seq<string>): seq<string> {
    Flatten(PageGroups(pages))
  }

  /** A sequence of stripped, non-empty lines. */
  predicate CleanLines(lines: seq<string>) {
    forall k | 0 <= k < |lines| :: lines[k] != [] && Trimmed(lines[k])
  }

  lemma {:induction false} KeepStrippedClean(pieces: seq<string>)
    ensures CleanLines(KeepStripped(pieces))
  {
    if pieces != [] {
      KeepStrippedClean(pieces[..|pieces| - 1]);
    }
  }

  lemma {:induction false} FlattenClean(groups: seq<seq<string>>)
    requires forall g | 0 <= g < |groups| :: CleanLines(groups[g])
    ensures CleanLines(Flatten(groups))
  {
    if groups != [] {
      FlattenClean(groups[..|groups| - 1]);
    }
  }

  /** Every line built is stripped and non-empty. */
  lemma BuildLinesClean(pages: seq<string>)
    ensures CleanLines(BuildLines(pages))
  {
    var groups := PageGroups(pages);
    forall g | 0 <= g < |groups| ensures CleanLines(groups[g]) {
      KeepStrippedClean(Split(pages[g]));
    }
    FlattenClean(groups);
  }

  lemma {:induction false} KeepStrippedAppend(a: seq<string>, b: seq<string>)
    ensures KeepStripped(a + b) == KeepStripped(a) + KeepStripped(b)
    decreases |b|
  {
    if b == [] {
      assert a + b == a;
    } else {
      assert (a + b)[..|a + b| - 1] == a + b[..|b| - 1];
      KeepStrippedAppend(a, b[..|b| - 1]);
    }
  }

  /** Within a page, the lines above a line break come before the lines below it. */
  lemma PageLinesAtNewline(a: string, b: string)
    ensures PageLines(a + "\n" + b) == PageLines(a) + PageLines(b)
  {
    SplitAtNewline(a, b);
    KeepStrippedAppend(Split(a), Split(b));
  }

  lemma {:induction false} FlattenAppend(x: seq<seq<string>>, y: seq<seq<string>>)
    ensures Flatten(x + y) == Flatten(x) + Flatten(y)
    decreases |y|
  {
    if y == [] {
      assert x + y == x;
    } else {
      assert (x + y)[..|x + y| - 1] == x + y[..|y| - 1];
      FlattenAppend(x, y[..|y| - 1]);
    }
  }

  /** The lines of the first pages come before the lines of the later pages. */
  lemma BuildLinesAppend(first: seq<string>, later: seq<string>)
    ensures BuildLines(first + later) == BuildLines(first) + BuildLines(later)
  {
    assert PageGroups(first + later) == PageGroups(first) + PageGroups(later);
    FlattenAppend(PageGroups(first), PageGroups(later));
  }

  /** One more page adds its own lines at the end. */
  lemma BuildLinesStep(pages: seq<string>, i: nat)
    requires i < |pages|
    ensures BuildLines(pages[..i + 1]) == BuildLines(pages[..i]) + PageLines(pages[i])
  {
    var groups := PageGroups(pages[..i + 1]);
    assert groups[..i] == PageGroups(pages[..i]);
  }

  /** One more piece adds its stripped text unless that is empty. */
  lemma KeepStrippedStep(pieces: seq<string>, k: nat)
    requires k < |pieces|
    ensures KeepStripped(pieces[..k + 1]) ==
      KeepStripped(pieces[..k]) + (if Strip(pieces[k]) == [] then [] else [Strip(pieces[k])])
  {
    assert pieces[..k + 1][..k] == pieces[..k];
  }

  /** The two nested for loops that append every stripped non-empty piece of
      every page to `lines`. */
  method CollectLines(pages: seq<string>) returns (lines: seq<string>)
    ensures lines == BuildLines(pages)
  {
    lines := [];
    for i := 0 to |pages|
      invariant lines == BuildLines(pages[..i])
    {
      var pieces := Split(pages[i]);
      ghost var before := lines;
      for k := 0 to |pieces|
        invariant lines == before + KeepStripped(pieces[..k])
      {
        var stripped := Strip(pieces[k]);
        KeepStrippedStep(pieces, k);
        if stripped != [] {
          lines := lines + [stripped];
        }
      }
      assert pieces[..|pieces|] == pieces;
      BuildLinesStep(pages, i);
    }
    assert pages[..|pages|] == pages;
  }

  /** has_ean_or_header: some line is a bare 13-digit barcode or starts with
      "lp" in any case. */
  predicate HasEanOrHeader(lines: seq<string>) {
    exists i | 0 <= i < |lines| :: IsBarcodeLine(lines[i]) || StartsWithLp(lines[i])
  }

  /** The fallback choice between the PyPDF2 lines and the pdfplumber lines. */
  function Extracted(pypdfPages: seq<string>, hasPlumber: bool, plumberPages: seq<string>): (r: seq<string>)
    ensures CleanLines(r)
    ensures HasEanOrHeader(BuildLines(pypdfPages)) ==> r == BuildLines(pypdfPages)
    ensures !HasEanOrHeader(BuildLines(pypdfPages)) ==>
      r == if hasPlumber && BuildLines(plumberPages) != [] then BuildLines(plumberPages) else BuildLines(pypdfPages)
    ensures r == [] <==> BuildLines(pypdfPages) == [] && (!hasPlumber || BuildLines(plumberPages) == [])
  {
    BuildLinesClean(pypdfPages);
    BuildLinesClean(plumberPages);
    var lines := BuildLines(pypdfPages);
    if HasEanOrHeader(lines) && lines != [] then lines
    else if hasPlumber && BuildLines(plumberPages) != [] then BuildLines(plumberPages)
    else lines
  }

  /** extract_text_with_pypdf2 with the libraries replaced by their page texts;
      pdfplumber's pages are read only when PyPDF2's lines fail the test and
      pdfplumber is installed. */
  method ExtractText(pypdfPages: seq<string>, hasPlumber: bool, plumberPages: seq<string>) returns (lines: seq<string>)
    ensures lines == Extracted(pypdfPages, hasPlumber, plumberPages)
  {
    lines := CollectLines(pypdfPages);
    if HasEanOrHeader(lines) && lines != [] {
      return;
    }
    if hasPlumber {
      var plLines := CollectLines(plumberPages);
      if plLines != [] {
        return plLines;
      }
    }
  }
}
