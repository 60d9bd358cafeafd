/** The script's main flow (pdf-to-excel_app.py lines 238-281): read the lines,
    stop when there are none, pick a layout, parse, and warn when the table
    is empty. */
module App {
  import opened Outcomes
  import opened Text
  import opened Quantity
  import opened Records
  import opened SingleLine
  import LineStream
  import LayoutA
  import LayoutB
  import LayoutC

  /** The three document layouts the parsers handle. */
  datatype Layout = A | B | C

  /** Layout B when the greedy one-line pattern matches some line, otherwise C
      when some line is a bare thirteen-digit barcode, otherwise A. */
  function Detect(lines: seq<string>): Layout {
    if exists i | 0 <= i < |lines| :: DetectLine(lines[i]) then B
    else if exists i | 0 <= i < |lines| :: IsBarcodeLine(lines[i]) then C
    else A
  }

  /** The classifier in terms of the parsers' own pattern: B exactly when the
      record pattern of layout B matches some line; C exactly when none does
      and some line is a bare barcode; A when neither holds. */
  lemma DetectSpec(lines: seq<string>)
    ensures Detect(lines) == B <==> exists i | 0 <= i < |lines| :: Matches(lines[i])
    ensures Detect(lines) == C <==>
      (forall i | 0 <= i < |lines| :: !Matches(lines[i])) && exists i | 0 <= i < |lines| :: IsBarcodeLine(lines[i])
    ensures Detect(lines) == A <==>
      forall i | 0 <= i < |lines| :: !Matches(lines[i]) && !IsBarcodeLine(lines[i])
  {
    forall i | 0 <= i < |lines| ensures DetectLine(lines[i]) <==> Matches(lines[i]) {
      DetectLineIff(lines[i]);
    }
  }

  /** When the classifier picks layout B, parser B finds a record: it returns
      at least one row or raises. */
  lemma DetectBFindsRecords(lines: seq<string>)
    requires Detect(lines) == B
    ensures LayoutB.Products(lines).Failure? || |LayoutB.Products(lines).value| >= 1
  {
    DetectSpec(lines);
    var i :| 0 <= i < |lines| && Matches(lines[i]);
    LayoutB.YieldedMatching(lines);
    LayoutB.ProductsPerLine(lines);
    assert i in Yielded(LayoutB.LineOutcomes(lines), 0);
  }

  /** When the classifier passes over layout B, parser B would find nothing:
      B takes precedence only over documents it can read. */
  lemma OtherLayoutsNotB(lines: seq<string>)
    requires Detect(lines) != B
    ensures LayoutB.Products(lines) == Success([])
  {
    DetectSpec(lines);
    LayoutB.OutcomesMatch(lines);
    ScanNothing(LayoutB.LineOutcomes(lines), 0);
  }

  /** The rows of the parser the layout selects, or its ValueError. */
  function Dispatch(layout: Layout, lines: seq<string>): Parsed {
    match layout
    case A => LayoutA.Products(lines)
    case B => LayoutB.Products(lines)
    case C => LayoutC.Products(lines)
  }

  /** What the user is shown. */
  datatype Report =
    | NoText                         // no line could be read: the error and st.stop()
    | Crashed(error: ConversionError) // int() or float() raised inside a parser
    | NoItems(layout: Layout)        // the table is empty: the warning and st.stop()
    | Table(layout: Layout, rows: seq<Record>)

  /** The report for the lines read from the document. */
  function ReportFor(lines: seq<string>): Report {
    if lines == [] then NoText
    else
      var layout := Detect(lines);
      match Dispatch(layout, lines)
      case Failure(e) => Crashed(e)
      case Success(rows) => if rows == [] then NoItems(layout) else Table(layout, rows)
  }

  /** A document classified as layout B never ends in the "no items" warning:
      it shows a table or the parser raises. */
  lemma LayoutBNeverEmpty(lines: seq<string>)
    ensures ReportFor(lines).NoItems? ==> ReportFor(lines).layout != B
    ensures lines != [] && Detect(lines) == B ==> ReportFor(lines).Table? || ReportFor(lines).Crashed?
  {
    if lines != [] && Detect(lines) == B {
      DetectBFindsRecords(lines);
    }
  }

  /** Steps 3 to 7 of the script: extraction, the empty-text check, the layout
      choice, the parser call and the empty-table check. */
  method Run(pypdfPages: seq<string>, hasPlumber: bool, plumberPages: seq<string>) returns (report: Report)
    ensures report == ReportFor(LineStream.Extracted(pypdfPages, hasPlumber, plumberPages))
  {
    var lines := LineStream.ExtractText(pypdfPages, hasPlumber, plumberPages);
    if lines == [] {
      return NoText;
    }
    var layout := Detect(lines);
    var df: Parsed;
    if layout == A {
      df := LayoutA.Parse(lines);
    } else if layout == B {
      df := LayoutB.Parse(lines);
    } else {
      df := LayoutC.Parse(lines);
    }
    if df.Failure? {
      return Crashed(df.error);
    }
    if df.value == [] {
      return NoItems(layout);
    }
    return Table(layout, df.value);
  }
}
