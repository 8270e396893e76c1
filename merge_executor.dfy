/**
  * Committing recorded spans to a sheet: for each span that covers more than
  * one row, one single-column merged region per merge column, in column
  * order, with borders copied from a style cell or THIN when that cell is
  * missing. Both listeners share this; they differ only in which row the
  * style cell is taken from (StyleSource).
  */
module MergeExecutor {
  import opened Wrappers
  import opened Geometry
  import opened Sequences
  import opened Sheets

  /** Where the borders of a merged region come from. */
  datatype StyleSource =
    | TemplateRow(row: int)  // the row of the template cell of the last parent event
    | SpanStart              // the first row of the span being merged

  function StyleRow(source: StyleSource, fromRow: int): int {
    match source
    case TemplateRow(row) => row
    case SpanStart => fromRow
  }

  /** The borders taken from the cell at (row, col): its own if it exists, THIN on all sides if not. */
  function BordersFrom(cells: map<(int, int), Borders>, row: int, col: int): (b: Borders)
    ensures (row, col) in cells ==> b == cells[(row, col)]
    ensures (row, col) !in cells ==> b == AllThin
  {
    if (row, col) in cells then cells[(row, col)] else AllThin
  }

  /** The merged regions added for one span: one per column, nothing when the span is a single row. */
  function RowRegions(fromRow: int, toRow: int, cols: seq<int>): (r: seq<Region>)
    ensures |r| == if fromRow < toRow then |cols| else 0
    ensures forall i :: 0 <= i < |r| ==> r[i] == Region(fromRow, toRow, cols[i], cols[i])
  {
    if fromRow >= toRow || cols == [] then []
    else
      var last := cols[|cols| - 1];
      RowRegions(fromRow, toRow, cols[..|cols| - 1]) + [Region(fromRow, toRow, last, last)]
  }

  /** The border paintings for one span, parallel to RowRegions. */
  function RowPaintings(cells: map<(int, int), Borders>, fromRow: int, toRow: int, cols: seq<int>, source: StyleSource): (r: seq<Painting>)
    ensures |r| == if fromRow < toRow then |cols| else 0
    ensures forall i :: 0 <= i < |r| ==>
      r[i] == Painting(Region(fromRow, toRow, cols[i], cols[i]), BordersFrom(cells, StyleRow(source, fromRow), cols[i]))
  {
    if fromRow >= toRow || cols == [] then []
    else
      var last := cols[|cols| - 1];
      RowPaintings(cells, fromRow, toRow, cols[..|cols| - 1], source)
        + [Painting(Region(fromRow, toRow, last, last), BordersFrom(cells, StyleRow(source, fromRow), last))]
  }

  /** The merged regions added for a list of spans, span by span. */
  function MergedFor(spans: seq<Span>, cols: seq<int>): seq<Region> {
    if spans == [] then []
    else
      var sp := spans[|spans| - 1];
      MergedFor(spans[..|spans| - 1], cols) + RowRegions(sp.fromRow, sp.toRow, cols)
  }

  /** The paintings added for a list of spans, parallel to MergedFor. */
  function PaintedFor(cells: map<(int, int), Borders>, spans: seq<Span>, cols: seq<int>, source: StyleSource): seq<Painting> {
    if spans == [] then []
    else
      var sp := spans[|spans| - 1];
      PaintedFor(cells, spans[..|spans| - 1], cols, source) + RowPaintings(cells, sp.fromRow, sp.toRow, cols, source)
  }

  /**
    * Merging the spans does not dereference a missing sheet or a missing row:
    * whenever a span has columns to merge, the sheet exists and so does the
    * row the style cell is read from.
    */
  predicate MergeReady(sheet: Sheet?, spans: seq<Span>, cols: seq<int>, source: StyleSource) {
    forall i :: 0 <= i < |spans| && Proper(spans[i]) && |cols| > 0 ==>
      sheet != null && StyleRow(source, spans[i].fromRow) in sheet.rows
  }

  /** Extending the columns by one extends the regions and paintings of a span by that column's. */
  lemma RowStep(cells: map<(int, int), Borders>, fromRow: int, toRow: int, cols: seq<int>, i: nat, source: StyleSource)
    requires fromRow < toRow && i < |cols|
    ensures RowRegions(fromRow, toRow, cols[..i + 1])
      == RowRegions(fromRow, toRow, cols[..i]) + [Region(fromRow, toRow, cols[i], cols[i])]
    ensures RowPaintings(cells, fromRow, toRow, cols[..i + 1], source)
      == RowPaintings(cells, fromRow, toRow, cols[..i], source)
        + [Painting(Region(fromRow, toRow, cols[i], cols[i]), BordersFrom(cells, StyleRow(source, fromRow), cols[i]))]
  {
    assert cols[..i + 1][..i] == cols[..i];
  }

  /** Merges one single-column region and paints its borders from the style cell in its column. */
  method MergeColumn(sheet: Sheet, region: Region, styleRow: int)
    requires styleRow in sheet.rows
    modifies sheet
    ensures sheet.merged == old(sheet.merged) + [region]
    ensures sheet.painted == old(sheet.painted) + [Painting(region, BordersFrom(sheet.cells, styleRow, region.firstCol))]
  {
    sheet.AddMergedRegion(region);
    var origin := sheet.GetCell(styleRow, region.firstCol);
    if origin.Some? {
      sheet.SetRegionBorders(region, origin.value);
    } else {
      sheet.SetRegionBorders(region, AllThin);
    }
  }

  /** Merges one span, column by column, and paints each merged region's borders. */
  method MergeRows(sheet: Sheet?, fromRow: int, toRow: int, cols: seq<int>, source: StyleSource)
    requires fromRow < toRow && |cols| > 0 ==> sheet != null && StyleRow(source, fromRow) in sheet.rows
    modifies sheet
    ensures sheet != null ==> sheet.merged == old(sheet.merged) + RowRegions(fromRow, toRow, cols)
    ensures sheet != null ==> sheet.painted == old(sheet.painted) + RowPaintings(sheet.cells, fromRow, toRow, cols, source)
  {
    if fromRow >= toRow || cols == [] {
      return;
    }
    for i := 0 to |cols|
      invariant sheet.merged == old(sheet.merged) + RowRegions(fromRow, toRow, cols[..i])
      invariant sheet.painted == old(sheet.painted) + RowPaintings(sheet.cells, fromRow, toRow, cols[..i], source)
    {
      var region := Region(fromRow, toRow, cols[i], cols[i]);
      MergeColumn(sheet, region, StyleRow(source, fromRow));
      RowStep(sheet.cells, fromRow, toRow, cols, i, source);
      AppendAssoc(old(sheet.merged), RowRegions(fromRow, toRow, cols[..i]), [region]);
      AppendAssoc(old(sheet.painted), RowPaintings(sheet.cells, fromRow, toRow, cols[..i], source),
        [Painting(region, BordersFrom(sheet.cells, StyleRow(source, fromRow), cols[i]))]);
    }
    assert cols[..|cols|] == cols;
  }

  /** Extending the spans by one extends what is committed by that span's regions and paintings. */
  lemma SpansStep(cells: map<(int, int), Borders>, spans: seq<Span>, cols: seq<int>, i: nat, source: StyleSource)
    requires i < |spans|
    ensures MergedFor(spans[..i + 1], cols)
      == MergedFor(spans[..i], cols) + RowRegions(spans[i].fromRow, spans[i].toRow, cols)
    ensures PaintedFor(cells, spans[..i + 1], cols, source)
      == PaintedFor(cells, spans[..i], cols, source) + RowPaintings(cells, spans[i].fromRow, spans[i].toRow, cols, source)
  {
    assert spans[..i + 1][..i] == spans[..i];
  }

  /** Merges every recorded span, in record order. */
  method DoMerge(sheet: Sheet?, spans: seq<Span>, cols: seq<int>, source: StyleSource)
    requires MergeReady(sheet, spans, cols, source)
    modifies sheet
    ensures sheet != null ==> sheet.merged == old(sheet.merged) + MergedFor(spans, cols)
    ensures sheet != null ==> sheet.painted == old(sheet.painted) + PaintedFor(sheet.cells, spans, cols, source)
  {
    if sheet == null {
      // MergeReady leaves nothing to merge without a sheet: every span is a single row or there are no columns
      return;
    }
    for i := 0 to |spans|
      invariant sheet.merged == old(sheet.merged) + MergedFor(spans[..i], cols)
      invariant sheet.painted == old(sheet.painted) + PaintedFor(sheet.cells, spans[..i], cols, source)
    {
      var sp := spans[i];
      MergeRows(sheet, sp.fromRow, sp.toRow, cols, source);
      SpansStep(sheet.cells, spans, cols, i, source);
      AppendAssoc(old(sheet.merged), MergedFor(spans[..i], cols), RowRegions(sp.fromRow, sp.toRow, cols));
      AppendAssoc(old(sheet.painted), PaintedFor(sheet.cells, spans[..i], cols, source), RowPaintings(sheet.cells, sp.fromRow, sp.toRow, cols, source));
    }
    assert spans[..|spans|] == spans;
  }

  /**
    * Every region committed for `spans` is a single column of `cols` spanning
    * the rows of a multi-row span, and every such pair is committed.
    */
  lemma {:induction false} MergedForExact(spans: seq<Span>, cols: seq<int>, reg: Region)
    ensures reg in MergedFor(spans, cols) <==>
      exists i, j :: 0 <= i < |spans| && 0 <= j < |cols| && Proper(spans[i])
        && reg == Region(spans[i].fromRow, spans[i].toRow, cols[j], cols[j])
    decreases |spans|
  {
    if spans != [] {
      var n := |spans| - 1;
      var init := spans[..n];
      var sp := spans[n];
      MergedForExact(init, cols, reg);
      var rows := RowRegions(sp.fromRow, sp.toRow, cols);
      if reg in rows {
        var j :| 0 <= j < |rows| && rows[j] == reg;
        assert spans[n] == sp && Proper(sp);
      }
      if exists i, j :: 0 <= i < |spans| && 0 <= j < |cols| && Proper(spans[i])
          && reg == Region(spans[i].fromRow, spans[i].toRow, cols[j], cols[j]) {
        var i, j :| 0 <= i < |spans| && 0 <= j < |cols| && Proper(spans[i])
          && reg == Region(spans[i].fromRow, spans[i].toRow, cols[j], cols[j]);
        if i == n {
          assert rows[j] == reg;
        } else {
          assert init[i] == spans[i];
        }
      }
    }
  }

  /** When every span covers several rows, each one contributes one region per column. */
  lemma {:induction false} MergedForCount(spans: seq<Span>, cols: seq<int>)
    requires AllProper(spans)
    ensures |MergedFor(spans, cols)| == |spans| * |cols|
    decreases |spans|
  {
    if spans != [] {
      var n := |spans| - 1;
      assert AllProper(spans[..n]) by {
        forall i | 0 <= i < n ensures Proper(spans[..n][i]) { assert spans[..n][i] == spans[i]; }
      }
      MergedForCount(spans[..n], cols);
      assert Proper(spans[n]);
      assert (|spans| - 1) * |cols| + |cols| == |spans| * |cols|;
    }
  }

  /**
    * With the merge columns of a parent and its children, no committed region
    * touches a column that a child area covers, nor a column outside the parent.
    */
  lemma MergedAvoidsChildColumns(parent: AreaRef, children: seq<AreaRef>, spans: seq<Span>, reg: Region)
    requires reg in MergedFor(spans, MergeColumns(parent, children))
    ensures reg.firstCol == reg.lastCol && reg.firstRow < reg.lastRow
    ensures parent.firstCol <= reg.firstCol <= parent.lastCol
    ensures !InSomeChild(children, reg.firstCol)
  {
    var cols := MergeColumns(parent, children);
    MergeColumnsExact(parent, children);
    MergedForExact(spans, cols, reg);
    var i, j :| 0 <= i < |spans| && 0 <= j < |cols| && Proper(spans[i])
      && reg == Region(spans[i].fromRow, spans[i].toRow, cols[j], cols[j]);
    assert cols[j] in cols;
  }
}
