/**
  * MergeAreaListener: a listener configured with one parent column, one child
  * column and the columns to merge. It records one span per parent item whose
  * last child row lies below the parent's row, and merges the given columns
  * over those spans once the last parent item has been written, copying the
  * borders of each span's first cell.
  */
module MergeArea {
  import opened Wrappers
  import opened Geometry
  import opened Sheets
  import opened MergeExecutor
  import opened SpanTracking

  class MergeAreaListener {
    /** The workbook the transformer writes into. */
    const workbook: Workbook
    const parentColumn: int
    const childColumn: int
    /** The columns to merge, as given by the caller. */
    const mergeColumns: seq<int>

    /** Stored but never read by the listener. */
    var parentStartRow: int
    /** The number of parent items; zero until set. */
    var parentCount: int

    var records: seq<Span>
    var childRow: int
    var parentProcessed: int
    var sheetName: Option<string>

    /** How this listener classifies events. */
    function Config(): TrackerConfig
      reads this
    {
      TrackerConfig(SingleChild(parentColumn, childColumn), parentCount)
    }

    /** The four tracking fields, as the state of the span tracker. */
    function State(): TrackerState
      reads this
    {
      TrackerState(childRow, parentProcessed, records, sheetName)
    }

    ghost predicate Valid()
      reads this
    {
      Consistent(State())
    }

    /** The sheet named by sheetName, or null when there is none. */
    function TargetSheet(): Sheet?
      reads this
    {
      if sheetName.None? then null else workbook.GetSheet(sheetName.value)
    }

    /** The sheet TargetSheet() names once an event on `targetCell` has been handled. */
    function NextSheet(targetCell: CellRef): Sheet?
      reads this
    {
      var name := if parentProcessed == 0 then Some(targetCell.sheet) else sheetName;
      if name.None? then null else workbook.GetSheet(name.value)
    }

    /** Keeps the columns as given; the counters start at zero and no sheet is known yet. */
    constructor(workbook: Workbook, parentColumn: int, childColumn: int, mergeColumns: seq<int>)
      ensures this.workbook == workbook
      ensures this.parentColumn == parentColumn && this.childColumn == childColumn
      ensures this.mergeColumns == mergeColumns
      ensures parentStartRow == 0 && parentCount == 0
      ensures State() == Init
      ensures Valid()
    {
      this.workbook := workbook;
      this.parentColumn := parentColumn;
      this.childColumn := childColumn;
      this.mergeColumns := mergeColumns;
      this.parentStartRow := 0;
      this.parentCount := 0;
      this.records := [];
      this.childRow := 0;
      this.parentProcessed := 0;
      this.sheetName := None;
    }

    method SetParentStartRow(parentStartRow: int)
      modifies this
      ensures this.parentStartRow == parentStartRow
      ensures parentCount == old(parentCount) && State() == old(State())
    {
      this.parentStartRow := parentStartRow;
    }

    method SetParentCount(parentCount: int)
      modifies this
      ensures this.parentCount == parentCount
      ensures parentStartRow == old(parentStartRow) && State() == old(State())
    {
      this.parentCount := parentCount;
    }

    /**
      * One cell written at `targetCell`. The tracker state takes one Step;
      * when the event finishes parent item number parentCount, the recorded
      * spans are merged on the target sheet, each with the borders of its
      * first row; otherwise the sheet does not change. No other sheet of the
      * workbook is touched.
      */
    method AfterTransformCell(srcCell: CellRef, targetCell: CellRef)
      requires Fires(Config(), State(), targetCell) ==>
        MergeReady(NextSheet(targetCell), Step(Config(), State(), targetCell).records, mergeColumns, SpanStart)
      modifies this, NextSheet(targetCell)
      ensures parentStartRow == old(parentStartRow) && parentCount == old(parentCount)
      ensures State() == Step(old(Config()), old(State()), targetCell)
      ensures old(Valid()) ==> Valid()
      ensures TargetSheet() == old(NextSheet(targetCell))
      ensures var sheet := TargetSheet();
        sheet != null ==>
          if Fires(old(Config()), old(State()), targetCell) then
            && sheet.merged == old(sheet.merged) + MergedFor(records, mergeColumns)
            && sheet.painted == old(sheet.painted) + PaintedFor(sheet.cells, records, mergeColumns, SpanStart)
          else
            unchanged(sheet)
    {
      ghost var before := State();
      if parentProcessed == 0 {
        sheetName := Some(targetCell.sheet);
      }
      if targetCell.col == childColumn {
        childRow := targetCell.row;
      } else if targetCell.col == parentColumn {
        parentProcessed := parentProcessed + 1;
        if targetCell.row < childRow {
          records := records + [Span(targetCell.row, childRow)];
        }
        if parentProcessed == parentCount {
          DoMerge(TargetSheet(), records, mergeColumns, SpanStart);
        }
      }
      if Consistent(before) {
        StepConsistent(Config(), before, targetCell);
      }
    }
  }
}
