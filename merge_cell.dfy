/**
  * EachMergeCommand.MergeCellListener: the listener an each-merge command
  * attaches to its parent area and to every child area. It watches the
  * parent area's first column and the child areas' first columns, records
  * one span per parent item whose children reach below the parent's row, and
  * merges the parent's own columns over those spans once the last parent item
  * has been written. Borders are copied from the template row of the cell
  * whose write triggers the merge.
  */
module MergeCell {
  import opened Wrappers
  import opened Geometry
  import opened Sheets
  import opened MergeExecutor
  import opened SpanTracking

  class MergeCellListener {
    /** The workbook the transformer writes into. */
    const workbook: Workbook
    /** The first column of the parent area. */
    const parentStartColumn: int
    /** The distinct first columns of the child areas, ascending. */
    const childStartColumns: seq<int>
    /** The parent-area columns no child area covers, ascending. */
    const mergeColumns: seq<int>
    /** The number of parent items, read from the items collection. */
    const parentCount: int

    var records: seq<Span>
    var childRow: int
    var parentProcessed: int
    var sheetName: Option<string>

    /** How this listener classifies events. */
    function Config(): TrackerConfig {
      TrackerConfig(EachMerge(parentStartColumn, childStartColumns), parentCount)
    }

    /** The four mutable fields, as the state of the span tracker. */
    function State(): TrackerState
      reads this
    {
      TrackerState(childRow, parentProcessed, records, sheetName)
    }

    ghost predicate Valid()
      reads this
    {
      Consistent(State())
    }

    /** The sheet named by sheetName, or null when there is none (the workbook's lookup of a null name). */
    function TargetSheet(): Sheet?
      reads this
    {
      if sheetName.None? then null else workbook.GetSheet(sheetName.value)
    }

    /** The sheet TargetSheet() names once an event on `targetCell` has been handled. */
    function NextSheet(targetCell: CellRef): Sheet?
      reads this
    {
      var name := if parentProcessed == 0 then Some(targetCell.sheet) else sheetName;
      if name.None? then null else workbook.GetSheet(name.value)
    }

    /**
      * Takes the parent column and the child start columns from the areas and
      * keeps as merge columns the parent columns no child area covers.
      */
    constructor(workbook: Workbook, parent: AreaRef, children: seq<AreaRef>, parentCount: int)
      ensures this.workbook == workbook && this.parentCount == parentCount
      ensures parentStartColumn == parent.firstCol
      ensures childStartColumns == ChildStartColumns(children)
      ensures mergeColumns == MergeColumns(parent, children)
      ensures State() == Init
      ensures Valid()
    {
      this.workbook := workbook;
      this.parentCount := parentCount;
      this.parentStartColumn := parent.firstCol;
      this.childStartColumns := ChildStartColumns(children);
      this.mergeColumns := MergeColumns(parent, children);
      this.records := [];
      this.childRow := 0;
      this.parentProcessed := 0;
      this.sheetName := None;
    }

    /**
      * One cell written at `targetCell` from the template cell `srcCell`. The
      * tracker state takes one Step; when the event finishes parent item
      * number parentCount, the recorded spans are merged on the target sheet;
      * otherwise the sheet does not change. No other sheet of the workbook is
      * touched.
      */
    method AfterTransformCell(srcCell: CellRef, targetCell: CellRef)
      requires Fires(Config(), State(), targetCell) ==>
        MergeReady(NextSheet(targetCell), Step(Config(), State(), targetCell).records, mergeColumns, TemplateRow(srcCell.row))
      modifies this, NextSheet(targetCell)
      ensures State() == Step(Config(), old(State()), targetCell)
      ensures old(Valid()) ==> Valid()
      ensures TargetSheet() == old(NextSheet(targetCell))
      ensures var sheet := TargetSheet();
        sheet != null ==>
          if Fires(Config(), old(State()), targetCell) then
            && sheet.merged == old(sheet.merged) + MergedFor(records, mergeColumns)
            && sheet.painted == old(sheet.painted) + PaintedFor(sheet.cells, records, mergeColumns, TemplateRow(srcCell.row))
          else
            unchanged(sheet)
    {
      ghost var before := State();
      if parentProcessed == 0 {
        sheetName := Some(targetCell.sheet);
      }
      if targetCell.col == parentStartColumn {
        parentProcessed := parentProcessed + 1;
        if targetCell.row < childRow {
          records := records + [Span(targetCell.row, childRow)];
        }
        if parentProcessed == parentCount {
          DoMerge(TargetSheet(), records, mergeColumns, TemplateRow(srcCell.row));
        }
        childRow := 0;
      } else if targetCell.col in childStartColumns {
        childRow := Max(childRow, targetCell.row);
      }
      if Consistent(before) {
        StepConsistent(Config(), before, targetCell);
      }
    }
  }
}
