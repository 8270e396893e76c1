/**
  * Event streams for a parent list with one nested child list, in the order
  * the listeners rely on: all cells of an item's child rows come before the
  * cells of that item's parent row. Items are laid out one after another;
  * an item with k children occupies max(k, 1) rows, and each template area
  * is one row high. Layout holds only the cells on the watched parent and
  * child columns; FullLayout also reports every other column each row
  * writes, and FullLayoutWatched shows the listener sees Layout in it.
  * On such streams both listeners record exactly one span per item with
  * more than one child, and commit them once, after the last item.
  */
module RenderOrder {
  import opened Geometry
  import opened Sequences
  import opened SpanTracking

  /** The events of `k` child rows starting at `row`, on the child column. */
  function ChildEvents(sheet: string, childCol: nat, row: nat, k: nat): seq<CellRef>
    decreases k
  {
    if k == 0 then [] else [CellRef(sheet, row, childCol)] + ChildEvents(sheet, childCol, row + 1, k - 1)
  }

  /** One parent item at `row` with `k` children: the child rows, then the parent cell. */
  function ItemEvents(sheet: string, parentCol: nat, childCol: nat, row: nat, k: nat): seq<CellRef> {
    ChildEvents(sheet, childCol, row, k) + [CellRef(sheet, row, parentCol)]
  }

  /** The number of rows an item with `k` children occupies. */
  function Height(k: nat): nat {
    if k == 0 then 1 else k
  }

  /** The items of a parent list, the first at `row`, the i-th with counts[i] children. */
  function Layout(sheet: string, parentCol: nat, childCol: nat, row: nat, counts: seq<nat>): seq<CellRef>
    decreases |counts|
  {
    if counts == [] then []
    else ItemEvents(sheet, parentCol, childCol, row, counts[0]) + Layout(sheet, parentCol, childCol, row + Height(counts[0]), counts[1..])
  }

  /** The span each item should get: from its own row to its last child row, when it has more than one child. */
  function ExpectedSpans(row: nat, counts: seq<nat>): (r: seq<Span>)
    ensures AllProper(r)
    decreases |counts|
  {
    if counts == [] then []
    else
      var rest := ExpectedSpans(row + Height(counts[0]), counts[1..]);
      var first := if counts[0] > 1 then [Span(row, row + counts[0] - 1)] else [];
      assert AllProper(first + rest) by {
        forall i | 0 <= i < |first + rest| ensures Proper((first + rest)[i]) {
          if i >= |first| { assert (first + rest)[i] == rest[i - |first|]; }
        }
      }
      first + rest
  }

  /** The listener watches `parentCol` as its parent column and `childCol` as a distinct child column. */
  predicate Watches(w: Watch, parentCol: nat, childCol: nat) {
    match w
    case EachMerge(parentStart, childStarts) => parentCol == parentStart && childCol != parentStart && childCol in childStarts
    case SingleChild(parent, child) => parentCol == parent && childCol == child && parentCol != childCol
  }

  /**
    * A MergeCellListener built from a parent area and its child areas watches
    * the parent's first column together with the first column of any child
    * area that does not start in the parent's first column.
    */
  lemma EachMergeWatchesChild(parent: AreaRef, children: seq<AreaRef>, k: int)
    requires 0 <= k < |children|
    requires 0 <= parent.firstCol && 0 <= children[k].firstCol != parent.firstCol
    ensures Watches(EachMerge(parent.firstCol, ChildStartColumns(children)), parent.firstCol, children[k].firstCol)
  {
    ChildStartColumnsExact(children);
  }

  /** The child rows of one item move childRow to the item's last child row and change nothing else that counts. */
  lemma {:induction false} ChildEventsRun(cfg: TrackerConfig, st: TrackerState, sheet: string, parentCol: nat, childCol: nat, row: nat, k: nat)
    requires Watches(cfg.watch, parentCol, childCol)
    requires st.childRow <= row
    ensures var after := Run(cfg, st, ChildEvents(sheet, childCol, row, k));
      && after.parentProcessed == st.parentProcessed
      && after.records == st.records
      && after.childRow == (if k == 0 then st.childRow else row + k - 1)
    ensures Merges(cfg, st, ChildEvents(sheet, childCol, row, k)) == []
    decreases k
  {
    if k > 0 {
      var evs := ChildEvents(sheet, childCol, row, k);
      var next := Step(cfg, st, CellRef(sheet, row, childCol));
      assert evs[0] == CellRef(sheet, row, childCol) && evs[1..] == ChildEvents(sheet, childCol, row + 1, k - 1);
      assert next.childRow == row;
      ChildEventsRun(cfg, next, sheet, parentCol, childCol, row + 1, k - 1);
    }
  }

  /** One item: the parent count goes up by one and its span is recorded exactly when it has more than one child. */
  lemma ItemRun(cfg: TrackerConfig, st: TrackerState, sheet: string, parentCol: nat, childCol: nat, row: nat, k: nat)
    requires Watches(cfg.watch, parentCol, childCol)
    requires st.childRow <= row
    ensures var after := Run(cfg, st, ItemEvents(sheet, parentCol, childCol, row, k));
      && after.parentProcessed == st.parentProcessed + 1
      && after.records == st.records + (if k > 1 then [Span(row, row + k - 1)] else [])
      && after.childRow < row + Height(k)
  {
    var children := ChildEvents(sheet, childCol, row, k);
    var parent := CellRef(sheet, row, parentCol);
    ChildEventsRun(cfg, st, sheet, parentCol, childCol, row, k);
    RunAppend(cfg, st, children, [parent]);
    var mid := Run(cfg, st, children);
    assert Run(cfg, mid, [parent]) == Step(cfg, mid, parent);
    assert IsParentEvent(cfg.watch, parent);
  }

  /** One item: the merge runs on its parent cell exactly when it is item number parentCount. */
  lemma ItemMerges(cfg: TrackerConfig, st: TrackerState, sheet: string, parentCol: nat, childCol: nat, row: nat, k: nat)
    requires Watches(cfg.watch, parentCol, childCol)
    requires st.childRow <= row
    ensures Merges(cfg, st, ItemEvents(sheet, parentCol, childCol, row, k)) ==
      if st.parentProcessed + 1 == cfg.parentCount
      then [Run(cfg, st, ItemEvents(sheet, parentCol, childCol, row, k)).records]
      else []
  {
    var children := ChildEvents(sheet, childCol, row, k);
    var parent := CellRef(sheet, row, parentCol);
    ChildEventsRun(cfg, st, sheet, parentCol, childCol, row, k);
    RunAppend(cfg, st, children, [parent]);
    MergesAppend(cfg, st, children, [parent]);
    var mid := Run(cfg, st, children);
    assert Run(cfg, mid, [parent]) == Step(cfg, mid, parent);
    assert Merges(cfg, mid, [parent]) == (if Fires(cfg, mid, parent) then [Step(cfg, mid, parent).records] else []);
    assert IsParentEvent(cfg.watch, parent);
  }

  /** A whole children-first stream: parentProcessed counts the items and the records are exactly the expected spans. */
  lemma {:induction false} LayoutRecords(cfg: TrackerConfig, st: TrackerState, sheet: string, parentCol: nat, childCol: nat, row: nat, counts: seq<nat>)
    requires Watches(cfg.watch, parentCol, childCol)
    requires st.childRow <= row
    ensures var after := Run(cfg, st, Layout(sheet, parentCol, childCol, row, counts));
      && after.parentProcessed == st.parentProcessed + |counts|
      && after.records == st.records + ExpectedSpans(row, counts)
    decreases |counts|
  {
    if counts == [] {
      var evs := Layout(sheet, parentCol, childCol, row, counts);
      assert evs == [];
      assert Run(cfg, st, evs) == st;
      assert st.records + [] == st.records;
    } else {
      var k := counts[0];
      var next := row + Height(k);
      var first := if k > 1 then [Span(row, row + k - 1)] else [];
      var later := ExpectedSpans(next, counts[1..]);
      var item := ItemEvents(sheet, parentCol, childCol, row, k);
      var mid := Run(cfg, st, item);
      assert mid.parentProcessed == st.parentProcessed + 1 && mid.records == st.records + first && mid.childRow <= next by {
        ItemRun(cfg, st, sheet, parentCol, childCol, row, k);
      }
      var rest := Layout(sheet, parentCol, childCol, next, counts[1..]);
      var after := Run(cfg, mid, rest);
      assert after.parentProcessed == mid.parentProcessed + |counts[1..]| && after.records == mid.records + later by {
        LayoutRecords(cfg, mid, sheet, parentCol, childCol, next, counts[1..]);
      }
      assert Run(cfg, st, Layout(sheet, parentCol, childCol, row, counts)) == after by {
        assert Layout(sheet, parentCol, childCol, row, counts) == item + rest;
        RunAppend(cfg, st, item, rest);
      }
      assert after.records == st.records + ExpectedSpans(row, counts) by {
        assert ExpectedSpans(row, counts) == first + later;
        AppendAssoc(st.records, first, later);
      }
    }
  }

  /** The expected spans of the first m items, split into the first item's and the rest's. */
  lemma ExpectedPrefix(row: nat, counts: seq<nat>, m: nat)
    requires 1 <= m <= |counts|
    ensures ExpectedSpans(row, counts[..m]) ==
      (if counts[0] > 1 then [Span(row, row + counts[0] - 1)] else [])
        + ExpectedSpans(row + Height(counts[0]), counts[1..][..m - 1])
  {
    assert counts[..m][0] == counts[0] && counts[..m][1..] == counts[1..][..m - 1];
  }

  /** How the merges of the first item and of the remaining items add up to those of the whole stream. */
  lemma MergesCombine(row: nat, counts: seq<nat>, processed: int, parentCount: int, records: seq<Span>,
                      itemMerges: seq<seq<Span>>, restMerges: seq<seq<Span>>)
    requires counts != []
    requires itemMerges ==
      if processed + 1 == parentCount
      then [records + (if counts[0] > 1 then [Span(row, row + counts[0] - 1)] else [])]
      else []
    requires restMerges ==
      if processed + 1 < parentCount <= processed + 1 + |counts[1..]|
      then [(records + (if counts[0] > 1 then [Span(row, row + counts[0] - 1)] else []))
              + ExpectedSpans(row + Height(counts[0]), counts[1..][..parentCount - (processed + 1)])]
      else []
    ensures itemMerges + restMerges ==
      if processed < parentCount <= processed + |counts|
      then [records + ExpectedSpans(row, counts[..parentCount - processed])]
      else []
  {
    var first := if counts[0] > 1 then [Span(row, row + counts[0] - 1)] else [];
    if processed + 1 == parentCount {
      ExpectedPrefix(row, counts, 1);
      assert counts[1..][..0] == [];
      assert ExpectedSpans(row + Height(counts[0]), []) == [];
      assert first + [] == first;
    } else if processed + 1 < parentCount <= processed + |counts| {
      var m := parentCount - processed;
      ExpectedPrefix(row, counts, m);
      var later := ExpectedSpans(row + Height(counts[0]), counts[1..][..m - 1]);
      AppendAssoc(records, first, later);
    }
  }

  /**
    * On a whole children-first stream the merge runs once, after item number
    * parentCount, over the spans of the items up to that one, and never when
    * the stream has fewer items.
    */
  lemma {:induction false} LayoutMerges(cfg: TrackerConfig, st: TrackerState, sheet: string, parentCol: nat, childCol: nat, row: nat, counts: seq<nat>)
    requires Watches(cfg.watch, parentCol, childCol)
    requires st.childRow <= row
    ensures Merges(cfg, st, Layout(sheet, parentCol, childCol, row, counts)) ==
      if st.parentProcessed < cfg.parentCount <= st.parentProcessed + |counts|
      then [st.records + ExpectedSpans(row, counts[..cfg.parentCount - st.parentProcessed])]
      else []
    decreases |counts|
  {
    if counts != [] {
      var k := counts[0];
      var next := row + Height(k);
      var first := if k > 1 then [Span(row, row + k - 1)] else [];
      var item := ItemEvents(sheet, parentCol, childCol, row, k);
      var mid := Run(cfg, st, item);
      assert mid.parentProcessed == st.parentProcessed + 1 && mid.records == st.records + first && mid.childRow <= next by {
        ItemRun(cfg, st, sheet, parentCol, childCol, row, k);
      }
      var itemMerges := Merges(cfg, st, item);
      assert itemMerges == if st.parentProcessed + 1 == cfg.parentCount then [mid.records] else [] by {
        ItemMerges(cfg, st, sheet, parentCol, childCol, row, k);
      }
      var rest := Layout(sheet, parentCol, childCol, next, counts[1..]);
      var restMerges := Merges(cfg, mid, rest);
      assert restMerges ==
        if mid.parentProcessed < cfg.parentCount <= mid.parentProcessed + |counts[1..]|
        then [mid.records + ExpectedSpans(next, counts[1..][..cfg.parentCount - mid.parentProcessed])]
        else [] by {
        LayoutMerges(cfg, mid, sheet, parentCol, childCol, next, counts[1..]);
      }
      assert Merges(cfg, st, Layout(sheet, parentCol, childCol, row, counts)) == itemMerges + restMerges by {
        assert Layout(sheet, parentCol, childCol, row, counts) == item + rest;
        MergesAppend(cfg, st, item, rest);
      }
      MergesCombine(row, counts, st.parentProcessed, cfg.parentCount, st.records, itemMerges, restMerges);
    } else {
      var evs := Layout(sheet, parentCol, childCol, row, counts);
      assert evs == [];
      assert Merges(cfg, st, evs) == [];
    }
  }

  /**
    * A stream of exactly parentCount items, from a fresh listener: the merge
    * runs exactly once, over one span per item with more than one child.
    */
  lemma CommitsExpectedSpansOnce(cfg: TrackerConfig, sheet: string, parentCol: nat, childCol: nat, row: nat, counts: seq<nat>)
    requires Watches(cfg.watch, parentCol, childCol)
    requires |counts| == cfg.parentCount
    ensures Merges(cfg, Init, Layout(sheet, parentCol, childCol, row, counts)) ==
      if counts == [] then [] else [ExpectedSpans(row, counts)]
  {
    LayoutMerges(cfg, Init, sheet, parentCol, childCol, row, counts);
    assert counts[..|counts|] == counts;
    assert Init.records + ExpectedSpans(row, counts) == ExpectedSpans(row, counts);
  }

  /**
    * Three parents from row 2 with 3, 1 and 2 children, parent column 0 and
    * child column 2: the records are (2, 4) and (6, 7), committed once.
    */
  lemma ThreeParentsExample(w: Watch)
    requires Watches(w, 0, 2)
    ensures Merges(TrackerConfig(w, 3), Init, Layout("Sheet2", 0, 2, 2, [3, 1, 2])) == [[Span(2, 4), Span(6, 7)]]
  {
    CommitsExpectedSpansOnce(TrackerConfig(w, 3), "Sheet2", 0, 2, 2, [3, 1, 2]);
    assert ExpectedSpans(2, [3, 1, 2]) == [Span(2, 4), Span(6, 7)] by {
      assert [3, 1, 2][1..] == [1, 2] && [1, 2][1..] == [2] && [2][1..] == [];
    }
  }

  /** Column `c` is neither a parent nor a child column of the listener. */
  predicate Ignored(w: Watch, c: int) {
    match w
    case EachMerge(parentStart, childStarts) => c != parentStart && c !in childStarts
    case SingleChild(parent, child) => c != parent && c != child
  }

  /** Of the columns a row writes, the one at index `i` may be watched and every other one is ignored. */
  predicate OnlyWatchedAt(w: Watch, cols: seq<nat>, i: int) {
    0 <= i < |cols| && forall j :: 0 <= j < |cols| && j != i ==> Ignored(w, cols[j])
  }

  /** The cells one row of an area writes, column after column. */
  function RowCells(sheet: string, row: nat, cols: seq<nat>): (r: seq<CellRef>)
    ensures |r| == |cols|
    ensures forall j :: 0 <= j < |cols| ==> r[j] == CellRef(sheet, row, cols[j])
  {
    seq(|cols|, j requires 0 <= j < |cols| => CellRef(sheet, row, cols[j]))
  }

  /** The rows of `k` children from `row`, each writing every column of the child area. */
  function ChildRowCells(sheet: string, childCols: seq<nat>, row: nat, k: nat): seq<CellRef>
    decreases k
  {
    if k == 0 then [] else RowCells(sheet, row, childCols) + ChildRowCells(sheet, childCols, row + 1, k - 1)
  }

  /** One parent item as written: its child rows, then every column of the parent row. */
  function FullItemEvents(sheet: string, parentCols: seq<nat>, childCols: seq<nat>, row: nat, k: nat): seq<CellRef> {
    ChildRowCells(sheet, childCols, row, k) + RowCells(sheet, row, parentCols)
  }

  /** The items of a parent list as written, every cell of every row reported. */
  function FullLayout(sheet: string, parentCols: seq<nat>, childCols: seq<nat>, row: nat, counts: seq<nat>): seq<CellRef>
    decreases |counts|
  {
    if counts == [] then []
    else
      var k := counts[0];
      FullItemEvents(sheet, parentCols, childCols, row, k) + FullLayout(sheet, parentCols, childCols, row + Height(k), counts[1..])
  }

  /** Cells on ignored columns are no events for the listener. */
  lemma {:induction false} IgnoredCells(w: Watch, cells: seq<CellRef>)
    requires forall j :: 0 <= j < |cells| ==> Ignored(w, cells[j].col)
    ensures WatchedEvents(w, cells) == []
    decreases |cells|
  {
    if cells != [] {
      IgnoredCells(w, cells[1..]);
    }
  }

  /** A row whose only watched column is at index `i` is, to the listener, that one cell. */
  lemma RowCellsWatched(w: Watch, sheet: string, row: nat, cols: seq<nat>, i: int)
    requires OnlyWatchedAt(w, cols, i)
    requires IsParentEvent(w, CellRef(sheet, row, cols[i])) || IsChildEvent(w, CellRef(sheet, row, cols[i]))
    ensures WatchedEvents(w, RowCells(sheet, row, cols)) == [CellRef(sheet, row, cols[i])]
  {
    var cells := RowCells(sheet, row, cols);
    var before, cell, after := cells[..i], cells[i], cells[i + 1..];
    assert cells == (before + [cell]) + after;
    assert forall j :: 0 <= j < |before| ==> before[j] == cells[j];
    assert forall j :: 0 <= j < |after| ==> after[j] == cells[i + 1 + j];
    IgnoredCells(w, before);
    IgnoredCells(w, after);
    WatchedEventsAppend(w, before + [cell], after);
    WatchedEventsAppend(w, before, [cell]);
    assert [cell][1..] == [];
  }

  lemma {:induction false} ChildRowCellsWatched(w: Watch, sheet: string, parentCol: nat, childCol: nat,
                                                childCols: seq<nat>, ci: int, row: nat, k: nat)
    requires Watches(w, parentCol, childCol)
    requires OnlyWatchedAt(w, childCols, ci) && childCols[ci] == childCol
    ensures WatchedEvents(w, ChildRowCells(sheet, childCols, row, k)) == ChildEvents(sheet, childCol, row, k)
    decreases k
  {
    if k > 0 {
      RowCellsWatched(w, sheet, row, childCols, ci);
      ChildRowCellsWatched(w, sheet, parentCol, childCol, childCols, ci, row + 1, k - 1);
      WatchedEventsAppend(w, RowCells(sheet, row, childCols), ChildRowCells(sheet, childCols, row + 1, k - 1));
    }
  }

  /**
    * When the parent row and the child rows each have one watched column
    * (the parent column and the child column) and ignore the others, the
    * events the listener reacts to in the full stream are exactly Layout's.
    */
  lemma {:induction false} FullLayoutWatched(w: Watch, sheet: string, parentCol: nat, childCol: nat,
                                             parentCols: seq<nat>, pi: int, childCols: seq<nat>, ci: int,
                                             row: nat, counts: seq<nat>)
    requires Watches(w, parentCol, childCol)
    requires OnlyWatchedAt(w, parentCols, pi) && parentCols[pi] == parentCol
    requires OnlyWatchedAt(w, childCols, ci) && childCols[ci] == childCol
    ensures WatchedEvents(w, FullLayout(sheet, parentCols, childCols, row, counts)) == Layout(sheet, parentCol, childCol, row, counts)
    decreases |counts|
  {
    if counts != [] {
      var k := counts[0];
      var children := ChildRowCells(sheet, childCols, row, k);
      var parent := RowCells(sheet, row, parentCols);
      var rest := FullLayout(sheet, parentCols, childCols, row + Height(k), counts[1..]);
      var item := ItemEvents(sheet, parentCol, childCol, row, k);
      var later := Layout(sheet, parentCol, childCol, row + Height(k), counts[1..]);
      assert WatchedEvents(w, children + parent) == item by {
        WatchedEventsAppend(w, children, parent);
        ChildRowCellsWatched(w, sheet, parentCol, childCol, childCols, ci, row, k);
        RowCellsWatched(w, sheet, row, parentCols, pi);
      }
      assert WatchedEvents(w, rest) == later by {
        FullLayoutWatched(w, sheet, parentCol, childCol, parentCols, pi, childCols, ci, row + Height(k), counts[1..]);
      }
      assert WatchedEvents(w, FullLayout(sheet, parentCols, childCols, row, counts)) == item + later by {
        assert FullLayout(sheet, parentCols, childCols, row, counts) == (children + parent) + rest;
        WatchedEventsAppend(w, children + parent, rest);
      }
      assert Layout(sheet, parentCol, childCol, row, counts) == item + later;
    } else {
      assert FullLayout(sheet, parentCols, childCols, row, counts) == [];
    }
  }

  /**
    * On the full stream of exactly parentCount items from a fresh listener,
    * where each row also writes columns the listener ignores, the records are
    * the expected spans and the merge runs once over them.
    */
  lemma FullLayoutCommitsOnce(cfg: TrackerConfig, sheet: string, parentCol: nat, childCol: nat,
                              parentCols: seq<nat>, pi: int, childCols: seq<nat>, ci: int,
                              row: nat, counts: seq<nat>)
    requires Watches(cfg.watch, parentCol, childCol)
    requires OnlyWatchedAt(cfg.watch, parentCols, pi) && parentCols[pi] == parentCol
    requires OnlyWatchedAt(cfg.watch, childCols, ci) && childCols[ci] == childCol
    requires |counts| == cfg.parentCount
    ensures Run(cfg, Init, FullLayout(sheet, parentCols, childCols, row, counts)).records == ExpectedSpans(row, counts)
    ensures Merges(cfg, Init, FullLayout(sheet, parentCols, childCols, row, counts)) ==
      if counts == [] then [] else [ExpectedSpans(row, counts)]
  {
    var evs := FullLayout(sheet, parentCols, childCols, row, counts);
    FullLayoutWatched(cfg.watch, sheet, parentCol, childCol, parentCols, pi, childCols, ci, row, counts);
    IgnoresUnwatched(cfg, Init, Init, evs);
    LayoutRecords(cfg, Init, sheet, parentCol, childCol, row, counts);
    CommitsExpectedSpansOnce(cfg, sheet, parentCol, childCol, row, counts);
    assert Init.records + ExpectedSpans(row, counts) == ExpectedSpans(row, counts);
  }

  /**
    * The test's areas: each parent row writes columns 0 and 1 (A3:B3), each
    * child row columns 2 and 3 (C3:D3); with 3, 1 and 2 children from row 2
    * the listener commits (2, 4) and (6, 7) once, over all 18 cells.
    */
  lemma ThreeParentsFullExample(w: Watch)
    requires Watches(w, 0, 2) && Ignored(w, 1) && Ignored(w, 3)
    ensures |FullLayout("Sheet2", [0, 1], [2, 3], 2, [3, 1, 2])| == 18
    ensures Merges(TrackerConfig(w, 3), Init, FullLayout("Sheet2", [0, 1], [2, 3], 2, [3, 1, 2])) == [[Span(2, 4), Span(6, 7)]]
  {
    FullLayoutCommitsOnce(TrackerConfig(w, 3), "Sheet2", 0, 2, [0, 1], 0, [2, 3], 0, 2, [3, 1, 2]);
    assert ExpectedSpans(2, [3, 1, 2]) == [Span(2, 4), Span(6, 7)] by {
      assert [3, 1, 2][1..] == [1, 2] && [1, 2][1..] == [2] && [2][1..] == [];
    }
    assert [3, 1, 2][1..] == [1, 2] && [1, 2][1..] == [2] && [2][1..] == [];
  }
}
