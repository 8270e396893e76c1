# Merge-span tracking for nested each-commands

This project models the part of the jxls extension that merges cells
vertically in rendered spreadsheet reports. A parent list is rendered with a
nested child list, so each parent item takes as many rows as it has
children. The parent's own columns should then be merged over those rows.

The engine reports each written cell to the *area listeners* attached to the
template areas. The model covers two listeners and the two commands that
attach them.

- **`EachMergeCommand.MergeCellListener`** is built by the `each-merge` command
  from its first area and the areas of the commands nested in it:
  - its parent column is the first area's first column;
  - its child columns are the distinct, sorted first columns of the nested areas;
  - its merge columns are the parent columns that no nested area covers.
- **`MergeAreaListener`** is configured by hand with one parent column, one
  child column and a list of merge columns.

Both listeners hold the same four fields:
- `childRow`: the last child row seen;
- `parentProcessed`: the parent items finished;
- `records`: the recorded `(start, end)` row spans;
- `sheetName`: the sheet the merge applies to.

A parent cell records the span from its own row to `childRow` when that span
covers more than one row. When the parent cell of item number `parentCount`
is written, every recorded span is committed to the sheet:
- one single-column merged region per merge column;
- each region's four borders copied from a style cell, or THIN on every side
  when that cell is missing.

`EachCommandWithAreaListener` takes a listener from a context variable and
attaches it to its areas, once only.

The modules are:

| module | file | contents |
|---|---|---|
| `Wrappers` | wrappers.dfy | `Option`, `Result` |
| `Sequences` | sequences.dfy | associativity of concatenation, used as a proof step |
| `Geometry` | geometry.dfy | cell and area references, spans, the column arithmetic of the MergeCellListener constructor |
| `Sheets` | sheets.dfy | the sheet state the merge writes: existing rows and cells, merged regions, border paintings; the workbook's sheets by name |
| `MergeExecutor` | merge_executor.dfy | `doMerge`/`merge4Row` of both listeners, as imperative methods proved against `MergedFor`/`PaintedFor` |
| `SpanTracking` | span_tracking.dfy | both listeners' event handling as a pure state machine (`Step`, `Run`, `Merges`) with its invariants |
| `RenderOrder` | render_order.dfy | children-first event streams for a parent list with one nested list and one-row templates (`FullLayout`: every cell of every row; `Layout`: only the watched columns), and what both listeners record and commit on them |
| `MergeCell` | merge_cell.dfy | class `MergeCellListener` |
| `MergeArea` | merge_area.dfy | class `MergeAreaListener` |
| `Areas` | areas.dfy | template areas, nested commands, attached listeners, the context |
| `EachMerge` | each_merge.dfy | `EachMergeCommand.applyAt` |
| `EachWithListener` | each_with_listener.dfy | `EachCommandWithAreaListener` |

Each listener class updates its fields in place. Its `AfterTransformCell` is
proved to move `State()` by exactly one `SpanTracking.Step`. It is also
proved to change the target sheet exactly by `MergedFor`/`PaintedFor` of the
records on the event that fires, and not at all otherwise. The properties of
whole event streams are lemmas about `Step`, `Run` and `Merges`.

The model follows the code's own behaviour in these places:

- `MergeCellListener` tests the parent column before the child columns. Only
  child areas' *first* columns count as child events. A later child cell moves
  `childRow` only upward (`max`). Handling a parent cell resets `childRow`
  to 0.
- `MergeAreaListener` tests the child column before the parent column. It sets
  `childRow` to the child cell's row without taking a maximum, and it never
  resets `childRow`.
- `sheetName` is overwritten on every event, child events included, until the
  first parent item is finished.
- `parentProcessed` keeps counting past `parentCount`, so the merge runs on
  exactly one event: the one that brings the count to `parentCount`.
- For a children-first layout of items with 3, 1 and 2 children from row 2,
  both listeners record the spans (2, 4) and (6, 7). The third item occupies
  rows 6 and 7, because the second item occupies one row.
- `MergeCellListener` copies borders from the row of the template cell of the
  firing event, in each merge column. `MergeAreaListener` copies them from the
  first row of each span.
- `EachMergeCommand.applyAt` has no once-only guard. Every application builds
  a fresh listener and attaches it to the first area and to every nested
  area. An area listed more than once gets it more than once.
- A lookup error in `EachCommandWithAreaListener` leaves the command
  unregistered, so the next application tries again.

## Model

| member | source | states |
|---|---|---|
| Geometry.ChildStartColumnsExact | src/main/java/tech/simter/jxls/ext/EachMergeCommand.java:108-111 | the child start columns are strictly ascending and contain a column exactly when some child area starts there |
| Geometry.MergeColumnsExact | src/main/java/tech/simter/jxls/ext/EachMergeCommand.java:102-116 | the merge columns are strictly ascending; a column is one exactly when it lies in the parent's range and in no child's range; no merge column lies in any child area |
| Geometry.NestedChildrenExample | src/main/java/tech/simter/jxls/ext/EachMergeCommand.java:102-116 | a parent over columns 0..4 with children over 2..3 and 3..4 merges exactly columns 0 and 1 |
| SpanTracking.StepCases | src/main/java/tech/simter/jxls/ext/EachMergeCommand.java:138-166 | one event: before the first parent item the sheet name becomes the event's; a parent event adds one to the count, records (row, childRow) exactly when row < childRow and resets childRow to 0; a child event only raises childRow to the max; any other event changes nothing else; for MergeAreaListener (MergeAreaListener.java, lines 65-90) the child column is tested first, sets childRow to the event's row, and a parent event keeps childRow |
| SpanTracking.StepConsistent | src/main/java/tech/simter/jxls/ext/EachMergeCommand.java:139-149 | each event keeps the invariant: the count is non-negative, every record covers more than one row, and a sheet name is known once a parent item is done |
| SpanTracking.RunConsistent | src/main/java/tech/simter/jxls/ext/EachMergeCommand.java:148-149 | over any event stream the invariant holds and the records only grow (the old records are a prefix) |
| SpanTracking.RunCountsParents | src/main/java/tech/simter/jxls/ext/EachMergeCommand.java:142-143 | after any stream, parentProcessed has grown by the number of parent events in it |
| SpanTracking.MergesAtMostOnce | src/main/java/tech/simter/jxls/ext/EachMergeCommand.java:151-156 | on any stream the merge runs exactly once when the parent events bring the count up to parentCount, and never otherwise |
| SpanTracking.MergeAtFiringEvent | src/main/java/tech/simter/jxls/ext/EachMergeCommand.java:151-156 | when event k fires, the stream's only merge receives every record accumulated up to and including event k |
| RenderOrder.EachMergeWatchesChild | src/main/java/tech/simter/jxls/ext/EachMergeCommand.java:97-111 | a MergeCellListener built from a parent and its children watches the parent's first column and every child area's first column that differs from it |
| RenderOrder.ChildEventsRun | src/main/java/tech/simter/jxls/ext/EachMergeCommand.java:160-161 | an item's consecutive child rows leave childRow at the last child row, change neither the count nor the records, and trigger no merge |
| RenderOrder.ItemRun | src/main/java/tech/simter/jxls/ext/EachMergeCommand.java:142-157 | one item (children, then parent cell) adds one to the count and records its span exactly when it has more than one child |
| RenderOrder.ItemMerges | src/main/java/tech/simter/jxls/ext/EachMergeCommand.java:151-156 | one item triggers the merge exactly when it is item number parentCount, handing over the records including its own span |
| RenderOrder.LayoutRecords | src/main/java/tech/simter/jxls/ext/EachMergeCommand.java:138-166 | on a whole watched-column children-first stream (Layout) the count goes up by the number of items and the records grow by exactly one span per item with more than one child |
| RenderOrder.LayoutMerges | src/main/java/tech/simter/jxls/ext/EachMergeCommand.java:151-156 | on a whole watched-column children-first stream (Layout) the merge runs once, after item parentCount, over the spans of the items up to it, and never when there are fewer items |
| RenderOrder.CommitsExpectedSpansOnce | src/main/java/tech/simter/jxls/ext/EachMergeCommand.java:148-156 | for exactly parentCount items from a fresh listener, the merge runs once over the expected spans, and not at all for an empty list |
| RenderOrder.ThreeParentsExample | src/test/java/tech/simter/jxls/ext/MergeCellByApiTest.java:55-57 | for the test's listener on columns 0 and 2 from row 2 with 3, 1 and 2 children, either listener commits [(2, 4), (6, 7)] exactly once |
| SpanTracking.IgnoresUnwatched | src/main/java/tech/simter/jxls/ext/EachMergeCommand.java:138-166 | cells on columns the listener watches neither as parent nor as child change nothing but the sheet name: any stream and its watched events give the same count, childRow and records, and the same merges |
| RenderOrder.FullLayoutWatched | src/main/java/tech/simter/jxls/ext/EachMergeCommand.java:142-161 | when each row has one watched column and ignores the rest, the events the listener reacts to in the full stream are exactly the watched-column Layout |
| RenderOrder.FullLayoutCommitsOnce | src/main/java/tech/simter/jxls/ext/EachMergeCommand.java:148-156 | on the full stream of exactly parentCount items from a fresh listener, the records are the expected spans and the merge runs once over them |
| RenderOrder.ThreeParentsFullExample | src/test/java/tech/simter/jxls/ext/MergeCellByApiTest.java:55-70 | with the test's areas A3:D3 and C3:D3 (parent rows write columns 0 and 1, child rows 2 and 3), the 18 cells of 3, 1 and 2 children from row 2 commit [(2, 4), (6, 7)] once |
| MergeExecutor.BordersFrom | src/main/java/tech/simter/jxls/ext/EachMergeCommand.java:191-207 | a region's borders are the style cell's borders when that cell exists and THIN on all four sides otherwise |
| MergeExecutor.RowRegions | src/main/java/tech/simter/jxls/ext/EachMergeCommand.java:177-188 | one span yields nothing when it covers a single row, and otherwise one single-column region per merge column, in column order |
| MergeExecutor.RowPaintings | src/main/java/tech/simter/jxls/ext/EachMergeCommand.java:185-207 | the borders painted for one span are parallel to its regions, each taken from the style row in that region's column |
| MergeExecutor.MergeColumn | src/main/java/tech/simter/jxls/ext/EachMergeCommand.java:187-207 | merging one column appends its region to the merged regions and paints it with the style cell's borders, or THIN when the cell is missing |
| MergeExecutor.MergeRows | src/main/java/tech/simter/jxls/ext/EachMergeCommand.java:177-209 | merging a span appends exactly RowRegions to the merged regions and RowPaintings to the paintings, whenever the sheet is there; borders come from the template row here and from the span's first row in MergeAreaListener (MergeAreaListener.java, lines 101-132) |
| MergeExecutor.DoMerge | src/main/java/tech/simter/jxls/ext/EachMergeCommand.java:168-175 | committing the records appends, in record order, exactly the regions and paintings of each record; the same method serves MergeAreaListener (MergeAreaListener.java, lines 92-99) |
| MergeExecutor.MergedForExact | src/main/java/tech/simter/jxls/ext/EachMergeCommand.java:174-188 | a region is committed exactly when it is one merge column over the rows of a record covering more than one row |
| MergeExecutor.MergedForCount | src/main/java/tech/simter/jxls/ext/EachMergeCommand.java:174-188 | records that each cover more than one row yield records times merge columns regions |
| MergeExecutor.MergedAvoidsChildColumns | src/main/java/tech/simter/jxls/ext/EachMergeCommand.java:113-116 | every region committed with the computed merge columns is one column wide, covers more than one row, lies within the parent's columns and in no child area's columns |
| MergeCell.MergeCellListener.constructor | src/main/java/tech/simter/jxls/ext/EachMergeCommand.java:97-123 | the parent column is the parent's first column; the child start columns and merge columns are those of ChildStartColumnsExact and MergeColumnsExact; the tracker starts empty and consistent |
| MergeCell.MergeCellListener.AfterTransformCell | src/main/java/tech/simter/jxls/ext/EachMergeCommand.java:138-166 | the fields move by exactly one Step and keep the invariant; the target sheet gets exactly the regions and paintings of all records, with borders from the template row, on the event that fires, and is unchanged otherwise |
| MergeArea.MergeAreaListener.constructor | src/main/java/tech/simter/jxls/ext/MergeAreaListener.java:37-42 | the columns are kept as given; the start row and parent count are 0 and the tracker starts empty |
| MergeArea.MergeAreaListener.SetParentStartRow | src/main/java/tech/simter/jxls/ext/MergeAreaListener.java:44-46 | sets the start row and leaves the count and the tracker state unchanged |
| MergeArea.MergeAreaListener.SetParentCount | src/main/java/tech/simter/jxls/ext/MergeAreaListener.java:48-50 | sets the count and leaves the start row and the tracker state unchanged |
| MergeArea.MergeAreaListener.AfterTransformCell | src/main/java/tech/simter/jxls/ext/MergeAreaListener.java:65-90 | the fields move by exactly one Step and keep the invariant; on the event that fires, the target sheet gets exactly the regions and paintings of all records, with borders from each span's first row, and is unchanged otherwise |
| Areas.CommandAreasExact | src/main/java/tech/simter/jxls/ext/EachMergeCommand.java:62-63 | the collected areas are exactly the areas of the given commands |
| Areas.ChildAreasExact | src/main/java/tech/simter/jxls/ext/EachMergeCommand.java:61-64 | the child areas are exactly the areas of the commands placed in the command's areas |
| Areas.AttachToAll | src/main/java/tech/simter/jxls/ext/EachMergeCommand.java:76-79 | each area keeps its listeners and gains one copy of the new listener per time it is listed |
| EachMerge.AreaRefs | src/main/java/tech/simter/jxls/ext/EachMergeCommand.java:65-66 | the cell ranges of the child areas, one per area, in order |
| EachMerge.EachMergeCommand.ApplyAt | src/main/java/tech/simter/jxls/ext/EachMergeCommand.java:57-83 | succeeds exactly when there is an area and the items variable is a collection, and otherwise names the failure and attaches nothing; on success a fresh listener with the computed columns, the collection's size as parent count and an empty tracker is attached to the first area and to every nested area, once per listing |
| EachWithListener.CreateAreaListener | src/main/java/tech/simter/jxls/ext/EachCommandWithAreaListener.java:70-77 | no listener when the attribute is unset or empty; the variable's listener when the named variable holds one; an error naming the attribute otherwise |
| EachWithListener.EachCommandWithAreaListener.GetListener | src/main/java/tech/simter/jxls/ext/EachCommandWithAreaListener.java:47-49 | returns the listener attribute |
| EachWithListener.EachCommandWithAreaListener.SetListener | src/main/java/tech/simter/jxls/ext/EachCommandWithAreaListener.java:51-53 | sets the listener attribute and leaves the registered flag alone |
| EachWithListener.EachCommandWithAreaListener.ApplyAt | src/main/java/tech/simter/jxls/ext/EachCommandWithAreaListener.java:55-68 | once registered, an application changes nothing. Otherwise a lookup error attaches nothing and leaves the command unregistered; a missing listener only registers; a found listener is attached to every area, once per listing, and the command is registered |

## Left out

- Rendering itself is out of scope: the rest of `applyAt` (`super.applyAt`), which writes the rows and fires the listener callbacks. `RenderOrder` stands in for it. It models the event order the listeners rely on: an item's child cells are written before its parent cell, and items are laid out downward.
- RenderOrder's streams cover one nested child area and one-row templates: every child row writes the same columns, then the parent row writes its columns, and items follow each other downward. Multi-row templates, several child areas per parent and cells of areas the listener is not attached to are not modelled as streams. `SpanTracking.IgnoresUnwatched` holds for any stream, but `LayoutRecords`, `LayoutMerges` and the commit lemmas are stated for these layouts only.
- The empty callbacks `beforeApplyAtCell`, `afterApplyAtCell` and `beforeTransformCell` are left out, as is the context parameter of `afterTransformCell`, which is never read.
- Logging is left out. That includes the debug log in `doMerge`, which dereferences the sheet and so would fail on a missing sheet when debug logging is on.
- The cast of the transformer to a POI transformer and the `getWorkbook` call are left out. The workbook is a field of each listener.
- POI's internals are left out. `addMergedRegion` is modelled as appending to a list, without overlap checks. The four `RegionUtil.setBorder*` calls are modelled as one `Painting` record per region, so writing styles into the region's cells, and creating missing cells, is not modelled. The cells and rows of a sheet are fixed.
- POI looks sheet names up case-insensitively. The model uses an exact map lookup.
- MergeExecutor.DoMerge: requires `MergeReady`, namely that the sheet and the style row exist whenever a record has columns to merge. The code has no such check and fails with a null dereference when either is missing.
- MergeCell.MergeCellListener.AfterTransformCell: requires `MergeReady` on the firing event only, for the same reason.
- MergeArea.MergeAreaListener.AfterTransformCell: requires `MergeReady` on the firing event only, for the same reason.
- `EachMergeCommand.applyAt` and `createAreaListener` throw exceptions: an empty area list, a null items variable, a non-collection items variable, or a variable that is not an area listener. These are modelled as `Result` failures that attach nothing.
- Java's 32-bit `int` overflow of `parentProcessed++` and of row numbers is not modelled. Integers are unbounded.
- MergeAreaListener's `mergeColumns` array is kept by reference, so a caller can still change it after construction. The model keeps a value copy taken at construction time.
- The stream lemmas in `SpanTracking` and `RenderOrder` fix the listener configuration. Calling `setParentCount` in the middle of a stream is covered by the class method's contract only.
- The listener-attachment postconditions speak about areas that already existed before the call.
- A command's `CommandData` is represented by the command itself. Only the command's area list is read.
- The constructors of the two commands are reduced to the fields the modelled operations read. The variable name, direction and cell reference generator belong to rendering.
- `parentStartRow` of MergeAreaListener is stored and never read, as in the code.
