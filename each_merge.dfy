/**
  * EachMergeCommand: an each command that, every time it is applied, builds
  * a fresh MergeCellListener from its own first area and from the areas of
  * the commands nested in its areas, and attaches that listener to the first
  * area and to every nested area.
  */
module EachMerge {
  import opened Wrappers
  import opened Geometry
  import opened Sheets
  import opened SpanTracking
  import opened Areas
  import opened MergeCell

  /** Why applying the command fails before any listener is attached. */
  datatype ApplyError =
    /** The command has no area, so there is no parent area. */
    | NoArea
    /** The items variable is absent from the context (reads as null). */
    | ItemsMissing(items: string)
    /** The items variable is not a collection. */
    | ItemsNotCollection(items: string)

  /** The cell ranges of the given areas, in order. */
  function AreaRefs(areas: seq<Area>): (r: seq<AreaRef>)
    ensures |r| == |areas|
    ensures forall i :: 0 <= i < |areas| ==> r[i] == areas[i].areaRef
  {
    seq(|areas|, i requires 0 <= i < |areas| => areas[i].areaRef)
  }

  class EachMergeCommand {
    /** The name of the context variable holding the parent items. */
    const items: string
    const areaList: seq<Area>
    /** The workbook the transformer writes into. */
    const workbook: Workbook

    constructor(items: string, areaList: seq<Area>, workbook: Workbook)
      ensures this.items == items && this.areaList == areaList && this.workbook == workbook
    {
      this.items := items;
      this.areaList := areaList;
      this.workbook := workbook;
    }

    /** The areas a listener is attached to: the first area, then every nested area. */
    function Targets(): (r: seq<Area>)
      ensures areaList != [] ==> |r| > 0 && r[0] == areaList[0]
      ensures areaList == [] ==> r == []
    {
      if areaList == [] then [] else [areaList[0]] + ChildAreas(areaList)
    }

    /**
      * Creates a MergeCellListener for the first area, the nested areas and
      * the number of items, and attaches it to the first area and then to
      * each nested area. Fails, attaching nothing, when there is no area or
      * the items variable is not a collection.
      */
    method ApplyAt(context: Context) returns (r: Result<MergeCellListener, ApplyError>)
      modifies set a | a in Targets()
      ensures r.Success? <==> areaList != [] && items in context && context[items].CollectionValue?
      ensures areaList == [] ==> r == Failure(NoArea)
      ensures areaList != [] && items !in context ==> r == Failure(ItemsMissing(items))
      ensures areaList != [] && items in context && !context[items].CollectionValue? ==>
        r == Failure(ItemsNotCollection(items))
      ensures r.Failure? ==> forall a :: a in Targets() ==> old(allocated(a)) ==> a.listeners == old(a.listeners)
      ensures r.Success? ==>
        var children := AreaRefs(ChildAreas(areaList));
        && fresh(r.value)
        && r.value.workbook == workbook
        && r.value.parentCount == context[items].size
        && r.value.parentStartColumn == areaList[0].areaRef.firstCol
        && r.value.childStartColumns == ChildStartColumns(children)
        && r.value.mergeColumns == MergeColumns(areaList[0].areaRef, children)
        && r.value.State() == Init
        && forall a :: a in Targets() ==>
             old(allocated(a)) ==> a.listeners == old(a.listeners) + Repeat(MergeCells(r.value), multiset(Targets())[a])
    {
      var childAreas := ChildAreas(areaList);
      var childAreaRefs := AreaRefs(childAreas);
      if areaList == [] {
        return Failure(NoArea);
      }
      var parentArea := areaList[0];
      if items !in context {
        return Failure(ItemsMissing(items));
      }
      var value := context[items];
      if !value.CollectionValue? {
        return Failure(ItemsNotCollection(items));
      }
      var listener := new MergeCellListener(workbook, parentArea.areaRef, childAreaRefs, value.size);
      AttachToAll([parentArea] + childAreas, MergeCells(listener));
      r := Success(listener);
    }
  }
}
