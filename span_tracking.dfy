/**
  * The span tracker as a pure state machine. Both listeners keep the same four
  * fields (childRow, parentProcessed, records, sheetName) and react to each
  * "cell written" event; they differ in how an event is classified and in how
  * childRow is updated (Watch). This module defines one step, a run over an
  * event stream, the merges a run triggers, and what runs are proved to do,
  * including on the children-first event streams the template engine emits.
  */
module SpanTracking {
  import opened Wrappers
  import opened Geometry
  import opened Sequences

  /** The columns a listener watches. */
  datatype Watch =
    /** EachMergeCommand.MergeCellListener: the parent area's first column and each child area's first column. */
    | EachMerge(parentStartColumn: int, childStartColumns: seq<int>)
    /** MergeAreaListener: one parent column and one child column. */
    | SingleChild(parentColumn: int, childColumn: int)

  datatype TrackerConfig = TrackerConfig(watch: Watch, parentCount: int)

  datatype TrackerState = TrackerState(childRow: int, parentProcessed: int, records: seq<Span>, sheetName: Option<string>)

  /** A listener's state before its first event (Java's zero and null defaults). */
  const Init: TrackerState := TrackerState(0, 0, [], None)

  /** The invariant both listeners keep. */
  predicate Consistent(st: TrackerState) {
    && st.parentProcessed >= 0
    && AllProper(st.records)
    && (st.parentProcessed > 0 ==> st.sheetName.Some?)
  }

  function Max(a: int, b: int): int {
    if a < b then b else a
  }

  /** The effect of the event that finishes one parent item at `row`. */
  function ParentDone(st: TrackerState, row: int, nextChildRow: int): TrackerState {
    st.(parentProcessed := st.parentProcessed + 1,
        records := if row < st.childRow then st.records + [Span(row, st.childRow)] else st.records,
        childRow := nextChildRow)
  }

  /** One "cell written" event at `ev`. */
  function Step(cfg: TrackerConfig, st: TrackerState, ev: CellRef): TrackerState {
    var st := if st.parentProcessed == 0 then st.(sheetName := Some(ev.sheet)) else st;
    match cfg.watch
    case EachMerge(parentStart, childStarts) =>
      if ev.col == parentStart then ParentDone(st, ev.row, 0)
      else if ev.col in childStarts then st.(childRow := Max(st.childRow, ev.row))
      else st
    case SingleChild(parent, child) =>
      if ev.col == child then st.(childRow := ev.row)
      else if ev.col == parent then ParentDone(st, ev.row, st.childRow)
      else st
  }

  /** The event finishes a parent item (the parent test, after the child test for SingleChild). */
  predicate IsParentEvent(w: Watch, ev: CellRef) {
    match w
    case EachMerge(parentStart, _) => ev.col == parentStart
    case SingleChild(parent, child) => ev.col != child && ev.col == parent
  }

  /** The event is on a watched child column (and is not taken as a parent event). */
  predicate IsChildEvent(w: Watch, ev: CellRef) {
    match w
    case EachMerge(parentStart, childStarts) => ev.col != parentStart && ev.col in childStarts
    case SingleChild(_, child) => ev.col == child
  }

  /** The event is the one that brings parentProcessed up to parentCount: the merge runs on it. */
  predicate Fires(cfg: TrackerConfig, st: TrackerState, ev: CellRef) {
    IsParentEvent(cfg.watch, ev) && st.parentProcessed + 1 == cfg.parentCount
  }

  /** The events of a stream the listener reacts to: its parent and child events, in order. */
  function WatchedEvents(w: Watch, evs: seq<CellRef>): seq<CellRef>
    decreases |evs|
  {
    if evs == [] then []
    else (if IsParentEvent(w, evs[0]) || IsChildEvent(w, evs[0]) then [evs[0]] else []) + WatchedEvents(w, evs[1..])
  }

  /** Two states that agree on everything but the sheet name. */
  predicate SameTracking(a: TrackerState, b: TrackerState) {
    a.childRow == b.childRow && a.parentProcessed == b.parentProcessed && a.records == b.records
  }

  /** The state after a stream of events. */
  function Run(cfg: TrackerConfig, st: TrackerState, evs: seq<CellRef>): TrackerState
    decreases |evs|
  {
    if evs == [] then st else Run(cfg, Step(cfg, st, evs[0]), evs[1..])
  }

  /** The record lists handed to the merge, in order, while a stream of events is processed. */
  function Merges(cfg: TrackerConfig, st: TrackerState, evs: seq<CellRef>): seq<seq<Span>>
    decreases |evs|
  {
    if evs == [] then []
    else
      var next := Step(cfg, st, evs[0]);
      (if Fires(cfg, st, evs[0]) then [next.records] else []) + Merges(cfg, next, evs[1..])
  }

  /** How many events of a stream finish a parent item. */
  function ParentEvents(w: Watch, evs: seq<CellRef>): nat
    decreases |evs|
  {
    if evs == [] then 0
    else (if IsParentEvent(w, evs[0]) then 1 else 0) + ParentEvents(w, evs[1..])
  }

  /**
    * What one event does: a parent event counts one more parent item and
    * records (row, childRow) exactly when row < childRow; a child event moves
    * only childRow; any other event changes nothing but, before the first
    * parent item, the sheet name.
    */
  lemma StepCases(cfg: TrackerConfig, st: TrackerState, ev: CellRef)
    ensures var next := Step(cfg, st, ev);
      && next.sheetName == (if st.parentProcessed == 0 then Some(ev.sheet) else st.sheetName)
      && (IsParentEvent(cfg.watch, ev) ==>
            && next.parentProcessed == st.parentProcessed + 1
            && next.records == (if ev.row < st.childRow then st.records + [Span(ev.row, st.childRow)] else st.records)
            && next.childRow == (if cfg.watch.EachMerge? then 0 else st.childRow))
      && (IsChildEvent(cfg.watch, ev) ==>
            && next.parentProcessed == st.parentProcessed
            && next.records == st.records
            && next.childRow == (if cfg.watch.EachMerge? then Max(st.childRow, ev.row) else ev.row))
      && (!IsParentEvent(cfg.watch, ev) && !IsChildEvent(cfg.watch, ev) ==>
            next == st.(sheetName := next.sheetName))
  {
  }

  /** Every step keeps the invariant; in particular every record spans more than one row. */
  lemma StepConsistent(cfg: TrackerConfig, st: TrackerState, ev: CellRef)
    requires Consistent(st)
    ensures Consistent(Step(cfg, st, ev))
  {
  }

  lemma {:induction false} RunAppend(cfg: TrackerConfig, st: TrackerState, a: seq<CellRef>, b: seq<CellRef>)
    ensures Run(cfg, st, a + b) == Run(cfg, Run(cfg, st, a), b)
    decreases |a|
  {
    if a != [] {
      assert (a + b)[0] == a[0] && (a + b)[1..] == a[1..] + b;
      RunAppend(cfg, Step(cfg, st, a[0]), a[1..], b);
    } else {
      assert a + b == b;
    }
  }

  lemma {:induction false} MergesAppend(cfg: TrackerConfig, st: TrackerState, a: seq<CellRef>, b: seq<CellRef>)
    ensures Merges(cfg, st, a + b) == Merges(cfg, st, a) + Merges(cfg, Run(cfg, st, a), b)
    decreases |a|
  {
    if a != [] {
      assert (a + b)[0] == a[0] && (a + b)[1..] == a[1..] + b;
      MergesAppend(cfg, Step(cfg, st, a[0]), a[1..], b);
    } else {
      assert a + b == b;
    }
  }

  lemma {:induction false} ParentEventsAppend(w: Watch, a: seq<CellRef>, b: seq<CellRef>)
    ensures ParentEvents(w, a + b) == ParentEvents(w, a) + ParentEvents(w, b)
    decreases |a|
  {
    if a != [] {
      assert (a + b)[0] == a[0] && (a + b)[1..] == a[1..] + b;
      ParentEventsAppend(w, a[1..], b);
    } else {
      assert a + b == b;
    }
  }

  /** Over any stream the invariant holds, so every record spans more than one row, and records only grow. */
  lemma {:induction false} RunConsistent(cfg: TrackerConfig, st: TrackerState, evs: seq<CellRef>)
    requires Consistent(st)
    ensures Consistent(Run(cfg, st, evs))
    ensures AllProper(Run(cfg, st, evs).records)
    ensures st.records <= Run(cfg, st, evs).records
    decreases |evs|
  {
    if evs != [] {
      StepConsistent(cfg, st, evs[0]);
      RunConsistent(cfg, Step(cfg, st, evs[0]), evs[1..]);
    }
  }

  /**
    * The merge runs at most once on any stream: exactly once when the stream
    * holds enough parent events to bring parentProcessed up to parentCount,
    * and never otherwise.
    */
  lemma {:induction false} MergesAtMostOnce(cfg: TrackerConfig, st: TrackerState, evs: seq<CellRef>)
    ensures |Merges(cfg, st, evs)| ==
      if st.parentProcessed < cfg.parentCount <= st.parentProcessed + ParentEvents(cfg.watch, evs) then 1 else 0
    decreases |evs|
  {
    if evs != [] {
      MergesAtMostOnce(cfg, Step(cfg, st, evs[0]), evs[1..]);
    }
  }

  /**
    * When the event at index k is the one that fires, the run's only merge
    * receives every record accumulated up to and including that event.
    */
  lemma MergeAtFiringEvent(cfg: TrackerConfig, st: TrackerState, evs: seq<CellRef>, k: int)
    requires 0 <= k < |evs|
    requires Fires(cfg, Run(cfg, st, evs[..k]), evs[k])
    ensures Merges(cfg, st, evs) == [Run(cfg, st, evs[..k + 1]).records]
  {
    var before, ev, after := evs[..k], evs[k], evs[k + 1..];
    assert evs == before + ([ev] + after);
    assert evs[..k + 1] == before + [ev];
    var mid := Run(cfg, st, before);
    MergesAppend(cfg, st, before, [ev] + after);
    MergesAppend(cfg, mid, [ev], after);
    RunAppend(cfg, st, before, [ev]);
    assert Run(cfg, mid, [ev]) == Step(cfg, mid, ev);
    RunCountsParents(cfg, st, before);
    MergesAtMostOnce(cfg, st, before);
    MergesAtMostOnce(cfg, Step(cfg, mid, ev), after);
  }

  /** parentProcessed counts the parent events of any stream, from any state. */
  lemma {:induction false} RunCountsParents(cfg: TrackerConfig, st: TrackerState, evs: seq<CellRef>)
    ensures Run(cfg, st, evs).parentProcessed == st.parentProcessed + ParentEvents(cfg.watch, evs)
    decreases |evs|
  {
    if evs != [] {
      RunCountsParents(cfg, Step(cfg, st, evs[0]), evs[1..]);
    }
  }

  lemma {:induction false} WatchedEventsAppend(w: Watch, a: seq<CellRef>, b: seq<CellRef>)
    ensures WatchedEvents(w, a + b) == WatchedEvents(w, a) + WatchedEvents(w, b)
    decreases |a|
  {
    if a != [] {
      assert (a + b)[0] == a[0] && (a + b)[1..] == a[1..] + b;
      WatchedEventsAppend(w, a[1..], b);
      AppendAssoc(if IsParentEvent(w, a[0]) || IsChildEvent(w, a[0]) then [a[0]] else [],
        WatchedEvents(w, a[1..]), WatchedEvents(w, b));
    } else {
      assert a + b == b;
    }
  }

  /**
    * Events on columns the listener does not watch change nothing but the
    * sheet name: a stream and its watched events lead to the same count,
    * childRow and records, and hand the same records to the merge.
    */
  lemma {:induction false} IgnoresUnwatched(cfg: TrackerConfig, a: TrackerState, b: TrackerState, evs: seq<CellRef>)
    requires SameTracking(a, b)
    ensures SameTracking(Run(cfg, a, evs), Run(cfg, b, WatchedEvents(cfg.watch, evs)))
    ensures Merges(cfg, a, evs) == Merges(cfg, b, WatchedEvents(cfg.watch, evs))
    decreases |evs|
  {
    if evs != [] {
      var ev, tail := evs[0], evs[1..];
      var next := Step(cfg, a, ev);
      var rest := WatchedEvents(cfg.watch, tail);
      if IsParentEvent(cfg.watch, ev) || IsChildEvent(cfg.watch, ev) {
        var watched := [ev] + rest;
        assert WatchedEvents(cfg.watch, evs) == watched;
        assert watched[0] == ev && watched[1..] == rest;
        assert SameTracking(next, Step(cfg, b, ev));
        IgnoresUnwatched(cfg, next, Step(cfg, b, ev), tail);
      } else {
        assert WatchedEvents(cfg.watch, evs) == [] + rest;
        assert [] + rest == rest;
        assert SameTracking(next, b) && !Fires(cfg, a, ev) by {
          StepCases(cfg, a, ev);
        }
        IgnoresUnwatched(cfg, next, b, tail);
      }
    }
  }
}
