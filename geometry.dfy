/**
  * Coordinates of the output grid and the column arithmetic that
  * EachMergeCommand.MergeCellListener performs once, in its constructor:
  * which columns belong to some child area, which columns each child area
  * starts at, and which parent columns are therefore merged.
  */
module Geometry {

  /** A concrete cell written by the template engine: zero-based row and column. */
  datatype CellRef = CellRef(sheet: string, row: nat, col: nat)

  /** A rectangular template area, given by its first and its last cell. */
  datatype AreaRef = AreaRef(sheet: string, firstRow: int, firstCol: int, lastRow: int, lastCol: int)

  /** The pair `{start row, end row}` a listener records for one parent item. */
  datatype Span = Span(fromRow: int, toRow: int)

  /** A span that covers more than one row, i.e. one worth merging. */
  predicate Proper(sp: Span) {
    sp.fromRow < sp.toRow
  }

  predicate AllProper(spans: seq<Span>) {
    forall i :: 0 <= i < |spans| ==> Proper(spans[i])
  }

  predicate StrictlyIncreasing(s: seq<int>) {
    forall i, j :: 0 <= i < j < |s| ==> s[i] < s[j]
  }

  /** Putting a value below every element in front of a strictly increasing sequence keeps it so. */
  lemma ConsIncreasing(x: int, s: seq<int>)
    requires StrictlyIncreasing(s)
    requires forall c :: c in s ==> x < c
    ensures StrictlyIncreasing([x] + s)
  {
    forall i, j | 0 <= i < j < |[x] + s| ensures ([x] + s)[i] < ([x] + s)[j] {
      assert ([x] + s)[j] == s[j - 1] && s[j - 1] in s;
      if i > 0 { assert ([x] + s)[i] == s[i - 1]; }
    }
  }

  /** True when column `c` lies in the column range of one of the `children`. */
  predicate InSomeChild(children: seq<AreaRef>, c: int) {
    exists i :: 0 <= i < |children| && children[i].firstCol <= c <= children[i].lastCol
  }

  /** The half-open integer range `lo, lo + 1, ..., hi - 1`, empty when `hi <= lo`. */
  function Range(lo: int, hi: int): (r: seq<int>)
    ensures StrictlyIncreasing(r)
    ensures forall c :: c in r <==> lo <= c < hi
    decreases hi - lo
  {
    if hi <= lo then []
    else
      var rest := Range(lo + 1, hi);
      ConsIncreasing(lo, rest);
      [lo] + rest
  }

  /** Inserts `x` into a strictly increasing sequence, keeping it strictly increasing. */
  function Insert(x: int, s: seq<int>): (r: seq<int>)
    requires StrictlyIncreasing(s)
    ensures StrictlyIncreasing(r)
    ensures forall c :: c in r <==> c == x || c in s
  {
    if s == [] then [x]
    else if x < s[0] then [x] + s
    else if x == s[0] then s
    else
      var rest := Insert(x, s[1..]);
      assert forall c :: c in rest ==> s[0] < c by {
        forall c | c in s[1..] ensures s[0] < c {
          var j :| 0 <= j < |s[1..]| && s[1..][j] == c;
          assert s[j + 1] == c;
        }
      }
      ConsIncreasing(s[0], rest);
      assert s == [s[0]] + s[1..];
      [s[0]] + rest
  }

  /** The `.distinct().sorted()` of a stream of ints. */
  function SortedDistinct(s: seq<int>): (r: seq<int>)
    ensures StrictlyIncreasing(r)
    ensures forall c :: c in r <==> c in s
  {
    if s == [] then [] else Insert(s[0], SortedDistinct(s[1..]))
  }

  /** Every column of every child area, area after area (duplicates kept). */
  function ColumnsOfAll(children: seq<AreaRef>): (r: seq<int>)
    ensures forall c :: c in r <==> InSomeChild(children, c)
  {
    if children == [] then []
    else
      var rest := ColumnsOfAll(children[1..]);
      assert forall c :: InSomeChild(children, c) <==>
        (children[0].firstCol <= c <= children[0].lastCol || InSomeChild(children[1..], c)) by {
        forall c ensures InSomeChild(children, c) ==>
          (children[0].firstCol <= c <= children[0].lastCol || InSomeChild(children[1..], c)) {
          if InSomeChild(children, c) {
            var i :| 0 <= i < |children| && children[i].firstCol <= c <= children[i].lastCol;
            if i > 0 { assert children[1..][i - 1] == children[i]; }
          }
        }
        forall c | InSomeChild(children[1..], c) ensures InSomeChild(children, c) {
          var i :| 0 <= i < |children[1..]| && children[1..][i].firstCol <= c <= children[1..][i].lastCol;
          assert children[i + 1] == children[1..][i];
        }
      }
      Range(children[0].firstCol, children[0].lastCol + 1) + rest
  }

  /** The sorted, duplicate-free columns covered by some child area (`childCols`). */
  function ChildColumns(children: seq<AreaRef>): (r: seq<int>)
    ensures StrictlyIncreasing(r)
    ensures forall c :: c in r <==> InSomeChild(children, c)
  {
    SortedDistinct(ColumnsOfAll(children))
  }

  /** The first column of each child area, in order. */
  function FirstColumns(children: seq<AreaRef>): (r: seq<int>)
    ensures |r| == |children|
    ensures forall i :: 0 <= i < |children| ==> r[i] == children[i].firstCol
  {
    seq(|children|, i requires 0 <= i < |children| => children[i].firstCol)
  }

  /** The sorted, duplicate-free first columns of the child areas (`childStartColumns`). */
  function ChildStartColumns(children: seq<AreaRef>): seq<int> {
    SortedDistinct(FirstColumns(children))
  }

  /** ChildStartColumns is ascending and holds exactly the child areas' first columns. */
  lemma ChildStartColumnsExact(children: seq<AreaRef>)
    ensures StrictlyIncreasing(ChildStartColumns(children))
    ensures forall c :: c in ChildStartColumns(children) <==> exists i :: 0 <= i < |children| && children[i].firstCol == c
  {
    var firsts := FirstColumns(children);
    forall c | c in firsts ensures exists i :: 0 <= i < |children| && children[i].firstCol == c {
      var i :| 0 <= i < |firsts| && firsts[i] == c;
    }
    forall c | exists i :: 0 <= i < |children| && children[i].firstCol == c ensures c in firsts {
      var i :| 0 <= i < |children| && children[i].firstCol == c;
      assert firsts[i] == c;
    }
  }

  /** The elements of `s` that do not occur in `excluded`, in their order in `s`. */
  function Without(s: seq<int>, excluded: seq<int>): (r: seq<int>)
    ensures forall c :: c in r <==> c in s && c !in excluded
    ensures StrictlyIncreasing(s) ==> StrictlyIncreasing(r)
  {
    if s == [] then []
    else
      var rest := Without(s[1..], excluded);
      assert StrictlyIncreasing(s) ==> StrictlyIncreasing(s[1..]) && forall c :: c in rest ==> s[0] < c by {
        if StrictlyIncreasing(s) {
          forall c | c in rest ensures s[0] < c {
            var j :| 0 <= j < |s[1..]| && s[1..][j] == c;
            assert s[j + 1] == c;
          }
        }
      }
      if s[0] in excluded then rest
      else
        assert StrictlyIncreasing(s) ==> StrictlyIncreasing([s[0]] + rest) by {
          if StrictlyIncreasing(s) { ConsIncreasing(s[0], rest); }
        }
        [s[0]] + rest
  }

  /**
    * The merge columns of MergeCellListener: the parent columns, in
    * ascending order, that lie in no child area's column range.
    */
  function MergeColumns(parent: AreaRef, children: seq<AreaRef>): seq<int> {
    Without(Range(parent.firstCol, parent.lastCol + 1), ChildColumns(children))
  }

  /**
    * MergeColumns is ascending and holds exactly the parent columns outside
    * every child range; in particular it shares no column with any child area.
    */
  lemma MergeColumnsExact(parent: AreaRef, children: seq<AreaRef>)
    ensures StrictlyIncreasing(MergeColumns(parent, children))
    ensures forall c :: c in MergeColumns(parent, children) <==>
      parent.firstCol <= c <= parent.lastCol && !InSomeChild(children, c)
    ensures forall c, i :: c in MergeColumns(parent, children) && 0 <= i < |children| ==>
      !(children[i].firstCol <= c <= children[i].lastCol)
  {
  }

  /** Each step of a strictly increasing sequence of ints climbs by at least one. */
  lemma {:induction false} IncreasingSpread(r: seq<int>, i: int)
    requires StrictlyIncreasing(r) && 0 <= i < |r|
    ensures r[0] + i <= r[i]
  {
    if i > 0 { IncreasingSpread(r, i - 1); }
  }

  /** The only strictly increasing sequence holding exactly 0 and 1. */
  lemma ZeroOne(r: seq<int>)
    requires StrictlyIncreasing(r)
    requires forall c :: c in r <==> c == 0 || c == 1
    ensures r == [0, 1]
  {
    assert 0 in r && 1 in r;
    var last := |r| - 1;
    assert r[0] in r && r[last] in r;
    var z :| 0 <= z < |r| && r[z] == 0;
    var o :| 0 <= o < |r| && r[o] == 1;
    assert r[0] <= r[z] && r[o] <= r[last];
    IncreasingSpread(r, last);
  }

  /** A parent over columns 0..4 whose child spans columns 2..3 and whose grandchild spans 3..4. */
  lemma NestedChildrenExample(parent: AreaRef, children: seq<AreaRef>)
    requires parent.firstCol == 0 && parent.lastCol == 4
    requires |children| == 2
    requires children[0].firstCol == 2 && children[0].lastCol == 3
    requires children[1].firstCol == 3 && children[1].lastCol == 4
    ensures MergeColumns(parent, children) == [0, 1]
  {
    var r := MergeColumns(parent, children);
    MergeColumnsExact(parent, children);
    forall c ensures c in r <==> c == 0 || c == 1 {
      if 2 <= c <= 3 {
        assert InSomeChild(children, c) by { assert children[0].firstCol <= c <= children[0].lastCol; }
      } else if c == 4 {
        assert InSomeChild(children, c) by { assert children[1].firstCol <= c <= children[1].lastCol; }
      }
    }
    ZeroOne(r);
  }
}
