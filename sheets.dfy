/**
  * The part of a spreadsheet document the merge engine touches: which rows
  * and cells exist, the borders of each existing cell's style, the list of
  * merged regions, and the borders painted around regions.
  */
module Sheets {
  import opened Wrappers

  /** The line styles a cell border can have. */
  datatype BorderStyle =
    | NoBorder | Thin | Medium | Dashed | Dotted | Thick | Double | Hair
    | MediumDashed | DashDot | MediumDashDot | DashDotDot | MediumDashDotDot | SlantedDashDot

  /** The four border sides of a cell style. */
  datatype Borders = Borders(top: BorderStyle, right: BorderStyle, bottom: BorderStyle, left: BorderStyle)

  /** The borders used when the cell that should supply them does not exist. */
  const AllThin: Borders := Borders(Thin, Thin, Thin, Thin)

  /** An inclusive rectangle of rows and columns (a cell range address). */
  datatype Region = Region(firstRow: int, lastRow: int, firstCol: int, lastCol: int)

  /** The four borders set around one region, one record per region. */
  datatype Painting = Painting(region: Region, borders: Borders)

  /** One worksheet. Rows and cells are fixed here; merged regions and paintings grow. */
  class Sheet {
    const name: string
    /** The rows that exist: looking any other row up yields null. */
    const rows: set<int>
    /** The cells that exist, by (row, column), with the borders of their style. */
    const cells: map<(int, int), Borders>
    var merged: seq<Region>
    var painted: seq<Painting>

    constructor(name: string, rows: set<int>, cells: map<(int, int), Borders>)
      ensures this.name == name && this.rows == rows && this.cells == cells
      ensures merged == [] && painted == []
    {
      this.name := name;
      this.rows := rows;
      this.cells := cells;
      merged := [];
      painted := [];
    }

    /** The borders of the cell at (row, col), or None when that cell does not exist. */
    function CellAt(row: int, col: int): Option<Borders> {
      if (row, col) in cells then Some(cells[(row, col)]) else None
    }

    /** Looks a cell up through its row, which must exist. */
    method GetCell(row: int, col: int) returns (cell: Option<Borders>)
      requires row in rows
      ensures cell == CellAt(row, col)
    {
      cell := CellAt(row, col);
    }

    method AddMergedRegion(region: Region)
      modifies this
      ensures merged == old(merged) + [region]
      ensures painted == old(painted)
    {
      merged := merged + [region];
    }

    /** Sets the top, right, bottom and left borders around a region. */
    method SetRegionBorders(region: Region, borders: Borders)
      modifies this
      ensures painted == old(painted) + [Painting(region, borders)]
      ensures merged == old(merged)
    {
      painted := painted + [Painting(region, borders)];
    }
  }

  /** A workbook: its sheets by name. */
  class Workbook {
    const sheets: map<string, Sheet>

    constructor(sheets: map<string, Sheet>)
      ensures this.sheets == sheets
    {
      this.sheets := sheets;
    }

    /** The sheet with the given name, or null when there is none. */
    function GetSheet(name: string): (s: Sheet?)
      ensures s != null <==> name in sheets
      ensures s != null ==> s == sheets[name]
    {
      if name in sheets then sheets[name] else null
    }
  }
}
