/**
 * The tiled image display (src/ui/widget/tiled_image_display.rs): fills its
 * position with copies of a texture (or of an area of it), left to right and
 * top to bottom, cutting the last column and row short. Its draw is modelled
 * as the list of (source, destination) copies it hands to the backend.
 */
module TiledImage {
  import opened Ints
  import opened Wrappers
  import opened Tiling
  import TextureRects
  import Widgets

  /** One call of `txt.copy(src, dst)`. */
  datatype Copy = Copy(src: TextureRects.TextureRect, dst: TextureRects.TextureRect)

  /** The copy for one row piece and one column piece: no scaling, always from the source origin. */
  function Cell(origin: (int, int), pos: TextureRects.TextureRect, row: Segment, col: Segment): Copy
  {
    Copy(TextureRects.TextureRect(origin.0, origin.1, col.len, row.len),
         TextureRects.TextureRect(pos.x + col.offset, pos.y + row.offset, col.len, row.len))
  }

  /** One row of copies, left to right. */
  function RowCopies(origin: (int, int), pos: TextureRects.TextureRect, row: Segment, cols: seq<Segment>): seq<Copy>
  {
    if |cols| == 0 then [] else [Cell(origin, pos, row, cols[0])] + RowCopies(origin, pos, row, cols[1..])
  }

  /** The rows of copies, top to bottom. */
  function Grid(origin: (int, int), pos: TextureRects.TextureRect, rows: seq<Segment>, cols: seq<Segment>): seq<Copy>
  {
    if |rows| == 0 then [] else RowCopies(origin, pos, rows[0], cols) + Grid(origin, pos, rows[1..], cols)
  }

  /** Where copies are taken from: the area's origin, or the texture's. */
  function TileOrigin(background: TextureRects.TextureSource): (int, int)
  {
    match background
    case WholeTexture => (0, 0)
    case Area(a) => (a.x, a.y)
  }

  /** The tile size: the area's size, or the whole texture's. */
  function TileSize(background: TextureRects.TextureSource, textureSize: (NonZeroU32, NonZeroU32)): (NonZeroU32, NonZeroU32)
  {
    match background
    case WholeTexture => textureSize
    case Area(a) => (a.w, a.h)
  }

  /** The copies that fill pos with tiles of the given size. */
  function Tiles(origin: (int, int), tile: (NonZeroU32, NonZeroU32), pos: TextureRects.TextureRect): seq<Copy>
  {
    Grid(origin, pos, SegmentsFrom(0, pos.h, tile.1), SegmentsFrom(0, pos.w, tile.0))
  }

  lemma {:induction false} GridLength(origin: (int, int), pos: TextureRects.TextureRect, rows: seq<Segment>, cols: seq<Segment>)
    ensures |Grid(origin, pos, rows, cols)| == |rows| * |cols|
  {
    if |rows| > 0 {
      RowIndex(origin, pos, rows[0], cols);
      GridLength(origin, pos, rows[1..], cols);
      MulSucc(|rows| - 1, |cols|);
    }
  }

  /** Row-major layout: the copy at i * |cols| + j is the cell of row i and column j. */
  lemma {:induction false} GridIndex(origin: (int, int), pos: TextureRects.TextureRect, rows: seq<Segment>, cols: seq<Segment>, i: int, j: int)
    requires 0 <= i < |rows| && 0 <= j < |cols|
    ensures i * |cols| + j < |Grid(origin, pos, rows, cols)|
    ensures Grid(origin, pos, rows, cols)[i * |cols| + j] == Cell(origin, pos, rows[i], cols[j])
  {
    var g := Grid(origin, pos, rows, cols);
    RowIndex(origin, pos, rows[0], cols);
    GridLength(origin, pos, rows, cols);
    if i == 0 {
      assert g[j] == RowCopies(origin, pos, rows[0], cols)[j];
    } else {
      GridIndex(origin, pos, rows[1..], cols, i - 1, j);
      var k := (i - 1) * |cols| + j;
      MulSucc(i - 1, |cols|);
      assert g[|cols| + k] == Grid(origin, pos, rows[1..], cols)[k];
      assert rows[1..][i - 1] == rows[i];
    }
  }

  lemma {:induction false} RowIndex(origin: (int, int), pos: TextureRects.TextureRect, row: Segment, cols: seq<Segment>)
    ensures |RowCopies(origin, pos, row, cols)| == |cols|
    ensures forall j :: 0 <= j < |cols| ==> RowCopies(origin, pos, row, cols)[j] == Cell(origin, pos, row, cols[j])
  {
    if |cols| > 0 {
      RowIndex(origin, pos, row, cols[1..]);
    }
  }

  /** Every copy of the grid is the cell of some row and column, at that row-major index. */
  lemma {:induction false} GridCellOf(origin: (int, int), pos: TextureRects.TextureRect, rows: seq<Segment>, cols: seq<Segment>, k: int)
    returns (i: nat, j: nat)
    requires 0 <= k < |Grid(origin, pos, rows, cols)|
    ensures i < |rows| && j < |cols| && k == i * |cols| + j
    ensures Grid(origin, pos, rows, cols)[k] == Cell(origin, pos, rows[i], cols[j])
  {
    var g := Grid(origin, pos, rows, cols);
    RowIndex(origin, pos, rows[0], cols);
    if k < |cols| {
      i, j := 0, k;
      assert g[k] == RowCopies(origin, pos, rows[0], cols)[k];
    } else {
      var i', j' := GridCellOf(origin, pos, rows[1..], cols, k - |cols|);
      assert g[k] == Grid(origin, pos, rows[1..], cols)[k - |cols|];
      assert rows[1..][i'] == rows[i' + 1];
      i, j := i' + 1, j';
      MulSucc(i', |cols|);
    }
  }

  /** Each copy keeps its size (src and dst agree) and starts at the source origin. */
  lemma TilesNoScaling(origin: (int, int), tile: (NonZeroU32, NonZeroU32), pos: TextureRects.TextureRect, k: int)
    requires 0 <= k < |Tiles(origin, tile, pos)|
    ensures var c := Tiles(origin, tile, pos)[k];
      c.src.w == c.dst.w && c.src.h == c.dst.h && c.src.x == origin.0 && c.src.y == origin.1
  {
    var i, j := GridCellOf(origin, pos, SegmentsFrom(0, pos.h, tile.1), SegmentsFrom(0, pos.w, tile.0), k);
  }

  /** Tile widths: full columns have the tile width and the last column the remainder of pos.w. */
  lemma TilesSizes(origin: (int, int), tile: (NonZeroU32, NonZeroU32), pos: TextureRects.TextureRect, k: int)
    requires 0 <= k < |Tiles(origin, tile, pos)|
    ensures var c := Tiles(origin, tile, pos)[k];
      var rows := SegmentsFrom(0, pos.h, tile.1);
      var cols := SegmentsFrom(0, pos.w, tile.0);
      && (c.dst.x == pos.x + (k % |cols|) * tile.0 && c.dst.y == pos.y + (k / |cols|) * tile.1)
      && (k % |cols| < |cols| - 1 ==> c.dst.w == tile.0)
      && (k % |cols| == |cols| - 1 ==> c.dst.w == (if pos.w % tile.0 == 0 then tile.0 else pos.w % tile.0))
      && (k / |cols| < |rows| - 1 ==> c.dst.h == tile.1)
      && (k / |cols| == |rows| - 1 ==> c.dst.h == (if pos.h % tile.1 == 0 then tile.1 else pos.h % tile.1))
  {
    var rows := SegmentsFrom(0, pos.h, tile.1);
    var cols := SegmentsFrom(0, pos.w, tile.0);
    var i, j := GridCellOf(origin, pos, rows, cols, k);
    EuclidUnique(k, |cols|, i, j);
    SegmentsShape(0, pos.h, tile.1);
    SegmentsShape(0, pos.w, tile.0);
    LastPiece(0, pos.h, tile.1);
    LastPiece(0, pos.w, tile.0);
  }

  /** The number of copies is the ceiling of W / tw times the ceiling of H / th. */
  lemma TilesCount(origin: (int, int), tile: (NonZeroU32, NonZeroU32), pos: TextureRects.TextureRect)
    ensures var rows := |SegmentsFrom(0, pos.h, tile.1)|;
      var cols := |SegmentsFrom(0, pos.w, tile.0)|;
      && |Tiles(origin, tile, pos)| == rows * cols
      && (rows - 1) * tile.1 < pos.h <= rows * tile.1
      && (cols - 1) * tile.0 < pos.w <= cols * tile.0
  {
    GridLength(origin, pos, SegmentsFrom(0, pos.h, tile.1), SegmentsFrom(0, pos.w, tile.0));
    SegmentsCount(0, pos.h, tile.1);
    SegmentsCount(0, pos.w, tile.0);
  }

  /** Every point of a copy's destination lies in pos. */
  lemma TilesInside(origin: (int, int), tile: (NonZeroU32, NonZeroU32), pos: TextureRects.TextureRect, k: int, px: int, py: int)
    requires 0 <= k < |Tiles(origin, tile, pos)|
    requires TextureRects.ContainsPoint(Tiles(origin, tile, pos)[k].dst, px, py)
    ensures TextureRects.ContainsPoint(pos, px, py)
  {
    var rows := SegmentsFrom(0, pos.h, tile.1);
    var cols := SegmentsFrom(0, pos.w, tile.0);
    var i, j := GridCellOf(origin, pos, rows, cols, k);
    PieceInSpan(0, pos.w, tile.0, px - pos.x, j);
    PieceInSpan(0, pos.h, tile.1, py - pos.y, i);
  }

  /** Every point of pos lies in some copy's destination. */
  lemma TilesCover(origin: (int, int), tile: (NonZeroU32, NonZeroU32), pos: TextureRects.TextureRect, px: int, py: int)
    returns (k: nat)
    requires TextureRects.ContainsPoint(pos, px, py)
    ensures k < |Tiles(origin, tile, pos)| && TextureRects.ContainsPoint(Tiles(origin, tile, pos)[k].dst, px, py)
  {
    var rows := SegmentsFrom(0, pos.h, tile.1);
    var cols := SegmentsFrom(0, pos.w, tile.0);
    var j := PieceOf(0, pos.w, tile.0, px - pos.x);
    var i := PieceOf(0, pos.h, tile.1, py - pos.y);
    GridIndex(origin, pos, rows, cols, i, j);
    k := i * |cols| + j;
  }

  /** No point lies in two copies' destinations. */
  lemma TilesDisjoint(origin: (int, int), tile: (NonZeroU32, NonZeroU32), pos: TextureRects.TextureRect, k1: int, k2: int, px: int, py: int)
    requires 0 <= k1 < |Tiles(origin, tile, pos)| && 0 <= k2 < |Tiles(origin, tile, pos)|
    requires TextureRects.ContainsPoint(Tiles(origin, tile, pos)[k1].dst, px, py)
    requires TextureRects.ContainsPoint(Tiles(origin, tile, pos)[k2].dst, px, py)
    ensures k1 == k2
  {
    var rows := SegmentsFrom(0, pos.h, tile.1);
    var cols := SegmentsFrom(0, pos.w, tile.0);
    var i1, j1 := GridCellOf(origin, pos, rows, cols, k1);
    var i2, j2 := GridCellOf(origin, pos, rows, cols, k2);
    UniquePiece(0, pos.w, tile.0, px - pos.x, j1, j2);
    UniquePiece(0, pos.h, tile.1, py - pos.y, i1, i2);
  }

  /** The inner loop of `draw`: one row, advancing x_start a tile width at a time. */
  method DrawRow(origin: (int, int), pos: TextureRects.TextureRect, tileW: NonZeroU32, row: Segment) returns (copies: seq<Copy>)
    ensures copies == RowCopies(origin, pos, row, SegmentsFrom(0, pos.w, tileW))
  {
    copies := [];
    var posWidth: int := pos.w;
    var xStart := 0;
    while true
      invariant copies + RowCopies(origin, pos, row, SegmentsFrom(xStart, posWidth - xStart, tileW))
             == RowCopies(origin, pos, row, SegmentsFrom(0, posWidth, tileW))
      decreases posWidth - xStart
    {
      var widthLeft := posWidth - xStart;
      if widthLeft >= tileW {
        copies := copies + [Copy(TextureRects.TextureRect(origin.0, origin.1, tileW, row.len),
                                 TextureRects.TextureRect(xStart + pos.x, row.offset + pos.y, tileW, row.len))];
      } else {
        if widthLeft > 0 {
          copies := copies + [Copy(TextureRects.TextureRect(origin.0, origin.1, widthLeft, row.len),
                                   TextureRects.TextureRect(xStart + pos.x, row.offset + pos.y, widthLeft, row.len))];
        }
        break;
      }
      xStart := xStart + tileW;
    }
  }

  /** A span with room left loses its first row to the next row's span. */
  lemma GridStep(origin: (int, int), pos: TextureRects.TextureRect, y: int, left: int, th: NonZeroU32, cols: seq<Segment>)
    requires left > 0
    ensures Grid(origin, pos, SegmentsFrom(y, left, th), cols)
         == RowCopies(origin, pos, Segment(y, if left >= th then th else left), cols) + Grid(origin, pos, SegmentsFrom(y + th, left - th, th), cols)
  {
    var rows := SegmentsFrom(y, left, th);
    var rest := SegmentsFrom(y + th, left - th, th);
    if left > th {
      assert rows == [Segment(y, th)] + rest;
      assert rows[1..] == rest;
    } else {
      assert rows == [Segment(y, left)];
      assert rows[1..] == [];
      assert rest == [];
    }
  }

  /** The outer loop of `draw`: the rows, advancing y_start a tile height at a time. */
  method DrawTiles(origin: (int, int), tile: (NonZeroU32, NonZeroU32), pos: TextureRects.TextureRect) returns (copies: seq<Copy>)
    ensures copies == Tiles(origin, tile, pos)
  {
    ghost var cols := SegmentsFrom(0, pos.w, tile.0);
    copies := [];
    var posHeight: int := pos.h;
    var yStart := 0;
    while true
      invariant copies + Grid(origin, pos, SegmentsFrom(yStart, posHeight - yStart, tile.1), cols) == Tiles(origin, tile, pos)
      decreases posHeight - yStart
    {
      var heightLeft := posHeight - yStart;
      if heightLeft >= tile.1 {
        var row := DrawRow(origin, pos, tile.0, Segment(yStart, tile.1));
        GridStep(origin, pos, yStart, heightLeft, tile.1, cols);
        copies := copies + row;
      } else {
        if heightLeft > 0 {
          var row := DrawRow(origin, pos, tile.0, Segment(yStart, heightLeft));
          GridStep(origin, pos, yStart, heightLeft, tile.1, cols);
          assert row + [] == row;
          copies := copies + row;
        } else {
          assert copies + [] == copies;
        }
        break;
      }
      yStart := yStart + tile.1;
    }
  }

  class TiledImageDisplay {
    /** The texture and the part of it that is tiled. */
    const background: TextureRects.TextureSource
    /** The position stored by update for draw. */
    var backgroundDrawPos: Widgets.FRect

    constructor (background: TextureRects.TextureSource)
      ensures this.background == background && backgroundDrawPos == Widgets.FRect(0.0, 0.0, 0.0, 0.0)
    {
      this.background := background;
      backgroundDrawPos := Widgets.FRect(0.0, 0.0, 0.0, 0.0);
    }

    /** `update`: records the position and consumes nothing. */
    method Update(event: Widgets.WidgetUpdateEvent) returns (r: Result<bool, string>)
      modifies this
      ensures backgroundDrawPos == event.position && r == Ok(false)
    {
      backgroundDrawPos := event.position;
      r := Ok(false);
    }

    /**
     * `draw`. `pos` is the stored position on the integer grid, `image` the
     * outcome of loading the texture and `textureSize` of asking its size.
     */
    method Draw(pos: Option<TextureRects.TextureRect>, image: Result<(), string>, textureSize: Result<(NonZeroU32, NonZeroU32), string>)
      returns (r: Result<seq<Copy>, string>)
      ensures pos.None? ==> r == Ok([])
      ensures pos.Some? && image.Err? ==> r == Err(image.error)
      ensures pos.Some? && image.Ok? && background.WholeTexture? && textureSize.Err? ==> r == Err(textureSize.error)
      ensures pos.Some? && image.Ok? && (background.Area? || textureSize.Ok?) ==>
        r == Ok(Tiles(TileOrigin(background), TileSize(background, if background.Area? then (1, 1) else textureSize.value), pos.value))
    {
      if pos.None? {
        return Ok([]);
      }
      var p := pos.value;
      if image.Err? {
        return Err(image.error);
      }
      var size: (NonZeroU32, NonZeroU32);
      match background {
        case WholeTexture =>
          if textureSize.Err? {
            return Err(textureSize.error);
          }
          size := textureSize.value;
        case Area(a) =>
          size := (a.w, a.h);
      }
      var copies := DrawTiles(TileOrigin(background), size, p);
      r := Ok(copies);
    }
  }
}
