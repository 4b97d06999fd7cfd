/** A grid of equally sized tiles cut from one image
    (src/Component/Spritesheet.java): tile k sits in row k div columns and
    column k mod columns, tiles are numbered left to right, top to bottom. */
module Spritesheets {
  import opened Results
  import opened Sprites

  datatype Spritesheet = Spritesheet(sprites: seq<Sprite>, tileWidth: int, tileHeight: int, spacing: int)

  /** Tile k of a sheet with `columns` tiles per row. */
  function Tile(parent: Image, pictureFile: string, tileWidth: int, tileHeight: int, spacing: int,
                columns: int, k: nat): (s: Sprite)
    requires columns >= 1
    ensures s.isSubsprite && s.pictureFile == pictureFile && s.index == k
    ensures s.row * columns + s.column == k && 0 <= s.column < columns
    ensures s.image == Sub(parent, s.column * (tileWidth + spacing), s.row * (tileHeight + spacing), tileWidth, tileHeight)
  {
    var row := k / columns;
    var column := k % columns;
    FromTile(Sub(parent, column * (tileWidth + spacing), row * (tileHeight + spacing), tileWidth, tileHeight),
      row, column, k, pictureFile)
  }

  /** The tiles the constructor produces: `size` of them (none for a
      non-positive size). A sheet with no column and a positive size never
      finishes building. */
  function Tiles(parent: Image, pictureFile: string, tileWidth: int, tileHeight: int, spacing: int,
                 columns: int, size: int): (ts: seq<Sprite>)
    requires columns >= 1 || size <= 0
    ensures |ts| == (if size < 0 then 0 else size)
    ensures forall k :: 0 <= k < |ts| ==> columns >= 1 && ts[k] == Tile(parent, pictureFile, tileWidth, tileHeight, spacing, columns, k)
  {
    var n := if size < 0 then 0 else size;
    seq(n, k requires 0 <= k < n => Tile(parent, pictureFile, tileWidth, tileHeight, spacing, columns, k))
  }

  /** getSubimage's test: a region of positive size lying inside the image.
      BufferedImage.getSubimage throws RasterFormatException otherwise. */
  predicate Fits(parent: Image, x: int, y: int, width: int, height: int) {
    width > 0 && height > 0 && x >= 0 && y >= 0 && x + width <= parent.width && y + height <= parent.height
  }

  /** Tile k's region fits in the parent image. */
  predicate TileFits(parent: Image, tileWidth: int, tileHeight: int, spacing: int, columns: int, k: nat)
    requires columns >= 1
  {
    Fits(parent, (k % columns) * (tileWidth + spacing), (k / columns) * (tileHeight + spacing), tileWidth, tileHeight)
  }

  /** Every one of the `size` tiles fits. */
  predicate AllFit(parent: Image, tileWidth: int, tileHeight: int, spacing: int, columns: int, size: int)
    requires columns >= 1 || size <= 0
  {
    forall k: nat :: k < size ==> TileFits(parent, tileWidth, tileHeight, spacing, columns, k)
  }

  /** Tile m is the first of the `size` tiles that does not fit. */
  predicate MisfitAt(parent: Image, tileWidth: int, tileHeight: int, spacing: int, columns: int, size: int, m: int)
    requires columns >= 1 || size <= 0
  {
    0 <= m < size && !TileFits(parent, tileWidth, tileHeight, spacing, columns, m) &&
    forall k: nat :: k < m ==> TileFits(parent, tileWidth, tileHeight, spacing, columns, k)
  }

  /** The first tile from k on that does not fit, or `size` when they all
      do. */
  function FirstMisfit(parent: Image, tileWidth: int, tileHeight: int, spacing: int, columns: int, size: int, k: nat): (m: nat)
    requires columns >= 1 || size <= 0
    ensures k <= m && (m <= size || m == k)
    ensures forall j: nat :: k <= j < m ==> TileFits(parent, tileWidth, tileHeight, spacing, columns, j)
    ensures m < size ==> !TileFits(parent, tileWidth, tileHeight, spacing, columns, m)
    decreases size - k
  {
    if k >= size then k
    else if !TileFits(parent, tileWidth, tileHeight, spacing, columns, k) then k
    else FirstMisfit(parent, tileWidth, tileHeight, spacing, columns, size, k + 1)
  }

  /** There is one first misfit. */
  lemma MisfitUnique(parent: Image, tileWidth: int, tileHeight: int, spacing: int, columns: int, size: int, m: int, m': int)
    requires columns >= 1 || size <= 0
    requires MisfitAt(parent, tileWidth, tileHeight, spacing, columns, size, m)
    requires MisfitAt(parent, tileWidth, tileHeight, spacing, columns, size, m')
    ensures m == m'
  {
  }

  /** The spritesheet constructor, once the parent sprite is at hand: the
      first tile whose region leaves the parent image stops it. */
  function NewSpritesheet(parent: Sprite, tileWidth: int, tileHeight: int, spacing: int,
                          columns: int, size: int, pictureFile: string): (r: Result<Spritesheet>)
    requires columns >= 1 || size <= 0
    ensures r.Ok? <==> AllFit(parent.image, tileWidth, tileHeight, spacing, columns, size)
    ensures r.Ok? ==> r.value.tileWidth == tileWidth && r.value.tileHeight == tileHeight && r.value.spacing == spacing
    ensures r.Ok? ==> r.value.sprites == Tiles(parent.image, pictureFile, tileWidth, tileHeight, spacing, columns, size)
    ensures r.Fail? ==> r.error.SubimageOutside? && MisfitAt(parent.image, tileWidth, tileHeight, spacing, columns, size, r.error.tile)
  {
    var m := FirstMisfit(parent.image, tileWidth, tileHeight, spacing, columns, size, 0);
    if m < size then Fail(SubimageOutside(m))
    else Ok(Spritesheet(Tiles(parent.image, pictureFile, tileWidth, tileHeight, spacing, columns, size), tileWidth, tileHeight, spacing))
  }

  /** The constructor, as written: a row counter, and an inner pass over the
      columns that stops as soon as `size` tiles exist. */
  method Layout(parent: Sprite, tileWidth: int, tileHeight: int, spacing: int,
                columns: int, size: int, pictureFile: string) returns (r: Result<Spritesheet>)
    requires columns >= 1 || size <= 0
    ensures r == NewSpritesheet(parent, tileWidth, tileHeight, spacing, columns, size, pictureFile)
  {
    var sprites := [];
    var row := 0;
    var count := 0;
    while count < size
      invariant 0 <= count && (count <= size || count == 0)
      invariant count < size ==> count == row * columns
      invariant |sprites| == count
      invariant forall k :: 0 <= k < count ==> sprites[k] == Tile(parent.image, pictureFile, tileWidth, tileHeight, spacing, columns, k)
      invariant forall k: nat :: k < count ==> TileFits(parent.image, tileWidth, tileHeight, spacing, columns, k)
      decreases size - count
    {
      var i := 0;
      while i < columns
        invariant 0 <= i <= columns
        invariant count == row * columns + i && count <= size
        invariant |sprites| == count
        invariant forall k :: 0 <= k < count ==> sprites[k] == Tile(parent.image, pictureFile, tileWidth, tileHeight, spacing, columns, k)
        invariant forall k: nat :: k < count ==> TileFits(parent.image, tileWidth, tileHeight, spacing, columns, k)
        decreases columns - i
      {
        if count >= size {
          break;
        }
        DivMod(row, columns, i);
        var x := i * (tileWidth + spacing);
        var y := row * (tileHeight + spacing);
        if !Fits(parent.image, x, y, tileWidth, tileHeight) {
          assert !TileFits(parent.image, tileWidth, tileHeight, spacing, columns, count);
          var expected := NewSpritesheet(parent, tileWidth, tileHeight, spacing, columns, size, pictureFile);
          MisfitUnique(parent.image, tileWidth, tileHeight, spacing, columns, size, count, expected.error.tile);
          return Fail(SubimageOutside(count));
        }
        var tile := FromTile(Sub(parent.image, x, y, tileWidth, tileHeight), row, i, count, pictureFile);
        sprites := sprites + [tile];
        count := count + 1;
        if count > size - 1 {
          break;
        }
        i := i + 1;
      }
      row := row + 1;
    }
    TilesAgree(parent.image, pictureFile, tileWidth, tileHeight, spacing, columns, size, sprites);
    r := Ok(Spritesheet(sprites, tileWidth, tileHeight, spacing));
  }

  /** Tile row*columns + i lies in row `row` and column `i`. */
  lemma DivMod(row: int, columns: int, i: int)
    requires row >= 0 && columns >= 1 && 0 <= i < columns
    ensures (row * columns + i) / columns == row && (row * columns + i) % columns == i
  {
    var k := row * columns + i;
    var q := k / columns;
    var r := k % columns;
    assert k == q * columns + r && 0 <= r < columns;
    assert (q - row) * columns == i - r;
    if q > row {
      MulAtLeast(q - row, columns);
    } else if q < row {
      MulAtLeast(row - q, columns);
    }
  }

  lemma MulAtLeast(a: int, b: int)
    requires a >= 1 && b >= 1
    ensures a * b >= b
  {
  }

  lemma TilesAgree(parent: Image, pictureFile: string, tileWidth: int, tileHeight: int, spacing: int,
                   columns: int, size: int, sprites: seq<Sprite>)
    requires columns >= 1 || size <= 0
    requires |sprites| == (if size < 0 then 0 else size)
    requires forall k :: 0 <= k < |sprites| ==> columns >= 1 && sprites[k] == Tile(parent, pictureFile, tileWidth, tileHeight, spacing, columns, k)
    ensures sprites == Tiles(parent, pictureFile, tileWidth, tileHeight, spacing, columns, size)
  {
  }

  /** Every tile is a canonical subsprite of the parent image, of tile size. */
  lemma TilesAreSubsprites(parent: Image, pictureFile: string, tileWidth: int, tileHeight: int, spacing: int,
                           columns: int, size: int, k: nat)
    requires columns >= 1 && 0 <= k < size
    ensures var s := Tiles(parent, pictureFile, tileWidth, tileHeight, spacing, columns, size)[k];
      s.isSubsprite && Canonical(s) && s.pictureFile == pictureFile && s.image.Sub? && s.image.parent == parent &&
      s.width == tileWidth && s.height == tileHeight
  {
  }

  /** getSprite: list access, which throws outside the list. */
  function GetSprite(sheet: Spritesheet, index: int): (r: Result<Sprite>)
    ensures r.Ok? <==> 0 <= index < |sheet.sprites|
    ensures r.Ok? ==> r.value == sheet.sprites[index]
    ensures r.Fail? ==> r.error == IndexOutOfRange(index)
  {
    if 0 <= index < |sheet.sprites| then Ok(sheet.sprites[index]) else Fail(IndexOutOfRange(index))
  }
}
