/** A drawable image and where it came from (src/Component/Sprite.java): the
    image itself is an opaque handle, the sprite remembers the file it was
    loaded from and, for a tile of a spritesheet, the tile's row, column and
    index. Also the persisted "Sprite" object. */
module Sprites {
  import opened Serializer

  /** An image handle. Pixels are not modelled; only sizes and provenance. */
  datatype Image =
    | Loaded(id: nat, width: int, height: int)                       // read from a file
    | Sub(parent: Image, x: int, y: int, width: int, height: int)    // a region of another image

  datatype Sprite = Sprite(image: Image, pictureFile: string, width: int, height: int,
                           isSubsprite: bool, row: int, column: int, index: int)

  /** The constructor taking an image already in memory. */
  function FromImage(image: Image, pictureFile: string): (s: Sprite)
    ensures s.image == image && s.pictureFile == pictureFile && !s.isSubsprite
    ensures Canonical(s) && s.row == 0 && s.column == 0 && s.index == 0
  {
    Sprite(image, pictureFile, image.width, image.height, false, 0, 0, 0)
  }

  /** The constructor for a tile of a spritesheet. */
  function FromTile(image: Image, row: int, column: int, index: int, pictureFile: string): (s: Sprite)
    ensures s.image == image && s.pictureFile == pictureFile && s.isSubsprite
    ensures Canonical(s) && s.row == row && s.column == column && s.index == index
  {
    Sprite(image, pictureFile, image.width, image.height, true, row, column, index)
  }

  /** A sprite as one of the two constructors leaves it: its size is its
      image's, and a whole-image sprite has row, column and index 0. */
  predicate Canonical(s: Sprite) {
    s.width == s.image.width && s.height == s.image.height &&
    (!s.isSubsprite ==> s.row == 0 && s.column == 0 && s.index == 0)
  }

  /** copy: rebuilt through the constructor matching isSubsprite. */
  function Copy(s: Sprite): (r: Sprite)
    ensures r.image == s.image && r.pictureFile == s.pictureFile && r.isSubsprite == s.isSubsprite
    ensures s.isSubsprite ==> r.row == s.row && r.column == s.column && r.index == s.index
    ensures Canonical(r)
  {
    if !s.isSubsprite then FromImage(s.image, s.pictureFile)
    else FromTile(s.image, s.row, s.column, s.index, s.pictureFile)
  }

  /** A copy is the sprite itself exactly when the sprite is canonical. */
  lemma CopyFixesCanonical(s: Sprite)
    ensures Copy(s) == s <==> Canonical(s)
  {
  }

  lemma CopyIdempotent(s: Sprite)
    ensures Copy(Copy(s)) == Copy(s)
  {
  }

  /** The members after the opening line, nested from the right: isSubsprite,
      FilePath, and for a tile row, column and index; the last member has no
      comma; then the closing brace. */
  function Members(s: Sprite, tabs: int): string {
    AddBooleanProperty("isSubsprite", s.isSubsprite, tabs + 1, true, true) + PathPart(s, tabs)
  }

  function PathPart(s: Sprite, tabs: int): string {
    if s.isSubsprite then AddStringProperty("FilePath", s.pictureFile, tabs + 1, true, true) + TilePart(s, tabs)
    else AddStringProperty("FilePath", s.pictureFile, tabs + 1, true, false) + CloseObjectProperty(tabs)
  }

  function TilePart(s: Sprite, tabs: int): string {
    AddIntProperty("row", s.row, tabs + 1, true, true) + (AddIntProperty("column", s.column, tabs + 1, true, true)
      + (AddIntProperty("index", s.index, tabs + 1, true, false) + CloseObjectProperty(tabs)))
  }

  function Serialize(s: Sprite, tabs: int): (t: string)
    ensures |t| > 0 && t[|t| - 1] == '}'
  {
    BeginObjectProperty("Sprite", tabs) + Members(s, tabs)
  }

  /** The writer's order: isSubsprite, FilePath, then row, column and index
      for a tile; every member but the last is followed by ",\n". */
  lemma SerializeOrder(s: Sprite, tabs: int)
    ensures s.isSubsprite ==>
      Serialize(s, tabs) == BeginObjectProperty("Sprite", tabs)
        + AddBooleanProperty("isSubsprite", true, tabs + 1, true, true)
        + AddStringProperty("FilePath", s.pictureFile, tabs + 1, true, true)
        + AddIntProperty("row", s.row, tabs + 1, true, true)
        + AddIntProperty("column", s.column, tabs + 1, true, true)
        + AddIntProperty("index", s.index, tabs + 1, true, false)
        + CloseObjectProperty(tabs)
    ensures !s.isSubsprite ==>
      Serialize(s, tabs) == BeginObjectProperty("Sprite", tabs)
        + AddBooleanProperty("isSubsprite", false, tabs + 1, true, true)
        + AddStringProperty("FilePath", s.pictureFile, tabs + 1, true, false)
        + CloseObjectProperty(tabs)
  {
    var begin := BeginObjectProperty("Sprite", tabs);
    var close := CloseObjectProperty(tabs);
    if s.isSubsprite {
      Regroup7(begin, AddBooleanProperty("isSubsprite", true, tabs + 1, true, true),
        AddStringProperty("FilePath", s.pictureFile, tabs + 1, true, true),
        AddIntProperty("row", s.row, tabs + 1, true, true), AddIntProperty("column", s.column, tabs + 1, true, true),
        AddIntProperty("index", s.index, tabs + 1, true, false), close);
    } else {
      Regroup4(begin, AddBooleanProperty("isSubsprite", false, tabs + 1, true, true),
        AddStringProperty("FilePath", s.pictureFile, tabs + 1, true, false), close);
    }
  }

  lemma Regroup7(a: string, b: string, c: string, d: string, e: string, f: string, g: string)
    ensures a + (b + (c + (d + (e + (f + g))))) == a + b + c + d + e + f + g
  {
  }

  lemma Regroup4(a: string, b: string, c: string, d: string)
    ensures a + (b + (c + d)) == a + b + c + d
  {
  }
}
