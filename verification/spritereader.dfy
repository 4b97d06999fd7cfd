/** Sprite.deserialize (src/Component/Sprite.java): the reader of a persisted
    "Sprite" object. It does not rebuild the sprite from the text: it looks
    the recorded file up in the asset pool and returns a copy of what is
    registered there, a tile chosen by its recorded index. */
module SpriteReader {
  import opened Results
  import opened Text
  import opened Serializer
  import opened Parser
  import opened Grammar
  import opened Sprites
  import opened Spritesheets
  import opened Assets

  /** Called once the component reader has consumed the tag and the opening
      brace. The row and column read for a tile are not used. */
  function Deserialize(c: Cursor, pool: Pool): (r: Result<Parsed<Sprite>>)
    ensures r.Ok? ==> Advances(c, r.value.rest) && r.value.rest.offset > c.offset
    ensures r.Ok? ==> Canonical(r.value.value)
    ensures ReadHead(c).Fail? ==> r == Fail(ReadHead(c).error)
  {
    var head :- ReadHead(c);
    if head.value.0 then ReadTile(head.rest, pool, head.value.1)
    else ReadWhole(head.rest, pool, head.value.1)
  }

  /** isSubsprite, ',' and FilePath. */
  function ReadHead(c: Cursor): (r: Result<Parsed<(bool, string)>>)
    ensures r.Ok? ==> Advances(c, r.value.rest)
  {
    var sub :- ConsumeBooleanProperty(c, "isSubsprite");
    var comma :- Consume(sub.rest, ',');
    var path :- ConsumeStringProperty(comma, "FilePath");
    Ok(Parsed((sub.value, path.value), path.rest))
  }

  /** ',' row ',' column ',' index; only the index is kept. */
  function ReadIndex(c: Cursor): (r: Result<Parsed<Int32>>)
    ensures r.Ok? ==> Advances(c, r.value.rest)
  {
    var c1 :- Consume(c, ',');
    var row :- ConsumeIntProperty(c1, "row");
    var c2 :- Consume(row.rest, ',');
    var column :- ConsumeIntProperty(c2, "column");
    var c3 :- Consume(column.rest, ',');
    ConsumeIntProperty(c3, "index")
  }

  /** The rest of a tile: the sheet must be registered before the closing
      brace is read; the index is checked against the sheet last. */
  function ReadTile(c: Cursor, pool: Pool, path: string): (r: Result<Parsed<Sprite>>)
    ensures r.Ok? ==> Advances(c, r.value.rest) && r.value.rest.offset > c.offset
    ensures r.Ok? ==> Canonical(r.value.value)
  {
    var index :- ReadIndex(c);
    var sheet :- GetSpritesheet(pool, path);
    var close :- ConsumeEndObjectProperty(index.rest);
    var tile :- Spritesheets.GetSprite(sheet, index.value);
    Ok(Parsed(Copy(tile), close))
  }

  /** The rest of a whole-image sprite: it must be registered before the
      closing brace is read. */
  function ReadWhole(c: Cursor, pool: Pool, path: string): (r: Result<Parsed<Sprite>>)
    ensures r.Ok? ==> Advances(c, r.value.rest) && r.value.rest.offset > c.offset
    ensures r.Ok? ==> Canonical(r.value.value)
    ensures !HasSprite(pool, path) ==> r == Fail(MissingSprite(path))
  {
    if !HasSprite(pool, path) then Fail(MissingSprite(path))
    else
      var close :- ConsumeEndObjectProperty(c);
      Ok(Parsed(Copy(CachedSprite(pool, path)), close))
  }

  /** What the pool gives back for a recorded sprite: a copy of the
      registered sprite, or of the tile at the recorded index of the
      registered sheet. Only isSubsprite, the file and the index matter. */
  function Reload(pool: Pool, s: Sprite): (r: Result<Sprite>)
    ensures r.Ok? ==> Canonical(r.value)
    ensures s.isSubsprite && !HasSpritesheet(pool, s.pictureFile) ==> r == Fail(MissingSpritesheet(s.pictureFile))
    ensures !s.isSubsprite && !HasSprite(pool, s.pictureFile) ==> r == Fail(MissingSprite(s.pictureFile))
  {
    if s.isSubsprite then
      var sheet :- GetSpritesheet(pool, s.pictureFile);
      var tile :- Spritesheets.GetSprite(sheet, s.index);
      Ok(Copy(tile))
    else if !HasSprite(pool, s.pictureFile) then Fail(MissingSprite(s.pictureFile))
    else Ok(Copy(CachedSprite(pool, s.pictureFile)))
  }

  /** The recorded row and column play no part in what is read back. */
  lemma RowColumnDiscarded(pool: Pool, s: Sprite, row: int, column: int)
    ensures Reload(pool, s.(row := row, column := column)) == Reload(pool, s)
  {
  }

  /** A tile read back carries the row and column of the sheet's tile at its
      index (every tile a sheet is built with is a subsprite), not the
      recorded ones. */
  lemma TileFromSheet(pool: Pool, s: Sprite)
    requires s.isSubsprite && Reload(pool, s).Ok?
    ensures var sheet := pool.sheets[AbsolutePath(pool.cwd, s.pictureFile)];
      0 <= s.index < |sheet.sprites| &&
      (sheet.sprites[s.index].isSubsprite ==>
         Reload(pool, s).value.row == sheet.sprites[s.index].row &&
         Reload(pool, s).value.column == sheet.sprites[s.index].column)
  {
  }

  /** A sprite registered in the pool under its own file, or a canonical tile
      stored at its own index of its sheet, reads back as itself. */
  lemma ReloadExact(pool: Pool, s: Sprite)
    requires Canonical(s)
    requires !s.isSubsprite ==> HasSprite(pool, s.pictureFile) && CachedSprite(pool, s.pictureFile) == s
    requires s.isSubsprite ==>
      HasSpritesheet(pool, s.pictureFile) &&
      var sheet := pool.sheets[AbsolutePath(pool.cwd, s.pictureFile)];
      0 <= s.index < |sheet.sprites| && sheet.sprites[s.index] == s
    ensures Reload(pool, s) == Ok(s)
  {
    CopyFixesCanonical(s);
  }

  /** The fields of a sprite that the text must carry faithfully. */
  predicate Recordable(s: Sprite) {
    '"' !in s.pictureFile && MIN_INT <= s.row <= MAX_INT && MIN_INT <= s.column <= MAX_INT &&
    MIN_INT <= s.index <= MAX_INT
  }

  /** What the writer wrote after the opening brace reads back as the pool's
      sprite for it, or fails as the lookup does; the reader stops right
      after the closing brace. */
  lemma DeserializeRead(c: Cursor, pool: Pool, s: Sprite, tabs: int, rest: string) returns (d: Cursor)
    requires Recordable(s)
    requires At(c.bytes, c.offset, "\n" + (Members(s, tabs) + rest))
    ensures Reload(pool, s).Ok? ==> Deserialize(c, pool) == Ok(Parsed(Reload(pool, s).value, d))
    ensures Reload(pool, s).Fail? ==> Deserialize(c, pool) == Fail(Reload(pool, s).error)
    ensures d.bytes == c.bytes && d.offset == c.offset + 1 + |Members(s, tabs)|
    ensures At(d.bytes, d.offset, rest)
  {
    var head := HeadRead(c, s, tabs, rest);
    if s.isSubsprite {
      assert After(s, tabs) == TilePart(s, tabs);
      var index;
      index, d := TileRead(head, s, tabs, rest);
      TileStep(pool, s, head, index, d);
    } else {
      assert After(s, tabs) == CloseObjectProperty(tabs);
      d := WholeRead(head, s, tabs, rest);
      WholeStep(pool, s, head, d);
    }
    DeserializeStep(c, pool, s.isSubsprite, s.pictureFile, head);
  }

  /** isSubsprite, its comma and FilePath, with what follows FilePath. */
  lemma HeadRead(c: Cursor, s: Sprite, tabs: int, rest: string) returns (head: Cursor)
    requires Recordable(s)
    requires At(c.bytes, c.offset, "\n" + (Members(s, tabs) + rest))
    ensures ReadHead(c) == Ok(Parsed((s.isSubsprite, s.pictureFile), head))
    ensures head.bytes == c.bytes
    ensures head.offset + |AddEnding(true, s.isSubsprite)| + |After(s, tabs)| == c.offset + 1 + |Members(s, tabs)|
    ensures At(head.bytes, head.offset, AddEnding(true, s.isSubsprite) + (After(s, tabs) + rest))
  {
    var b := AddBooleanProperty("isSubsprite", s.isSubsprite, tabs + 1, true, true);
    var f := AddStringProperty("FilePath", s.pictureFile, tabs + 1, true, s.isSubsprite);
    MembersText(s, tabs, rest);
    NewlineWhitespace();
    KeysUnquoted();
    var sub := BoolRead(c, "\n", "isSubsprite", s.isSubsprite, tabs + 1, true, true, f + (After(s, tabs) + rest));
    var comma := CommaRead(sub, f + (After(s, tabs) + rest));
    head := StringRead(comma, "\n", "FilePath", s.pictureFile, tabs + 1, true, s.isSubsprite, After(s, tabs) + rest);
    HeadStep(c, Parsed(s.isSubsprite, sub), comma, Parsed(s.pictureFile, head));
  }

  /** What follows FilePath: the tile fields and the closing brace, or the
      closing brace alone. */
  function After(s: Sprite, tabs: int): string {
    if s.isSubsprite then TilePart(s, tabs) else CloseObjectProperty(tabs)
  }

  lemma MembersText(s: Sprite, tabs: int, rest: string)
    ensures var b := AddBooleanProperty("isSubsprite", s.isSubsprite, tabs + 1, true, true);
      var f := AddStringProperty("FilePath", s.pictureFile, tabs + 1, true, s.isSubsprite);
      "\n" + (Members(s, tabs) + rest) == "\n" + (b + (f + (After(s, tabs) + rest))) &&
      |Members(s, tabs)| == |b| + |f| + |After(s, tabs)|
  {
    var b := AddBooleanProperty("isSubsprite", s.isSubsprite, tabs + 1, true, true);
    var f := AddStringProperty("FilePath", s.pictureFile, tabs + 1, true, s.isSubsprite);
    assert Members(s, tabs) == b + (f + After(s, tabs));
    Regroup("\n", b, f, After(s, tabs), rest);
  }

  lemma Regroup(pre: string, x: string, y: string, z: string, rest: string)
    ensures pre + ((x + (y + z)) + rest) == pre + (x + (y + (z + rest)))
    ensures |x + (y + z)| == |x| + |y| + |z|
  {
  }

  lemma HeadStep(c: Cursor, sub: Parsed<bool>, comma: Cursor, path: Parsed<string>)
    requires ConsumeBooleanProperty(c, "isSubsprite") == Ok(sub)
    requires Consume(sub.rest, ',') == Ok(comma)
    requires ConsumeStringProperty(comma, "FilePath") == Ok(path)
    ensures ReadHead(c) == Ok(Parsed((sub.value, path.value), path.rest))
  {
  }

  /** row, column, index and the closing brace of a tile. */
  lemma TileRead(c: Cursor, s: Sprite, tabs: int, rest: string) returns (index: Cursor, d: Cursor)
    requires Recordable(s)
    requires At(c.bytes, c.offset, AddEnding(true, true) + (TilePart(s, tabs) + rest))
    ensures ReadIndex(c) == Ok(Parsed(s.index, index))
    ensures ConsumeEndObjectProperty(index) == Ok(d)
    ensures d.bytes == c.bytes && d.offset == c.offset + |AddEnding(true, true)| + |TilePart(s, tabs)|
    ensures At(d.bytes, d.offset, rest)
  {
    var close := CloseObjectProperty(tabs);
    var ri := AddIntProperty("row", s.row, tabs + 1, true, true);
    var ci := AddIntProperty("column", s.column, tabs + 1, true, true);
    var ii := AddIntProperty("index", s.index, tabs + 1, true, false);
    assert TilePart(s, tabs) == ri + (ci + (ii + close));
    TileText(ri, ci, ii, close, rest);
    index := IndexRead(c, s.row, s.column, s.index, tabs + 1, close + rest);
    NewlineWhitespace();
    d := EndRead(index, "\n", tabs, rest);
  }

  lemma IndexRead(c: Cursor, row: Int32, column: Int32, index: Int32, tabs: int, rest: string) returns (d: Cursor)
    requires At(c.bytes, c.offset, AddEnding(true, true) + (AddIntProperty("row", row, tabs, true, true)
      + (AddIntProperty("column", column, tabs, true, true) + (AddIntProperty("index", index, tabs, true, false) + rest))))
    ensures ReadIndex(c) == Ok(Parsed(index, d))
    ensures d.bytes == c.bytes
    ensures d.offset + 1 == c.offset + |AddEnding(true, true)| + |AddIntProperty("row", row, tabs, true, true)|
      + |AddIntProperty("column", column, tabs, true, true)| + |AddIntProperty("index", index, tabs, true, false)|
    ensures At(d.bytes, d.offset, "\n" + rest)
  {
    var ci := AddIntProperty("column", column, tabs, true, true);
    var ii := AddIntProperty("index", index, tabs, true, false);
    NewlineWhitespace();
    KeysUnquoted();
    var c1 := CommaRead(c, AddIntProperty("row", row, tabs, true, true) + (ci + (ii + rest)));
    var r := IntRead(c1, "\n", "row", row, tabs, true, true, ci + (ii + rest));
    var c2 := CommaRead(r, ci + (ii + rest));
    var k := IntRead(c2, "\n", "column", column, tabs, true, true, ii + rest);
    var c3 := CommaRead(k, ii + rest);
    d := IntRead(c3, "\n", "index", index, tabs, true, false, rest);
    assert AddEnding(true, false) == "\n";
    IndexStep(c, c1, Parsed(row, r), c2, Parsed(column, k), c3, Parsed(index, d));
  }

  lemma TileText(ri: string, ci: string, ii: string, close: string, rest: string)
    ensures AddEnding(true, true) + ((ri + (ci + (ii + close))) + rest) ==
      AddEnding(true, true) + (ri + (ci + (ii + (close + rest))))
    ensures |ri + (ci + (ii + close))| == |ri| + |ci| + |ii| + |close|
  {
  }

  lemma IndexStep(c: Cursor, c1: Cursor, row: Parsed<Int32>, c2: Cursor, column: Parsed<Int32>, c3: Cursor,
                  index: Parsed<Int32>)
    requires Consume(c, ',') == Ok(c1)
    requires ConsumeIntProperty(c1, "row") == Ok(row)
    requires Consume(row.rest, ',') == Ok(c2)
    requires ConsumeIntProperty(c2, "column") == Ok(column)
    requires Consume(column.rest, ',') == Ok(c3)
    requires ConsumeIntProperty(c3, "index") == Ok(index)
    ensures ReadIndex(c) == Ok(index)
  {
  }

  /** The closing brace of a whole-image sprite. */
  lemma WholeRead(c: Cursor, s: Sprite, tabs: int, rest: string) returns (d: Cursor)
    requires At(c.bytes, c.offset, AddEnding(true, false) + (CloseObjectProperty(tabs) + rest))
    ensures ConsumeEndObjectProperty(c) == Ok(d)
    ensures d.bytes == c.bytes && d.offset == c.offset + |AddEnding(true, false)| + |CloseObjectProperty(tabs)|
    ensures At(d.bytes, d.offset, rest)
  {
    assert AddEnding(true, false) == "\n";
    NewlineWhitespace();
    d := EndRead(c, "\n", tabs, rest);
  }

  lemma TileStep(pool: Pool, s: Sprite, head: Cursor, index: Cursor, d: Cursor)
    requires s.isSubsprite
    requires ReadIndex(head) == Ok(Parsed(s.index, index))
    requires ConsumeEndObjectProperty(index) == Ok(d)
    ensures Reload(pool, s).Ok? ==> ReadTile(head, pool, s.pictureFile) == Ok(Parsed(Reload(pool, s).value, d))
    ensures Reload(pool, s).Fail? ==> ReadTile(head, pool, s.pictureFile) == Fail(Reload(pool, s).error)
  {
  }

  lemma WholeStep(pool: Pool, s: Sprite, head: Cursor, d: Cursor)
    requires !s.isSubsprite
    requires ConsumeEndObjectProperty(head) == Ok(d)
    ensures Reload(pool, s).Ok? ==> ReadWhole(head, pool, s.pictureFile) == Ok(Parsed(Reload(pool, s).value, d))
    ensures Reload(pool, s).Fail? ==> ReadWhole(head, pool, s.pictureFile) == Fail(Reload(pool, s).error)
  {
  }

  lemma DeserializeStep(c: Cursor, pool: Pool, sub: bool, path: string, head: Cursor)
    requires ReadHead(c) == Ok(Parsed((sub, path), head))
    ensures Deserialize(c, pool) == if sub then ReadTile(head, pool, path) else ReadWhole(head, pool, path)
  {
  }

  lemma KeysUnquoted()
    ensures '"' !in "Sprite" && '"' !in "isSubsprite" && '"' !in "FilePath"
    ensures '"' !in "row" && '"' !in "column" && '"' !in "index"
  {
  }
}
