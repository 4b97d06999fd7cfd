/** Level files: reading a buffer of objects (parseGameObject and the
    importLevel loop of both scenes) and the text the editor's export
    assembles from its object list (src/file/Parser.java,
    src/engine/LevelScene.java, src/engine/LevelEditorScene.java). The ZIP
    container around the text is not modelled: the archive is a value. */
module LevelFiles {
  import opened Results
  import opened Parser
  import opened Grammar
  import opened GameObjects
  import ObjectReading
  import Assets
  import Scenes
  import Seqs

  /** An object read, lifted to parseGameObject's nullable result. */
  function Found(r: Result<Parsed<GameObject>>): (f: Result<Option<Parsed<GameObject>>>)
    ensures f.Ok? <==> r.Ok?
    ensures r.Ok? ==> f.value == Some(r.value)
  {
    match r
    case Ok(p) => Ok(Some(p))
    case Fail(e) => Fail(e)
  }

  /** parseGameObject: None (Java's null) on an empty or exhausted buffer;
      otherwise one leading comma is consumed, then whitespace, and an object
      is read unless that reached the end. */
  function ParseGameObject(c: Cursor, pool: Assets.Pool): (r: Result<Option<Parsed<GameObject>>>)
    ensures |c.bytes| == 0 || AtEnd(c) ==> r == Ok(None)
    ensures r.Ok? && r.value.Some? ==> Advances(c, r.value.value.rest) && r.value.value.rest.offset > c.offset
  {
    if |c.bytes| == 0 || AtEnd(c) then Ok(None)
    else
      var start := SkipWhitespace(if c.bytes[c.offset] == ',' then Advance(c) else c);
      if AtEnd(start) then Ok(None)
      else Found(Deserialize(start, pool))
  }

  /** Nothing is left but one optional leading comma and whitespace. */
  predicate Blank(c: Cursor) {
    var from := if !AtEnd(c) && c.bytes[c.offset] == ',' then c.offset + 1 else c.offset;
    forall i :: from <= i < |c.bytes| ==> IsWhitespace(c.bytes[i])
  }

  /** parseGameObject returns null exactly when the rest of the buffer is
      blank. */
  lemma ParseGameObjectNone(c: Cursor, pool: Assets.Pool)
    ensures ParseGameObject(c, pool) == Ok(None) <==> Blank(c)
  {
    if !(|c.bytes| == 0 || AtEnd(c)) {
      var first := if c.bytes[c.offset] == ',' then Advance(c) else c;
      var start := SkipWhitespace(first);
      SkipWhitespaceSkips(first);
      assert start.offset >= first.offset;
      if !AtEnd(start) {
        assert !IsWhitespace(c.bytes[start.offset]);
      }
    }
  }

  /** The import loop: the objects parseGameObject returns, in file order,
      until it returns null; the first failure ends the import. */
  function ReadObjects(c: Cursor, pool: Assets.Pool): (r: Result<seq<GameObject>>)
    decreases |c.bytes| - c.offset
  {
    match ParseGameObject(c, pool)
    case Fail(e) => Fail(e)
    case Ok(None) => Ok([])
    case Ok(Some(p)) =>
      var more :- ReadObjects(p.rest, pool);
      Ok([p.value] + more)
  }

  /** An object parseGameObject returns holds persistent kinds only. */
  lemma ParsedPersistent(c: Cursor, pool: Assets.Pool)
    requires ParseGameObject(c, pool).Ok? && ParseGameObject(c, pool).value.Some?
    ensures AllPersistent(ParseGameObject(c, pool).value.value.value.components)
  {
    var start := SkipWhitespace(if c.bytes[c.offset] == ',' then Advance(c) else c);
    DeserializeShape(start, pool);
  }

  /** Every object the import loop reads holds persistent kinds only: no
      file can bring a player, a ground or a cursor into a scene. */
  lemma {:induction false} ReadObjectsPersistent(c: Cursor, pool: Assets.Pool)
    requires ReadObjects(c, pool).Ok?
    ensures forall i :: 0 <= i < |ReadObjects(c, pool).value| ==> AllPersistent(ReadObjects(c, pool).value[i].components)
    decreases |c.bytes| - c.offset
  {
    var p := ParseGameObject(c, pool);
    if p.Ok? && p.value.Some? {
      var v, d := p.value.value.value, p.value.value.rest;
      ReadObjectsStep(c, pool, v, d);
      ParsedPersistent(c, pool);
      ReadObjectsPersistent(d, pool);
      PrependPersistents(v, ReadObjects(d, pool).value);
    }
  }

  lemma PrependPersistents(v: GameObject, more: seq<GameObject>)
    requires AllPersistent(v.components)
    requires forall i :: 0 <= i < |more| ==> AllPersistent(more[i].components)
    ensures forall i :: 0 <= i < |[v] + more| ==> AllPersistent(([v] + more)[i].components)
  {
  }

  /** importLevel, in either scene: open the archive and add every object
      read, in order, to the list the scene already has. The Java loop adds
      each object as soon as it is read; reading never looks at the scene,
      so adding them all afterwards is the same, and a failure exits. */
  function ImportLevel(w: Scenes.World, archive: Archive, pool: Assets.Pool): (r: Result<Scenes.World>)
    ensures archive.Unreadable? ==> r.Fail?
    ensures archive.Missing? ==> r == Ok(w)
    ensures r.Ok? ==> exists gs :: r.value == Scenes.AddAll(w, gs)
    ensures r.Ok? ==> r.value.name == w.name && r.value.camera == w.camera && r.value.inEditor == w.inEditor
    ensures r.Ok? ==> r.value.player == w.player && r.value.playerBounds == w.playerBounds && r.value.cursor == w.cursor
    ensures r.Ok? ==> |r.value.objects| >= |w.objects| && r.value.objects[..|w.objects|] == w.objects
  {
    var c :- OpenFile(archive);
    var gs :- ReadObjects(c, pool);
    Scenes.AddAllAppends(w, gs);
    Ok(Scenes.AddAll(w, gs))
  }

  /** Importing appends the objects read and keeps the ones already there. */
  lemma ImportAppends(w: Scenes.World, bytes: seq<char>, pool: Assets.Pool)
    ensures var r := ImportLevel(w, Contents(bytes), pool);
      var read := ReadObjects(ParserState(bytes, 0, 1), pool);
      (r.Ok? <==> read.Ok?) &&
      (r.Ok? ==> r.value.objects == w.objects + read.value && r.value.camera == w.camera &&
                 r.value.player == w.player && r.value.cursor == w.cursor)
  {
    var read := ReadObjects(ParserState(bytes, 0, 1), pool);
    if read.Ok? {
      Scenes.AddAllAppends(w, read.value);
    }
  }

  /** The objects of a list that write themselves. */
  function Serializables(gs: seq<GameObject>): (ss: seq<GameObject>)
    ensures |ss| <= |gs|
  {
    if gs == [] then []
    else (if gs[0].serializable then [gs[0]] else []) + Serializables(gs[1..])
  }

  /** Each object reloaded through the pool, in order; the first failure wins. */
  function RereadList(pool: Assets.Pool, gs: seq<GameObject>): (r: Result<seq<GameObject>>)
    ensures r.Ok? ==> |r.value| == |gs|
  {
    if gs == [] then Ok([])
    else
      var g :- ObjectReading.Reread(pool, gs[0]);
      var more :- RereadList(pool, gs[1..]);
      Ok([g] + more)
  }

  /** What export writes for the i-th object of the list: its text and, unless
      it is the last object of the list, a newline; nothing at all when the
      object serialises to "". */
  function Piece(gs: seq<GameObject>, i: nat): (s: string)
    requires i < |gs| && Printable(gs[i])
    ensures s == [] <==> !gs[i].serializable
  {
    var text := Serialize(gs[i], 0);
    if text == [] then [] else text + Separator(gs, i)
  }

  function Separator(gs: seq<GameObject>, i: nat): (s: string)
    ensures AllWhitespace(s)
  {
    NewlineWhitespace();
    if i != |gs| - 1 then "\n" else []
  }

  predicate AllPrintable(gs: seq<GameObject>) {
    forall i :: 0 <= i < |gs| ==> Printable(gs[i])
  }

  /** The pieces from the i-th object on. */
  function ExportFrom(gs: seq<GameObject>, i: nat): string
    requires AllPrintable(gs) && i <= |gs|
    decreases |gs| - i
  {
    if i == |gs| then [] else Piece(gs, i) + ExportFrom(gs, i + 1)
  }

  /** The content export writes into the archive entry. */
  function Export(gs: seq<GameObject>): string
    requires AllPrintable(gs)
  {
    ExportFrom(gs, 0)
  }

  /** A list with nothing serializable exports nothing. */
  lemma {:induction false} ExportNothing(gs: seq<GameObject>, i: nat)
    requires AllPrintable(gs) && i <= |gs|
    requires forall k :: i <= k < |gs| ==> !gs[k].serializable
    ensures ExportFrom(gs, i) == []
    decreases |gs| - i
  {
    if i < |gs| {
      assert Piece(gs, i) == [];
      ExportNothing(gs, i + 1);
      assert ExportFrom(gs, i) == Piece(gs, i) + ExportFrom(gs, i + 1);
    }
  }

  /** The objects the export can carry: faithful text, and a last component
      that writes something whenever the object is written at all. */
  predicate Loadable(gs: seq<GameObject>, i: nat) {
    forall k :: i <= k < |gs| ==>
      ObjectReading.Recordable(gs[k]) && (gs[k].serializable ==> ObjectReading.EndsWritten(gs[k]))
  }

  predicate AllRecordable(gs: seq<GameObject>) {
    forall k :: 0 <= k < |gs| ==> ObjectReading.Recordable(gs[k])
  }

  lemma RecordablePrintable(gs: seq<GameObject>)
    requires AllRecordable(gs)
    ensures AllPrintable(gs)
  {
  }

  /** The export from the i-th object on, split at that object. */
  lemma ExportStep(gs: seq<GameObject>, i: nat)
    requires AllPrintable(gs) && i < |gs|
    ensures !gs[i].serializable ==> ExportFrom(gs, i) == ExportFrom(gs, i + 1)
    ensures gs[i].serializable ==>
      ExportFrom(gs, i) == Serialize(gs[i], 0) + (Separator(gs, i) + ExportFrom(gs, i + 1))
  {
    assert ExportFrom(gs, i) == Piece(gs, i) + ExportFrom(gs, i + 1);
    if gs[i].serializable {
      assert Piece(gs, i) == Serialize(gs[i], 0) + Separator(gs, i);
      Seqs.Assoc(Serialize(gs[i], 0), Separator(gs, i), ExportFrom(gs, i + 1));
    } else {
      EmptyJoin(ExportFrom(gs, i + 1));
    }
  }

  lemma EmptyJoin(a: string)
    ensures [] + a == a && a + [] == a
  {
  }

  /** The serializable objects from the i-th on, split at that object. */
  lemma SerializablesStep(gs: seq<GameObject>, i: nat)
    requires i < |gs|
    ensures !gs[i].serializable ==> Serializables(gs[i..]) == Serializables(gs[i + 1..])
    ensures gs[i].serializable ==> Serializables(gs[i..]) == [gs[i]] + Serializables(gs[i + 1..])
  {
    assert gs[i..][1..] == gs[i + 1..];
  }

  /** Reloading a list, split at its first object. */
  lemma RereadListStep(pool: Assets.Pool, g: GameObject, gs: seq<GameObject>)
    ensures var r := RereadList(pool, [g] + gs);
      (ObjectReading.Reread(pool, g).Fail? ==> r == Fail(ObjectReading.Reread(pool, g).error)) &&
      (ObjectReading.Reread(pool, g).Ok? ==>
         r == (match RereadList(pool, gs) case Ok(more) => Ok([ObjectReading.Reread(pool, g).value] + more)
                                          case Fail(e) => Fail(e)))
  {
    assert ([g] + gs)[1..] == gs;
  }

  /** The import loop after one object read. */
  lemma ReadObjectsStep(c: Cursor, pool: Assets.Pool, v: GameObject, d: Cursor)
    requires ParseGameObject(c, pool) == Ok(Some(Parsed(v, d)))
    ensures ReadObjects(c, pool) ==
      (match ReadObjects(d, pool) case Ok(more) => Ok([v] + more) case Fail(e) => Fail(e))
  {
  }

  /** A failing parseGameObject ends the import with its failure. */
  lemma ReadObjectsFails(c: Cursor, pool: Assets.Pool)
    requires ParseGameObject(c, pool).Fail?
    ensures ReadObjects(c, pool) == Fail(ParseGameObject(c, pool).error)
  {
  }

  /** Whitespace before a quote: the comma test fails and skipWhitespace stops
      on the quote. */
  lemma SkipToText(c: Cursor, pre: string, t: string) returns (start: Cursor)
    requires AllWhitespace(pre) && |t| > 0 && t[0] == '"'
    requires At(c.bytes, c.offset, pre + t)
    ensures !AtEnd(c) && c.bytes[c.offset] != ','
    ensures start == SkipWhitespace(c) && !AtEnd(start)
    ensures start.bytes == c.bytes && start.offset == c.offset + |pre|
    ensures At(start.bytes, start.offset, t)
  {
    AtSplit(c.bytes, c.offset, pre, t);
    AtChar(c.bytes, c.offset + |pre|, t, 0);
    if pre != [] {
      AtChar(c.bytes, c.offset, pre, 0);
    }
    SkipOver(c, pre);
    start := SkipWhitespace(c);
  }

  /** parseGameObject where no comma leads and something other than
      whitespace follows. */
  lemma ParseAt(c: Cursor, start: Cursor, pool: Assets.Pool)
    requires !AtEnd(c) && c.bytes[c.offset] != ','
    requires start == SkipWhitespace(c) && !AtEnd(start)
    ensures ParseGameObject(c, pool) == Found(Deserialize(start, pool))
  {
  }

  /** One parseGameObject over exported text whose first piece is a written
      object that reloads: it reads that object, as Reread makes it, and stops
      before the separator. */
  lemma ReadFirst(c: Cursor, pre: string, gs: seq<GameObject>, i: nat, pool: Assets.Pool)
    returns (d: Cursor)
    requires AllRecordable(gs) && i < |gs| && gs[i].serializable && ObjectReading.EndsWritten(gs[i])
    requires AllWhitespace(pre) && AllPrintable(gs)
    requires At(c.bytes, c.offset, pre + (Serialize(gs[i], 0) + (Separator(gs, i) + ExportFrom(gs, i + 1))))
    ensures ParseGameObject(c, pool) == Found(Placed(ObjectReading.Reread(pool, gs[i]), d))
    ensures d.bytes == c.bytes && d.offset == c.offset + |pre| + |Serialize(gs[i], 0)|
    ensures At(d.bytes, d.offset, Separator(gs, i) + ExportFrom(gs, i + 1))
  {
    d := ReadText(c, pre, gs[i], Separator(gs, i) + ExportFrom(gs, i + 1), pool);
  }

  /** One parseGameObject over a written object that reloads, whatever
      follows it. */
  lemma ReadText(c: Cursor, pre: string, g: GameObject, rest: string, pool: Assets.Pool)
    returns (d: Cursor)
    requires ObjectReading.Written(c, pre, g, 0, rest) && ObjectReading.EndsWritten(g)
    ensures ParseGameObject(c, pool) == Found(Placed(ObjectReading.Reread(pool, g), d))
    ensures d.bytes == c.bytes && d.offset == c.offset + |pre| + |Serialize(g, 0)|
    ensures At(d.bytes, d.offset, rest)
  {
    var s := Serialize(g, 0);
    var start := SkipToText(c, pre, s + rest);
    ParseAt(c, start, pool);
    EmptyJoin(s + rest);
    d := ObjectReading.DeserializeRead(start, [], g, 0, rest, pool);
  }

  /** The same, for an object whose last component writes nothing: the read
      fails. */
  lemma ReadFirstFails(c: Cursor, pre: string, gs: seq<GameObject>, i: nat, pool: Assets.Pool)
    requires AllRecordable(gs) && i < |gs| && gs[i].serializable && !ObjectReading.EndsWritten(gs[i])
    requires AllWhitespace(pre) && AllPrintable(gs)
    requires At(c.bytes, c.offset, pre + (Serialize(gs[i], 0) + (Separator(gs, i) + ExportFrom(gs, i + 1))))
    ensures ParseGameObject(c, pool).Fail?
    ensures ReadObjects(c, pool) == Fail(ParseGameObject(c, pool).error)
  {
    TextFails(c, pre, gs[i], Separator(gs, i) + ExportFrom(gs, i + 1), pool);
  }

  /** One parseGameObject over a written object whose last component writes
      nothing, whatever follows it: it fails. */
  lemma TextFails(c: Cursor, pre: string, g: GameObject, rest: string, pool: Assets.Pool)
    requires ObjectReading.Written(c, pre, g, 0, rest) && !ObjectReading.EndsWritten(g)
    ensures ParseGameObject(c, pool).Fail?
  {
    var s := Serialize(g, 0);
    var start := SkipToText(c, pre, s + rest);
    ParseAt(c, start, pool);
    EmptyJoin(s + rest);
    ObjectReading.DeserializeFails(start, [], g, 0, rest, pool);
  }

  /** Only whitespace left: the import loop stops with nothing more. */
  lemma ReadEnd(c: Cursor, pre: string, pool: Assets.Pool)
    requires AllWhitespace(pre) && At(c.bytes, c.offset, pre) && c.offset + |pre| == |c.bytes|
    ensures ReadObjects(c, pool) == Ok([])
  {
    AtSlice(c.bytes, c.offset, pre);
    assert Blank(c) by {
      forall k | c.offset <= k < |c.bytes|
        ensures IsWhitespace(c.bytes[k])
      {
        assert c.bytes[k] == pre[k - c.offset];
      }
    }
    ParseGameObjectNone(c, pool);
  }

  /** Reading exported text gives back the serializable objects, each as
      Reread makes it, in list order: the unserializable ones leave no
      trace, and a failure to reload one object is the import's failure. */
  lemma {:induction false} ReadExported(c: Cursor, pre: string, gs: seq<GameObject>, i: nat, pool: Assets.Pool)
    requires AllRecordable(gs) && Loadable(gs, i) && i <= |gs|
    requires AllWhitespace(pre)
    requires AllPrintable(gs) && At(c.bytes, c.offset, pre + ExportFrom(gs, i))
    requires c.offset + |pre| + |ExportFrom(gs, i)| == |c.bytes|
    ensures ReadObjects(c, pool) == RereadList(pool, Serializables(gs[i..]))
    decreases |gs| - i, 2
  {
    if i == |gs| {
      EmptyJoin(pre);
      ReadEnd(c, pre, pool);
      assert gs[i..] == [];
    } else if !gs[i].serializable {
      ReadSkipped(c, pre, gs, i, pool);
    } else {
      ReadWrittenAt(c, pre, gs, i, pool);
    }
  }

  lemma ReadSkipped(c: Cursor, pre: string, gs: seq<GameObject>, i: nat, pool: Assets.Pool)
    requires AllRecordable(gs) && Loadable(gs, i) && i < |gs| && !gs[i].serializable
    requires AllWhitespace(pre)
    requires AllPrintable(gs) && At(c.bytes, c.offset, pre + ExportFrom(gs, i))
    requires c.offset + |pre| + |ExportFrom(gs, i)| == |c.bytes|
    ensures ReadObjects(c, pool) == RereadList(pool, Serializables(gs[i..]))
    decreases |gs| - i, 1
  {
    ExportStep(gs, i);
    assert pre + ExportFrom(gs, i) == pre + ExportFrom(gs, i + 1);
    SerializablesStep(gs, i);
    ReadExported(c, pre, gs, i + 1, pool);
  }

  lemma ReadWrittenAt(c: Cursor, pre: string, gs: seq<GameObject>, i: nat, pool: Assets.Pool)
    requires AllRecordable(gs) && Loadable(gs, i) && i < |gs| && gs[i].serializable
    requires AllWhitespace(pre)
    requires AllPrintable(gs) && At(c.bytes, c.offset, pre + ExportFrom(gs, i))
    requires c.offset + |pre| + |ExportFrom(gs, i)| == |c.bytes|
    ensures ReadObjects(c, pool) == RereadList(pool, Serializables(gs[i..]))
    decreases |gs| - i, 1
  {
    ExportStep(gs, i);
    assert pre + ExportFrom(gs, i) == pre + (Serialize(gs[i], 0) + (Separator(gs, i) + ExportFrom(gs, i + 1)));
    SerializablesStep(gs, i);
    ReadWritten(c, pre, gs, i, pool);
  }

  lemma ReadWritten(c: Cursor, pre: string, gs: seq<GameObject>, i: nat, pool: Assets.Pool)
    requires AllRecordable(gs) && Loadable(gs, i) && i < |gs| && gs[i].serializable
    requires AllWhitespace(pre) && AllPrintable(gs)
    requires At(c.bytes, c.offset, pre + (Serialize(gs[i], 0) + (Separator(gs, i) + ExportFrom(gs, i + 1))))
    requires c.offset + |pre| + |Serialize(gs[i], 0)| + |Separator(gs, i)| + |ExportFrom(gs, i + 1)| == |c.bytes|
    ensures ReadObjects(c, pool) == RereadList(pool, [gs[i]] + Serializables(gs[i + 1..]))
    decreases |gs| - i, 0
  {
    var d := ReadFirst(c, pre, gs, i, pool);
    RereadListStep(pool, gs[i], Serializables(gs[i + 1..]));
    if ObjectReading.Reread(pool, gs[i]).Ok? {
      ReadObjectsStep(c, pool, ObjectReading.Reread(pool, gs[i]).value, d);
      ReadExported(d, Separator(gs, i), gs, i + 1, pool);
    }
  }

  lemma AtItself(b: seq<char>)
    ensures At(b, 0, b)
  {
    AtWhole(b, 0);
  }

  lemma {:induction false} AtWhole(b: seq<char>, o: nat)
    requires o <= |b|
    ensures At(b, o, b[o..])
    decreases |b| - o
  {
    if o < |b| {
      AtWhole(b, o + 1);
      assert b[o..][1..] == b[o + 1..];
    }
  }

  /** Exporting a loadable list and importing the text gives back its
      serializable objects as Reread makes them, in order. */
  lemma ExportRoundTrip(gs: seq<GameObject>, pool: Assets.Pool)
    requires AllRecordable(gs) && Loadable(gs, 0)
    ensures ReadObjects(ParserState(Export(gs), 0, 1), pool) == RereadList(pool, Serializables(gs))
  {
    var b := Export(gs);
    AtItself(b);
    EmptyJoin(b);
    assert [] + ExportFrom(gs, 0) == b;
    assert gs[0..] == gs;
    ReadExported(ParserState(b, 0, 1), [], gs, 0, pool);
  }
}
