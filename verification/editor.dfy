/** The level editor (src/engine/LevelEditorScene.java): the player and the
    ground kept in the list but out of every export, the snapping cursor held
    beside the list, one editor frame, and the keys that save, load or leave
    the level. */
module Editors {
  import opened Results
  import Text
  import opened Vectors
  import opened Transforms
  import opened Components
  import opened GameObjects
  import Physics
  import Assets
  import opened Parser
  import opened Scenes
  import opened Updates
  import LevelFiles
  import LevelScenes
  import ObjectReading

  const BUTTON_SPRITES := "assets/ui/buttonSprites.png"

  /** The editor's initAssetPool: the level's sheets, then the 60 by 60
      button sprites (2 columns, 2 tiles, spacing 2). */
  function EditorAssetPool(pool: Assets.Pool, load: Assets.Loader): (r: Result<Assets.Pool>)
    ensures r.Ok? ==> LevelScenes.InitAssetPool(pool, load).Ok? && r.value.cwd == pool.cwd
    ensures r.Ok? ==> Assets.HasSpritesheet(r.value, BUTTON_SPRITES)
  {
    var sheets :- LevelScenes.InitAssetPool(pool, load);
    Assets.AddSpritesheet(sheets, BUTTON_SPRITES, 60, 60, 2, 2, 2, load)
  }

  /** The mouse cursor: at the origin, zIndex 10, snapping to the tile grid,
      with nothing to place yet. */
  function EditorCursor(): (g: GameObject)
    ensures g.name == "Mouse Cursor" && g.transform == FromPosition(Origin) && g.zIndex == 10
    ensures g.components == [NewSnapToGrid(Physics.TILE_WIDTH, Physics.TILE_HEIGHT)]
    ensures GetComponent(g, SpriteClass).None?
  {
    AddComponent(New("Mouse Cursor", FromPosition(Origin), 10), NewSnapToGrid(Physics.TILE_WIDTH, Physics.TILE_HEIGHT))
  }

  /** The editor's player: the level's start position and a Player component
      only, so it neither falls nor collides; marked non-serializable. */
  function EditorPlayer(): (g: GameObject)
    ensures g.name == "Player" && g.transform == FromPosition(Vector2(500.0, 350.0)) && g.zIndex == 0
    ensures g.components == [NewPlayer()] && !g.serializable && !g.isUi
    ensures GetComponent(g, RigidBodyClass).None?
  {
    AddComponent(New("Player", FromPosition(Vector2(500.0, 350.0)), 0), NewPlayer()).(serializable := false)
  }

  /** The level's ground, marked non-serializable. */
  function EditorGround(): (g: GameObject)
    ensures g == LevelScenes.LevelGround().(serializable := false)
    ensures !g.serializable && GetComponent(g, GroundClass).Some?
  {
    LevelScenes.LevelGround().(serializable := false)
  }

  /** LevelEditorScene's constructor and init: the sheets, the cursor, then
      the player and the ground added to the list in that order. */
  function InitEditor(name: string, pool: Assets.Pool, load: Assets.Loader): (r: Result<(World, Assets.Pool)>)
    ensures r.Ok? <==> EditorAssetPool(pool, load).Ok?
    ensures r.Ok? ==> r.value.1 == EditorAssetPool(pool, load).value
    ensures r.Ok? ==> var w := r.value.0;
      w.name == name && w.inEditor && w.camera == Origin &&
      w.objects == [EditorPlayer(), EditorGround()] && w.cursor == Some(EditorCursor()) &&
      w.player.None? && w.playerBounds.None? && Coherent(w)
  {
    var pool' :- EditorAssetPool(pool, load);
    var w := NewScene(name, true).(cursor := Some(EditorCursor()));
    assert Coherent(w);
    var withPlayer := AddGameObject(w, EditorPlayer());
    AddKeepsCoherent(w, EditorPlayer());
    AddKeepsCoherent(withPlayer, EditorGround());
    Ok((AddGameObject(withPlayer, EditorGround()), pool'))
  }

  /** What a frame's keys ask for. */
  datatype Command = SaveLevel | LoadLevel | LeaveEditor | NoCommand

  /** The key test at the end of update: S wins over L, L over E; at most
      one command per frame. */
  function KeyCommand(input: Input): (c: Command)
    ensures c == SaveLevel <==> input.keyS
    ensures c == LoadLevel <==> !input.keyS && input.keyL
    ensures c == LeaveEditor <==> !input.keyS && !input.keyL && input.keyE
    ensures c == NoCommand <==> !input.keyS && !input.keyL && !input.keyE
  {
    if input.keyS then SaveLevel
    else if input.keyL then LoadLevel
    else if input.keyE then LeaveEditor
    else NoCommand
  }

  /** The clamp at the head of update: the camera is held at
      CAMERA_OFFSET_GROUND_Y or above; x is untouched. */
  function Clamp(camera: Vector2): (c: Vector2)
    ensures c.x == camera.x && c.y <= Physics.CAMERA_OFFSET_GROUND_Y
    ensures camera.y <= Physics.CAMERA_OFFSET_GROUND_Y ==> c == camera
    ensures camera.y > Physics.CAMERA_OFFSET_GROUND_Y ==> c.y == Physics.CAMERA_OFFSET_GROUND_Y
  {
    if camera.y > Physics.CAMERA_OFFSET_GROUND_Y then camera.(y := Physics.CAMERA_OFFSET_GROUND_Y) else camera
  }

  /** The for-each over the list from the k-th object on, each object
      updating in turn; an update that adds to the list makes the iterator
      throw. */
  function UpdateEach(w: World, k: nat, dt: real, input: Input): (r: Result<World>)
    requires k <= |w.objects|
    ensures r.Ok? ==> |r.value.objects| == |w.objects|
    ensures r.Ok? ==> r.value.camera == w.camera && r.value.inEditor == w.inEditor
    ensures r.Ok? ==> r.value.cursor.Some? == w.cursor.Some?
    ensures k < |w.objects| && UpdateObject(w, ObjectRef(k), dt, input).Ok? &&
            |UpdateObject(w, ObjectRef(k), dt, input).value.objects| != |w.objects| ==>
            r == Fail(ConcurrentModification)
    decreases |w.objects| - k
  {
    if k == |w.objects| then Ok(w)
    else
      var u :- UpdateObject(w, ObjectRef(k), dt, input);
      if |u.objects| != |w.objects| then Fail(ConcurrentModification)
      else UpdateEach(u, k + 1, dt, input)
  }

  /** A button taking the click (MenuItem.update): the cursor becomes a copy
      of the button's object carrying the old cursor's SnapToGrid, debounce
      and all. A cursor without one hands Java's null to addComponent, which
      throws. */
  function Pick(w: World, item: GameObject): (r: Result<World>)
    requires w.cursor.Some?
    ensures r.Ok? <==> GetComponent(w.cursor.value, SnapToGridClass).Some?
    ensures r.Ok? ==> r.value == w.(cursor := r.value.cursor) && r.value.cursor.Some?
    ensures r.Ok? ==>
      (r.value.cursor.value.components ==
         GameObjects.Copy(item).components + [GetComponent(w.cursor.value, SnapToGridClass).value])
  {
    match GetComponent(w.cursor.value, SnapToGridClass)
    case None => Fail(NullComponent("SnapToGrid"))
    case Some(snap) => Ok(w.(cursor := Some(AddComponent(GameObjects.Copy(item), snap))))
  }

  /** The widgets' half of update: the camera controls shift the camera by
      minus the drag they measured (`drag`, zero unless the middle button is
      held), the grid does nothing, and a button may hand over a new cursor
      (`picked`). */
  function Widgets(w: World, drag: Vector2, picked: Option<GameObject>): (r: Result<World>)
    requires w.cursor.Some?
    ensures r.Ok? ==> r.value.camera == Vector2(w.camera.x - drag.x, w.camera.y - drag.y)
    ensures r.Ok? ==> r.value.objects == w.objects && r.value.inEditor == w.inEditor && r.value.cursor.Some?
    ensures picked.None? ==> r.Ok? && r.value.cursor == w.cursor
  {
    var panned := w.(camera := Vector2(w.camera.x - drag.x, w.camera.y - drag.y));
    match picked
    case None => Ok(panned)
    case Some(item) => Pick(panned, item)
  }

  /** LevelEditorScene.update: the clamp, the list in order, the widgets, the
      cursor, then the command of the keys. Only LoadLevel changes the scene
      further: it imports `archive` after the objects already there. Saving
      and leaving are the caller's to carry out; what a save writes is
      SaveContent of the scene returned. */
  function EditorUpdate(w: World, dt: real, input: Input, drag: Vector2, picked: Option<GameObject>,
                        archive: Archive, pool: Assets.Pool): (r: Result<(World, Command)>)
    requires w.cursor.Some?
    ensures r.Ok? ==> r.value.1 == KeyCommand(input)
    ensures r.Ok? ==> r.value.0.camera == Vector2(Clamp(w.camera).x - drag.x, Clamp(w.camera).y - drag.y)
    ensures r.Ok? ==> |r.value.0.objects| >= |w.objects| && r.value.0.inEditor == w.inEditor
    ensures KeyCommand(input) == LoadLevel && archive.Unreadable? ==> r.Fail?
  {
    var looped :- UpdateEach(w.(camera := Clamp(w.camera)), 0, dt, input);
    var shown :- Widgets(looped, drag, picked);
    var moved :- UpdateObject(shown, CursorRef, dt, input);
    var command := KeyCommand(input);
    if command == LoadLevel then
      var loaded :- LevelFiles.ImportLevel(moved, archive, pool);
      Ok((loaded, command))
    else Ok((moved, command))
  }

  /** The archive only matters to a frame whose keys ask for a load. */
  lemma ArchiveOnlyForLoad(w: World, dt: real, input: Input, drag: Vector2, picked: Option<GameObject>,
                           a: Archive, b: Archive, pool: Assets.Pool)
    requires w.cursor.Some? && KeyCommand(input) != LoadLevel
    ensures EditorUpdate(w, dt, input, drag, picked, a, pool) == EditorUpdate(w, dt, input, drag, picked, b, pool)
  {
  }

  /** A load frame is the frame that finds no file, with the objects read
      from the file appended after everything the rest of the frame left in
      place. */
  lemma LoadAppendsFile(w: World, dt: real, input: Input, drag: Vector2, picked: Option<GameObject>,
                        bytes: seq<char>, pool: Assets.Pool)
    requires w.cursor.Some? && KeyCommand(input) == LoadLevel
    requires EditorUpdate(w, dt, input, drag, picked, Missing, pool).Ok?
    ensures var quiet := EditorUpdate(w, dt, input, drag, picked, Missing, pool).value.0;
      var frame := EditorUpdate(w, dt, input, drag, picked, Contents(bytes), pool);
      var read := LevelFiles.ReadObjects(ParserState(bytes, 0, 1), pool);
      (frame.Ok? <==> read.Ok?) &&
      (frame.Ok? ==> frame.value.0.objects == quiet.objects + read.value && frame.value.0.camera == quiet.camera &&
                     frame.value.0.cursor == quiet.cursor && frame.value.0.player == quiet.player)
  {
    var looped := UpdateEach(w.(camera := Clamp(w.camera)), 0, dt, input).value;
    var shown := Widgets(looped, drag, picked).value;
    var moved := UpdateObject(shown, CursorRef, dt, input).value;
    LevelFiles.ImportAppends(moved, bytes, pool);
  }

  /** What export writes into the archive entry for a scene. */
  function SaveContent(w: World): (s: string)
    requires LevelFiles.AllPrintable(w.objects)
  {
    LevelFiles.Export(w.objects)
  }

  /** The list starts with two objects export skips, as InitEditor's
      player and ground. */
  predicate Fixtures(w: World) {
    |w.objects| >= 2 && !w.objects[0].serializable && !w.objects[1].serializable
  }

  /** The player and the ground are written with integral coordinates. */
  lemma FixturesPrintable()
    ensures GameObjects.Printable(EditorPlayer()) && GameObjects.Printable(EditorGround())
  {
    assert Text.Printable(500.0) && Text.Printable(350.0) && Text.Printable(Physics.GROUND_Y);
    assert Text.Printable(0.0) && Text.Printable(1.0);
  }

  /** A freshly initialised editor saves nothing. */
  lemma InitEditorSavesNothing(name: string, pool: Assets.Pool, load: Assets.Loader)
    requires InitEditor(name, pool, load).Ok?
    ensures LevelFiles.AllPrintable(InitEditor(name, pool, load).value.0.objects)
    ensures SaveContent(InitEditor(name, pool, load).value.0) == []
  {
    FixturesSaveNothing();
  }

  lemma FixturesSaveNothing()
    ensures LevelFiles.AllPrintable([EditorPlayer(), EditorGround()])
    ensures LevelFiles.Export([EditorPlayer(), EditorGround()]) == []
  {
    FixturesPrintable();
    LevelFiles.ExportNothing([EditorPlayer(), EditorGround()], 0);
  }

  /** The objects export keeps are those after the player and the ground. */
  lemma {:induction false} FixturesSkipped(w: World)
    requires Fixtures(w)
    ensures LevelFiles.Serializables(w.objects) == LevelFiles.Serializables(w.objects[2..])
  {
    var gs := w.objects;
    assert gs[1..][1..] == gs[2..];
    assert LevelFiles.Serializables(gs) == LevelFiles.Serializables(gs[1..]);
    assert LevelFiles.Serializables(gs[1..]) == LevelFiles.Serializables(gs[1..][1..]);
  }

  /** Saving and loading again: reading what the editor saves gives back the
      serializable objects after the player and the ground, each reloaded
      through the pool, and never the player or the ground themselves. */
  lemma SaveLoad(w: World, pool: Assets.Pool)
    requires Fixtures(w)
    requires LevelFiles.AllRecordable(w.objects) && LevelFiles.Loadable(w.objects, 0)
    ensures LevelFiles.AllPrintable(w.objects)
    ensures LevelFiles.ReadObjects(ParserState(SaveContent(w), 0, 1), pool) ==
      LevelFiles.RereadList(pool, LevelFiles.Serializables(w.objects[2..]))
  {
    LevelFiles.RecordablePrintable(w.objects);
    LevelFiles.ExportRoundTrip(w.objects, pool);
    FixturesSkipped(w);
  }

  /** The editor's player stands on the ground but has no rigid body, so a
      frame with space held throws when the list reaches it: Player.update
      pushes a jump into the missing RigidBody. */
  lemma SpaceThrows(w: World, dt: real, input: Input, drag: Vector2, picked: Option<GameObject>,
                    archive: Archive, pool: Assets.Pool)
    requires w.cursor.Some? && |w.objects| > 0 && w.objects[0] == EditorPlayer() && input.space
    ensures EditorUpdate(w, dt, input, drag, picked, archive, pool) == Fail(NullComponent("RigidBody"))
  {
    var c := w.(camera := Clamp(w.camera));
    assert UpdateComponent(c, ObjectRef(0), 0, dt, input) == Fail(NullComponent("RigidBody"));
    assert UpdateObject(c, ObjectRef(0), dt, input) == Fail(NullComponent("RigidBody"));
  }
}
