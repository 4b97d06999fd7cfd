/** The play scene (src/engine/LevelScene.java): the player held beside the
    object list, the camera that follows it, one frame of updates with the
    collision pass over the list, and the start of a level. */
module LevelScenes {
  import opened Results
  import opened Vectors
  import opened Transforms
  import opened Components
  import opened GameObjects
  import Bounds
  import Physics
  import Rendering
  import Sprites
  import Spritesheets
  import Assets
  import opened Parser
  import opened Scenes
  import opened Updates
  import LevelFiles

  /** The camera step at the head of update: the camera moves right to keep
      the player at most CAMERA_OFFSET_X ahead of it, down to keep it at most
      CAMERA_OFFSET_Y below it, and is then held at CAMERA_OFFSET_GROUND_Y or
      above on the screen (y grows downwards). */
  function Follow(camera: Vector2, p: Vector2): (c: Vector2)
    ensures c.x >= camera.x && p.x - c.x <= Physics.CAMERA_OFFSET_X
    ensures c.x == camera.x || p.x - c.x == Physics.CAMERA_OFFSET_X
    ensures c.y <= Physics.CAMERA_OFFSET_GROUND_Y
    ensures c.y < Physics.CAMERA_OFFSET_GROUND_Y ==>
      c.y >= camera.y && p.y - c.y <= Physics.CAMERA_OFFSET_Y && (c.y == camera.y || p.y - c.y == Physics.CAMERA_OFFSET_Y)
    ensures c.y == Physics.CAMERA_OFFSET_GROUND_Y ==>
      camera.y >= Physics.CAMERA_OFFSET_GROUND_Y || p.y - Physics.CAMERA_OFFSET_Y >= Physics.CAMERA_OFFSET_GROUND_Y
  {
    var x := if p.x - camera.x > Physics.CAMERA_OFFSET_X then p.x - Physics.CAMERA_OFFSET_X else camera.x;
    var y := if p.y - camera.y > Physics.CAMERA_OFFSET_Y then p.y - Physics.CAMERA_OFFSET_Y else camera.y;
    Vector2(x, if y > Physics.CAMERA_OFFSET_GROUND_Y then Physics.CAMERA_OFFSET_GROUND_Y else y)
  }

  /** A camera that has followed a player stays put while the player does:
      the least camera position satisfying the follow rule is already
      reached. */
  lemma FollowSettles(camera: Vector2, p: Vector2)
    ensures Follow(Follow(camera, p), p) == Follow(camera, p)
  {
  }

  /** The contact test of the collision pass: the object has a Bounds
      component, and Bounds.checkCollision holds between the player's box
      (playerBounds, anchored at the player) and it. */
  predicate Touches(w: World, g: GameObject)
    requires w.player.Some? && w.playerBounds.Some?
  {
    var b := GetComponent(g, BoundsClass);
    b.Some? && Bounds.CheckCollision(w.playerBounds.value, w.player.value.transform.position,
                                     b.value.bounds, g.transform.position)
  }

  /** How Bounds.resolveCollision settles a contact with `g`, read off the
      player's first BoxBounds component. */
  function Settlement(w: World, g: GameObject): (res: Bounds.Resolution)
    requires w.player.Some? && w.playerBounds.Some? && Touches(w, g)
    requires GetComponent(w.player.value, BoxBoundsClass).Some?
  {
    var pl := w.player.value;
    Bounds.Resolve(GetComponent(g, BoundsClass).value.bounds, g.transform.position,
                   GetComponent(pl, BoxBoundsClass).value.bounds, pl.transform.position)
  }

  /** The body of the collision pass for one object: nothing without a
      contact; otherwise the player lands on the object's top edge or dies.
      A player without a box, a rigid body or a Player component throws. */
  function Collide(w: World, g: GameObject): (r: Result<World>)
    requires w.player.Some? && w.playerBounds.Some?
    ensures !Touches(w, g) ==> r == Ok(w)
    ensures Touches(w, g) && GetComponent(w.player.value, BoxBoundsClass).None? ==> r == Fail(NullComponent("BoxBounds"))
    ensures r.Ok? ==> r.value.objects == w.objects && r.value.renderer == w.renderer && r.value.cursor == w.cursor
    ensures r.Ok? ==> r.value.playerBounds == w.playerBounds && r.value.inEditor == w.inEditor && r.value.player.Some?
    ensures r.Ok? ==> r.value.camera.y == w.camera.y
    ensures Touches(w, g) && r.Ok? ==>
      GetComponent(w.player.value, BoxBoundsClass).Some? &&
      (Settlement(w, g).Land? ==>
         r.value.camera == w.camera &&
         r.value.player.value.transform.position == Vector2(w.player.value.transform.position.x, Settlement(w, g).y) &&
         Settlement(w, g).y + GetComponent(w.player.value, BoxBoundsClass).value.bounds.height == g.transform.position.y &&
         GetComponent(r.value.player.value, PlayerClass).Some? &&
         GetComponent(r.value.player.value, PlayerClass).value.onGround &&
         GetComponent(r.value.player.value, RigidBodyClass).Some? &&
         GetComponent(r.value.player.value, RigidBodyClass).value.velocity.y == 0.0) &&
      (Settlement(w, g).Die? ==>
         r.value.player == Some(MoveTo(w.player.value, Physics.RESPAWN)) && r.value.camera.x == 0.0)
  {
    if !Touches(w, g) then Ok(w)
    else
      var pl := w.player.value;
      match GetComponent(pl, BoxBoundsClass)
      case None => Fail(NullComponent("BoxBounds"))
      case Some(box) =>
        var b := GetComponent(g, BoundsClass).value.bounds;
        var res := Bounds.ResolveBounds(b, g.transform.position, box.bounds, pl.transform.position);
        if res.None? then Ok(w)
        else if res.value.Land? then
          var landed :- Land(pl, res.value.y);
          Ok(w.(player := Some(landed)))
        else Die(w)
  }

  /** The for-each over the list from the k-th object on: each object
      updates, then meets the player. An update that adds to the list makes
      the iterator throw. */
  function CollideFrom(w: World, k: nat, dt: real, input: Input): (r: Result<World>)
    requires w.player.Some? && w.playerBounds.Some? && k <= |w.objects|
    ensures r.Ok? ==> |r.value.objects| == |w.objects| && r.value.player.Some?
    ensures r.Ok? ==> r.value.playerBounds == w.playerBounds && r.value.inEditor == w.inEditor
    ensures r.Ok? ==> r.value.camera.y == w.camera.y
    ensures k < |w.objects| && UpdateObject(w, ObjectRef(k), dt, input).Ok? &&
            |UpdateObject(w, ObjectRef(k), dt, input).value.objects| != |w.objects| ==>
            r == Fail(ConcurrentModification)
    decreases |w.objects| - k
  {
    if k == |w.objects| then Ok(w)
    else
      var u :- UpdateObject(w, ObjectRef(k), dt, input);
      if |u.objects| != |w.objects| then Fail(ConcurrentModification)
      else
        var v :- Collide(u, u.objects[k]);
        CollideFrom(v, k + 1, dt, input)
  }

  /** The player half of update: the camera follows the player as it was,
      then the player updates, then its Player component is marked
      airborne; only a contact of the collision pass can set it again. */
  function PlayerStep(w: World, dt: real, input: Input): (r: Result<World>)
    requires w.player.Some?
    ensures r.Ok? ==> r.value.camera == Follow(w.camera, w.player.value.transform.position)
    ensures r.Ok? ==> r.value.player.Some? && r.value.playerBounds == w.playerBounds && r.value.inEditor == w.inEditor
    ensures r.Ok? ==> GetComponent(r.value.player.value, PlayerClass).Some? &&
                      !GetComponent(r.value.player.value, PlayerClass).value.onGround
    ensures r.Ok? ==> |r.value.objects| >= |w.objects|
  {
    var followed := w.(camera := Follow(w.camera, w.player.value.transform.position));
    var moved :- UpdateObject(followed, PlayerRef, dt, input);
    var cleared :- SetOnGround(moved.player.value, false);
    Ok(moved.(player := Some(cleared)))
  }

  /** LevelScene.update: the player half, then the collision pass over the
      whole list. The list ends as long as it started, and the camera ends at
      CAMERA_OFFSET_GROUND_Y or above. */
  function LevelUpdate(w: World, dt: real, input: Input): (r: Result<World>)
    requires w.player.Some? && w.playerBounds.Some?
    ensures r.Ok? ==> PlayerStep(w, dt, input).Ok? && |r.value.objects| == |PlayerStep(w, dt, input).value.objects|
    ensures r.Ok? ==> r.value.camera.y <= Physics.CAMERA_OFFSET_GROUND_Y
    ensures r.Ok? ==> r.value.player.Some? && r.value.playerBounds == w.playerBounds && r.value.inEditor == w.inEditor
  {
    var stepped :- PlayerStep(w, dt, input);
    CollideFrom(stepped, 0, dt, input)
  }

  /** An object whose every component is inert. */
  predicate Still(g: GameObject) {
    forall j :: 0 <= j < |g.components| ==> Inert(g.components[j])
  }

  /** Over a list of inert objects none of which touches the player, the
      collision pass changes nothing. */
  lemma {:induction false} QuietPass(w: World, k: nat, dt: real, input: Input)
    requires w.player.Some? && w.playerBounds.Some? && k <= |w.objects|
    requires forall j :: k <= j < |w.objects| ==> Still(w.objects[j]) && !Touches(w, w.objects[j])
    ensures CollideFrom(w, k, dt, input) == Ok(w)
    decreases |w.objects| - k
  {
    if k < |w.objects| {
      QuietStep(w, k, dt, input);
      QuietPass(w, k + 1, dt, input);
    }
  }

  /** An inert object out of the player's reach passes without effect. */
  lemma QuietStep(w: World, k: nat, dt: real, input: Input)
    requires w.player.Some? && w.playerBounds.Some? && k < |w.objects|
    requires Still(w.objects[k]) && !Touches(w, w.objects[k])
    ensures CollideFrom(w, k, dt, input) == CollideFrom(w, k + 1, dt, input)
  {
    InertUpdate(w, ObjectRef(k), 0, dt, input);
    assert UpdateObject(w, ObjectRef(k), dt, input) == Ok(w);
    assert Collide(w, w.objects[k]) == Ok(w);
  }

  /** A frame in which nothing of the list touches the player leaves the
      player airborne: onGround is cleared after the player's own update and
      only a contact sets it again. */
  lemma QuietFrame(w: World, dt: real, input: Input)
    requires w.player.Some? && w.playerBounds.Some? && PlayerStep(w, dt, input).Ok?
    requires var v := PlayerStep(w, dt, input).value;
      forall j :: 0 <= j < |v.objects| ==> Still(v.objects[j]) && !Touches(v, v.objects[j])
    ensures LevelUpdate(w, dt, input) == PlayerStep(w, dt, input)
    ensures LevelUpdate(w, dt, input).Ok? &&
      !GetComponent(LevelUpdate(w, dt, input).value.player.value, PlayerClass).value.onGround
  {
    QuietPass(PlayerStep(w, dt, input).value, 0, dt, input);
  }

  const LAYER_ONE := "assets/player/layerOne.png"
  const LAYER_TWO := "assets/player/layerTwo.png"
  const LAYER_THREE := "assets/player/layerThree.png"
  const GROUND_SPRITES := "assets/groundSprites.png"

  /** initAssetPool: the three player layers (13 columns, 65 tiles) and the
      ground tiles (6 columns, 12 tiles), all 42 by 42 with spacing 2. */
  function InitAssetPool(pool: Assets.Pool, load: Assets.Loader): (r: Result<Assets.Pool>)
    ensures r.Ok? ==> r.value.cwd == pool.cwd
    ensures r.Ok? ==> Assets.HasSpritesheet(r.value, LAYER_ONE) && Assets.HasSpritesheet(r.value, LAYER_TWO) &&
                      Assets.HasSpritesheet(r.value, LAYER_THREE) && Assets.HasSpritesheet(r.value, GROUND_SPRITES)
  {
    var p1 :- Assets.AddSpritesheet(pool, LAYER_ONE, 42, 42, 2, 13, 13 * 5, load);
    var p2 :- Assets.AddSpritesheet(p1, LAYER_TWO, 42, 42, 2, 13, 13 * 5, load);
    var p3 :- Assets.AddSpritesheet(p2, LAYER_THREE, 42, 42, 2, 13, 13 * 5, load);
    Assets.AddSpritesheet(p3, GROUND_SPRITES, 42, 42, 2, 6, 12, load)
  }

  /** A loader that reads every file as the same w by h image. */
  function Uniform(w: int, h: int): (load: Assets.Loader)
    ensures forall p :: load(p) == Some(Sprites.Loaded(0, w, h))
  {
    p => Some(Sprites.Loaded(0, w, h))
  }

  /** The ground sheet, two rows of six 42 by 42 tiles 2 apart, needs an
      image of at least 262 by 86: on a smaller one a tile's region leaves
      the image and addSpritesheet stops. */
  lemma GroundSheetBounds(cwd: Assets.Directory, w: int, h: int)
    ensures Assets.AddSpritesheet(Assets.EmptyPool(cwd), GROUND_SPRITES, 42, 42, 2, 6, 12, Uniform(w, h)).Ok? <==>
      w >= 262 && h >= 86
    ensures w < 42 || h < 42 ==>
      Assets.AddSpritesheet(Assets.EmptyPool(cwd), GROUND_SPRITES, 42, 42, 2, 6, 12, Uniform(w, h)) == Fail(SubimageOutside(0))
  {
  }

  /** The player init builds: at (500, 350), zIndex 0, carrying a Player, a
      rigid body moving right at PLAYER_SPEED and two boxes of the player's
      size (the second one is playerBounds). */
  function LevelPlayer(): (g: GameObject)
    ensures g.name == "Player" && g.transform == FromPosition(Vector2(500.0, 350.0)) && g.zIndex == 0
    ensures |g.components| == 4 && !g.isUi
    ensures GetComponent(g, PlayerClass) == Some(NewPlayer())
    ensures GetComponent(g, RigidBodyClass) == Some(RigidBodyComponent(Vector2(Physics.PLAYER_SPEED, 0.0)))
    ensures GetComponent(g, BoxBoundsClass) == Some(BoxBoundsComponent(PlayerBox()))
    ensures g.components[3] == BoxBoundsComponent(PlayerBox())
  {
    var box := BoxBoundsComponent(PlayerBox());
    var moving := RigidBodyComponent(Vector2(Physics.PLAYER_SPEED, 0.0));
    var g := AddComponent(AddComponent(AddComponent(AddComponent(New("Player", FromPosition(Vector2(500.0, 350.0)), 0),
      NewPlayer()), moving), box), box);
    assert g.components == [NewPlayer(), moving, box, box];
    assert FirstMatch(g.components, RigidBodyClass) == 1 by {
      assert g.components[1..] == [moving, box, box];
    }
    assert FirstMatch(g.components, BoxBoundsClass) == 2 by {
      assert g.components[1..] == [moving, box, box];
      assert g.components[1..][1..] == [box, box];
      assert FirstMatch(g.components[1..][1..], BoxBoundsClass) == 0;
      assert FirstMatch(g.components[1..], BoxBoundsClass) == 1;
    }
    g
  }

  /** A box of the player's size. */
  function PlayerBox(): (b: Bounds.BoxBounds)
    ensures b.kind == Bounds.Box && Bounds.Proportioned(b)
    ensures b.width == PLAYER_WIDTH as real && b.height == PLAYER_HEIGHT as real
  {
    Bounds.NewBoxBounds(PLAYER_WIDTH as real, PLAYER_HEIGHT as real)
  }

  /** The ground initBackgrounds adds: at (0, GROUND_Y), zIndex 1, carrying
      only a Ground component, so it has no bounds to collide with. */
  function LevelGround(): (g: GameObject)
    ensures g.name == "ground" && g.transform == FromPosition(Vector2(0.0, Physics.GROUND_Y)) && g.zIndex == 1
    ensures |g.components| == 1 && GetComponent(g, GroundClass) == Some(GroundComponent)
    ensures GetComponent(g, BoundsClass).None? && GetComponent(g, PlayerClass).None?
  {
    AddComponent(New("ground", FromPosition(Vector2(0.0, Physics.GROUND_Y)), 1), GroundComponent)
  }

  /** LevelScene's constructor, then init up to the import: the player
      submitted to the renderer at zIndex 0 but kept out of the list, its
      box kept as playerBounds, and the ground added to the list. */
  function Staged(name: string): (w: World)
    ensures w.name == name && !w.inEditor && w.camera == Origin && w.cursor.None?
    ensures w.player == Some(LevelPlayer()) && w.playerBounds == Some(PlayerBox())
    ensures w.objects == [LevelGround()]
    ensures Rendering.Bucket(w.renderer, 0) == [PlayerRef]
    ensures Coherent(w)
  {
    var w := NewScene(name, false);
    var held := w.(player := Some(LevelPlayer()), playerBounds := Some(PlayerBox()),
                   renderer := Rendering.Submit(w.renderer, 0, PlayerRef));
    assert Coherent(held) by {
      assert held.renderer.buckets.Keys == {0} && Rendering.Bucket(held.renderer, 0) == [PlayerRef];
    }
    AddKeepsCoherent(held, LevelGround());
    AddGameObject(held, LevelGround())
  }

  /** LevelScene's constructor and init: the asset sheets, the staged
      player and ground, then the level file imported after them. */
  function InitLevel(name: string, archive: Archive, pool: Assets.Pool, load: Assets.Loader): (r: Result<(World, Assets.Pool)>)
    ensures archive.Unreadable? ==> r.Fail?
    ensures r.Ok? ==> InitAssetPool(pool, load).Ok? && r.value.1 == InitAssetPool(pool, load).value
    ensures r.Ok? ==> r.value.0.name == name && !r.value.0.inEditor && r.value.0.camera == Origin
    ensures r.Ok? ==> r.value.0.player == Some(LevelPlayer()) && r.value.0.playerBounds == Some(PlayerBox())
  {
    var pool' :- InitAssetPool(pool, load);
    var imported :- LevelFiles.ImportLevel(Staged(name), archive, pool');
    Ok((imported, pool'))
  }

  /** After init the list is the ground followed by the file's objects in
      file order, and the player is the first thing drawn at zIndex 0. */
  lemma LevelStart(name: string, bytes: seq<char>, pool: Assets.Pool, load: Assets.Loader)
    requires InitLevel(name, Contents(bytes), pool, load).Ok?
    ensures var w := InitLevel(name, Contents(bytes), pool, load).value.0;
      var read := LevelFiles.ReadObjects(ParserState(bytes, 0, 1), InitAssetPool(pool, load).value);
      read.Ok? && w == AddAll(Staged(name), read.value) && w.objects == [LevelGround()] + read.value &&
      |Rendering.Bucket(w.renderer, 0)| > 0 && Rendering.Bucket(w.renderer, 0)[0] == PlayerRef
  {
    var pool' := InitAssetPool(pool, load).value;
    var read := LevelFiles.ReadObjects(ParserState(bytes, 0, 1), pool');
    var staged := Staged(name);
    LevelFiles.ImportAppends(staged, bytes, pool');
    AddAllAppends(staged, read.value);
    Rendering.SubmitAllBuckets(staged.renderer, Submissions(1, read.value), 0);
  }

  /** Staging followed by objects of persistent kinds only: every name the
      renderer holds resolves, and no object of the list carries a Player
      component, so the player updates once per frame, through its own
      step. */
  lemma StagedSound(name: string, gs: seq<GameObject>)
    requires forall i :: 0 <= i < |gs| ==> AllPersistent(gs[i].components)
    ensures Coherent(AddAll(Staged(name), gs))
    ensures forall i :: 0 <= i < |AddAll(Staged(name), gs).objects| ==>
      GetComponent(AddAll(Staged(name), gs).objects[i], PlayerClass).None?
  {
    AddAllKeepsCoherent(Staged(name), gs);
    AddAllAppends(Staged(name), gs);
    var w := AddAll(Staged(name), gs);
    forall i | 0 <= i < |w.objects|
      ensures GetComponent(w.objects[i], PlayerClass).None?
    {
      if i > 0 {
        assert w.objects[i] == gs[i - 1];
      }
    }
  }

  /** After init every name the renderer holds resolves and no object of the
      list is a player. */
  lemma LevelStartSound(name: string, bytes: seq<char>, pool: Assets.Pool, load: Assets.Loader)
    requires InitLevel(name, Contents(bytes), pool, load).Ok?
    ensures var w := InitLevel(name, Contents(bytes), pool, load).value.0;
      Coherent(w) && forall i :: 0 <= i < |w.objects| ==> GetComponent(w.objects[i], PlayerClass).None?
  {
    var pool' := InitAssetPool(pool, load).value;
    var read := LevelFiles.ReadObjects(ParserState(bytes, 0, 1), pool');
    LevelStart(name, bytes, pool, load);
    LevelFiles.ReadObjectsPersistent(ParserState(bytes, 0, 1), pool');
    StagedSound(name, read.value);
  }
}
