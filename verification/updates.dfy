/** The per-frame update of components (Component.update in each class of
    src/Component/ and the loop of GameObject.update), acting on the scene
    value: a rigid body moves its owner, the player jumps and spins, the
    ground holds the level's player up, and the grid cursor snaps and places
    copies. Sprites and bounds do nothing on update. */
module Updates {
  import opened Results
  import opened Vectors
  import opened Transforms
  import opened Components
  import opened GameObjects
  import opened Scenes
  import Physics

  /** The mouse as the listener leaves it for a frame: position, drag offset,
      whether a button is down and which one. */
  datatype Mouse = Mouse(x: real, y: real, dx: real, dy: real, pressed: bool, button: int)

  /** The keys the engine polls and the mouse, for one frame. */
  datatype Input = Input(space: bool, keyS: bool, keyL: bool, keyE: bool, mouse: Mouse)

  /** MouseEvent.BUTTON1. */
  const BUTTON1: int := 1

  /** Two components answer to the same classes. */
  predicate SameKind(a: Component, b: Component) {
    forall cap :: Provides(a, cap) <==> Provides(b, cap)
  }

  /** Replacing a component by one of the same kind changes no lookup's
      position. */
  lemma {:induction false} FirstMatchReplace(cs: seq<Component>, i: nat, c: Component, cap: Capability)
    requires i < |cs| && SameKind(cs[i], c)
    ensures FirstMatch(cs[i := c], cap) == FirstMatch(cs, cap)
  {
    if i > 0 {
      assert cs[i := c][1..] == cs[1..][i - 1 := c];
      FirstMatchReplace(cs[1..], i - 1, c, cap);
    }
  }

  /** The object with its k-th component replaced. */
  function SetComponent(g: GameObject, k: nat, c: Component): (r: GameObject)
    requires k < |g.components|
    ensures r.components == g.components[k := c]
    ensures r.transform == g.transform && r.name == g.name && r.zIndex == g.zIndex
    ensures r.isUi == g.isUi && r.serializable == g.serializable
  {
    g.(components := g.components[k := c])
  }

  /** Replacing the k-th component by one of its kind leaves every lookup
      for a class the new component does not answer to as it was. */
  lemma ReplaceKeepsLookup(g: GameObject, k: nat, c: Component, other: Capability)
    requires k < |g.components| && SameKind(g.components[k], c) && !Provides(c, other)
    ensures GetComponent(SetComponent(g, k, c), other) == GetComponent(g, other)
  {
    FirstMatchReplace(g.components, k, c, other);
  }

  /** The lookup the replaced component answered now finds its replacement. */
  lemma ReplaceFound(g: GameObject, cap: Capability, c: Component)
    requires FirstMatch(g.components, cap) < |g.components|
    requires SameKind(g.components[FirstMatch(g.components, cap)], c)
    ensures GetComponent(SetComponent(g, FirstMatch(g.components, cap), c), cap) == Some(c)
  {
    FirstMatchReplace(g.components, FirstMatch(g.components, cap), c, cap);
  }

  /** getComponent(RigidBody.class).velocity.y = vy; a null lookup throws. */
  function SetVelocityY(g: GameObject, vy: real): (r: Result<GameObject>)
    ensures r.Ok? <==> GetComponent(g, RigidBodyClass).Some?
    ensures r.Ok? ==> (GetComponent(r.value, RigidBodyClass).Some? &&
      GetComponent(r.value, RigidBodyClass).value.velocity ==
        GetComponent(g, RigidBodyClass).value.velocity.(y := vy))
    ensures r.Ok? ==> forall other :: other != RigidBodyClass ==> GetComponent(r.value, other) == GetComponent(g, other)
    ensures r.Ok? ==> r.value.transform == g.transform && |r.value.components| == |g.components|
    ensures r.Ok? ==> forall j :: 0 <= j < |g.components| && !g.components[j].RigidBodyComponent? ==>
      r.value.components[j] == g.components[j]
  {
    var i := FirstMatch(g.components, RigidBodyClass);
    if i < |g.components| then
      var c := RigidBodyComponent(g.components[i].velocity.(y := vy));
      ReplaceFound(g, RigidBodyClass, c);
      forall other | other != RigidBodyClass
        ensures GetComponent(SetComponent(g, i, c), other) == GetComponent(g, other)
      {
        ReplaceKeepsLookup(g, i, c, other);
      }
      Ok(SetComponent(g, i, c))
    else Fail(NullComponent("RigidBody"))
  }

  /** getComponent(Player.class).onGround = b; a null lookup throws. */
  function SetOnGround(g: GameObject, b: bool): (r: Result<GameObject>)
    ensures r.Ok? <==> GetComponent(g, PlayerClass).Some?
    ensures r.Ok? ==> GetComponent(r.value, PlayerClass).Some? && GetComponent(r.value, PlayerClass).value.onGround == b
    ensures r.Ok? ==> forall other :: other != PlayerClass ==> GetComponent(r.value, other) == GetComponent(g, other)
    ensures r.Ok? ==> r.value.transform == g.transform && |r.value.components| == |g.components|
  {
    var i := FirstMatch(g.components, PlayerClass);
    if i < |g.components| then
      var c := g.components[i].(onGround := b);
      ReplaceFound(g, PlayerClass, c);
      forall other | other != PlayerClass
        ensures GetComponent(SetComponent(g, i, c), other) == GetComponent(g, other)
      {
        ReplaceKeepsLookup(g, i, c, other);
      }
      Ok(SetComponent(g, i, c))
    else Fail(NullComponent("Player"))
  }

  function MoveTo(g: GameObject, p: Vector2): GameObject {
    g.(transform := g.transform.(position := p))
  }

  /** The player comes to rest with its top edge at `y`: no vertical speed,
      on the ground (the landing branch of BoxBounds.resolveCollision and of
      Ground.update). A missing RigidBody or Player throws. */
  function Land(pl: GameObject, y: real): (r: Result<GameObject>)
    ensures r.Ok? <==> GetComponent(pl, RigidBodyClass).Some? && GetComponent(pl, PlayerClass).Some?
    ensures r.Ok? ==> r.value.transform == pl.transform.(position := Vector2(pl.transform.position.x, y))
    ensures r.Ok? ==> GetComponent(r.value, RigidBodyClass).Some? && GetComponent(r.value, PlayerClass).Some?
    ensures r.Ok? ==> GetComponent(r.value, RigidBodyClass).value.velocity.y == 0.0
    ensures r.Ok? ==> GetComponent(r.value, PlayerClass).value.onGround
    ensures r.Ok? ==> |r.value.components| == |pl.components|
    ensures GetComponent(pl, RigidBodyClass).None? ==> r == Fail(NullComponent("RigidBody"))
    ensures GetComponent(pl, RigidBodyClass).Some? && GetComponent(pl, PlayerClass).None? ==>
      r == Fail(NullComponent("Player"))
  {
    var moved := MoveTo(pl, Vector2(pl.transform.position.x, y));
    var stopped :- SetVelocityY(moved, 0.0);
    SetOnGround(stopped, true)
  }

  /** Ground.update's landing: the same rest as Land, but the Player flag is
      set before the RigidBody speed, so a missing Player is reported first. */
  function GroundLand(pl: GameObject, y: real): (r: Result<GameObject>)
    ensures r.Ok? <==> GetComponent(pl, RigidBodyClass).Some? && GetComponent(pl, PlayerClass).Some?
    ensures r.Ok? ==> r.value.transform == pl.transform.(position := Vector2(pl.transform.position.x, y))
    ensures r.Ok? ==> GetComponent(r.value, RigidBodyClass).Some? && GetComponent(r.value, PlayerClass).Some?
    ensures r.Ok? ==> GetComponent(r.value, RigidBodyClass).value.velocity.y == 0.0
    ensures r.Ok? ==> GetComponent(r.value, PlayerClass).value.onGround
    ensures r.Ok? ==> |r.value.components| == |pl.components|
    ensures GetComponent(pl, PlayerClass).None? ==> r == Fail(NullComponent("Player"))
    ensures GetComponent(pl, PlayerClass).Some? && GetComponent(pl, RigidBodyClass).None? ==>
      r == Fail(NullComponent("RigidBody"))
  {
    var moved := MoveTo(pl, Vector2(pl.transform.position.x, y));
    var grounded :- SetOnGround(moved, true);
    SetVelocityY(grounded, 0.0)
  }

  /** Player.die, on the level's player: back to the respawn point, and the
      camera back to x = 0; velocity, onGround and camera.y are untouched.
      Reaching die through a missing Player throws. */
  function Die(w: World): (r: Result<World>)
    requires w.player.Some?
    ensures r.Ok? <==> GetComponent(w.player.value, PlayerClass).Some?
    ensures r.Ok? ==> r.value.player == Some(MoveTo(w.player.value, Physics.RESPAWN))
    ensures r.Ok? ==> r.value.camera == Vector2(0.0, w.camera.y)
    ensures r.Ok? ==> r.value.objects == w.objects && r.value.cursor == w.cursor
  {
    var pl := w.player.value;
    if GetComponent(pl, PlayerClass).None? then Fail(NullComponent("Player"))
    else Ok(w.(player := Some(MoveTo(pl, Physics.RESPAWN)), camera := w.camera.(x := 0.0)))
  }

  /** RigidBody.update of the k-th component. */
  function RigidBodyUpdate(g: GameObject, k: nat, dt: real): (r: GameObject)
    requires k < |g.components| && g.components[k].RigidBodyComponent?
    ensures var m := Physics.RigidBodyStep(Physics.Motion(g.transform.position, g.components[k].velocity), dt);
      r.transform == g.transform.(position := m.position) &&
      r.components == g.components[k := RigidBodyComponent(m.velocity)]
  {
    var m := Physics.RigidBodyStep(Physics.Motion(g.transform.position, g.components[k].velocity), dt);
    SetComponent(MoveTo(g, m.position), k, RigidBodyComponent(m.velocity))
  }

  /** Player.update of the k-th component: the jump, when the player stands
      and space is down, sets the speed of the owner's first rigid body and
      leaves the ground; then the owner spins while airborne and settles its
      rotation while grounded (PlayerSteps). */
  function PlayerUpdate(g: GameObject, k: nat, dt: real, space: bool): (r: Result<GameObject>)
    requires k < |g.components| && g.components[k].PlayerComponent?
    ensures var p := g.components[k];
      r.Ok? <==> !Physics.Jumps(p.onGround, space) || GetComponent(g, RigidBodyClass).Some?
    ensures r.Ok? ==> |r.value.components| == |g.components|
  {
    var p := g.components[k];
    var jumps := Physics.Jumps(p.onGround, space);
    var pushed :- JumpForce(g, jumps);
    var stands := p.onGround && !jumps;
    var marked := SetComponent(pushed, k, p.(onGround := stands));
    Ok(marked.(transform := marked.transform.(rotation := Physics.Rotate(stands, g.transform.rotation, dt))))
  }

  /** After Player.update the player stands exactly when it stood and space
      was up; the rotation is the spun or settled one; a jump has set the
      first rigid body's vertical speed to JUMP_FORCE, and without a jump no
      other component changes. */
  lemma PlayerSteps(g: GameObject, k: nat, dt: real, space: bool)
    requires k < |g.components| && g.components[k].PlayerComponent?
    requires PlayerUpdate(g, k, dt, space).Ok?
    ensures var p := g.components[k]; var stands := p.onGround && !space;
      var h := PlayerUpdate(g, k, dt, space).value;
      h.components[k] == p.(onGround := stands) &&
      h.transform == g.transform.(rotation := Physics.Rotate(stands, g.transform.rotation, dt))
    ensures var p := g.components[k]; var h := PlayerUpdate(g, k, dt, space).value;
      Physics.Jumps(p.onGround, space) ==>
        GetComponent(h, RigidBodyClass).Some? && GetComponent(h, RigidBodyClass).value.velocity.y == Physics.JUMP_FORCE
    ensures var p := g.components[k]; var h := PlayerUpdate(g, k, dt, space).value;
      !Physics.Jumps(p.onGround, space) ==>
        forall j :: 0 <= j < |g.components| && j != k ==> h.components[j] == g.components[j]
  {
    var p := g.components[k];
    var jumps := Physics.Jumps(p.onGround, space);
    var pushed := JumpForce(g, jumps).value;
    var stands := p.onGround && !jumps;
    if jumps {
      ReplaceKeepsLookup(pushed, k, p.(onGround := stands), RigidBodyClass);
    }
  }

  /** addJumpForce, when the jump happens. */
  function JumpForce(g: GameObject, jumps: bool): (r: Result<GameObject>)
    ensures !jumps ==> r == Ok(g)
    ensures jumps ==> (r.Ok? <==> GetComponent(g, RigidBodyClass).Some?)
    ensures r.Ok? ==> r.value.transform == g.transform && |r.value.components| == |g.components|
    ensures jumps && r.Ok? ==>
      GetComponent(r.value, RigidBodyClass).Some? && GetComponent(r.value, RigidBodyClass).value.velocity.y == Physics.JUMP_FORCE
    ensures r.Ok? ==> forall j :: 0 <= j < |g.components| && !g.components[j].RigidBodyComponent? ==>
      r.value.components[j] == g.components[j]
  {
    if jumps then SetVelocityY(g, Physics.JUMP_FORCE) else Ok(g)
  }

  /** Ground.update: in play mode the level's player is pushed back onto the
      ground line when its first box reaches below it; in both modes the
      ground follows the camera. */
  function GroundUpdate(w: World, owner: Ref): (r: Result<World>)
    requires Get(w, owner).Some?
    ensures r.Ok? ==> Get(r.value, owner).Some? && |Get(r.value, owner).value.components| == |Get(w, owner).value.components|
    ensures r.Ok? ==> r.value.objects == w.objects || (owner.ObjectRef? && |r.value.objects| == |w.objects|)
    ensures r.Ok? ==> |r.value.objects| == |w.objects| && r.value.camera == w.camera && r.value.renderer == w.renderer
    ensures r.Ok? ==> Get(r.value, owner).value.transform.position.x == w.camera.x - Physics.GROUND_MARGIN
    ensures r.Ok? ==> r.value.inEditor == w.inEditor && r.value.playerBounds == w.playerBounds
    ensures w.inEditor ==> r.Ok?
    ensures w.inEditor && r.Ok? && !owner.PlayerRef? ==> r.value.player == w.player
    ensures r.Ok? ==> r.value.player.Some? == w.player.Some? && r.value.cursor.Some? == w.cursor.Some?
  {
    var ground := Get(w, owner).value;
    if w.inEditor then
      Ok(Put(w, owner, MoveTo(ground, ground.transform.position.(x := w.camera.x - Physics.GROUND_MARGIN))))
    else
      var held :- HoldUp(w, ground.transform.position.y);
      var g := Get(held, owner).value;
      Ok(Put(held, owner, MoveTo(g, g.transform.position.(x := w.camera.x - Physics.GROUND_MARGIN))))
  }

  /** The play-mode test of Ground.update against a line at `groundY`. */
  function HoldUp(w: World, groundY: real): (r: Result<World>)
    ensures r.Ok? ==> w.player.Some? && r.value.player.Some?
    ensures r.Ok? ==> r.value == w.(player := r.value.player)
    ensures r.Ok? ==> |r.value.player.value.components| == |w.player.value.components|
    ensures r.Ok? ==> GetComponent(w.player.value, BoxBoundsClass).Some?
    ensures r.Ok? ==>
      var pl := w.player.value;
      var l := Physics.GroundSnap(pl.transform.position.y, GetComponent(pl, BoxBoundsClass).value.bounds.height, groundY);
      r.value.player.value.transform.position == Vector2(pl.transform.position.x, l.y) &&
      (l.landed ==> GetComponent(r.value.player.value, PlayerClass).Some? &&
                    GetComponent(r.value.player.value, PlayerClass).value.onGround) &&
      (!l.landed ==> r.value == w)
  {
    match w.player
    case None => Fail(NullComponent("Player"))
    case Some(pl) =>
      match GetComponent(pl, BoxBoundsClass)
      case None => Fail(NullComponent("BoxBounds"))
      case Some(box) =>
        var l := Physics.GroundSnap(pl.transform.position.y, box.bounds.height, groundY);
        if l.landed then
          var landed :- GroundLand(pl, l.y);
          Ok(w.(player := Some(landed)))
        else Ok(w)
  }

  /** The three conditions SnapToGrid needs to place a copy: the mouse above
      the button bar, the first button down, and the debounce spent. */
  predicate Places(mouse: Mouse, debounceLeft: real) {
    mouse.y < Physics.BUTTON_OFFSET_Y && mouse.pressed && mouse.button == BUTTON1 && debounceLeft < 0.0
  }

  /** The grid cell under the mouse, in world coordinates. */
  function Cell(mouse: Mouse, camera: Vector2, gridWidth: GridSize, gridHeight: GridSize): (cell: (int, int))
    ensures cell.0 as real * gridWidth as real <= mouse.x + camera.x + mouse.dx < (cell.0 + 1) as real * gridWidth as real
    ensures cell.1 as real * gridHeight as real <= mouse.y + camera.y + mouse.dy < (cell.1 + 1) as real * gridHeight as real
  {
    var qx := (mouse.x + camera.x + mouse.dx) / gridWidth as real;
    var qy := (mouse.y + camera.y + mouse.dy) / gridHeight as real;
    FloorScaled(mouse.x + camera.x + mouse.dx, gridWidth as real);
    FloorScaled(mouse.y + camera.y + mouse.dy, gridHeight as real);
    (qx.Floor, qy.Floor)
  }

  lemma FloorScaled(v: real, size: real)
    requires size > 0.0
    ensures (v / size).Floor as real * size <= v
    ensures v < ((v / size).Floor + 1) as real * size
  {
    var q := v / size;
    var n := q.Floor;
    assert n as real <= q < n as real + 1.0;
    assert q * size == v;
    MulMonotone(n as real, q, size);
    MulMonotone(q, n as real + 1.0, size);
    assert (n + 1) as real == n as real + 1.0;
    assert q * size < (n + 1) as real * size;
    assert v < (n + 1) as real * size;
    assert ((v / size).Floor + 1) as real == (n + 1) as real;
  }

  lemma MulMonotone(a: real, b: real, size: real)
    requires size > 0.0 && a <= b
    ensures a * size <= b * size
    ensures a < b ==> a * size < b * size
  {
  }

  /** The corner of a grid cell, in world coordinates. */
  function Corner(cell: (int, int), gridWidth: GridSize, gridHeight: GridSize): Vector2 {
    Vector2(cell.0 as real * gridWidth as real, cell.1 as real * gridHeight as real)
  }

  /** SnapToGrid.update of the k-th component: the debounce runs down; with a
      sprite on the cursor, the cursor snaps to the cell under the mouse (drawn
      at screen position, so minus the camera) and, when Places holds, a copy
      of it is added to the scene at that cell and the debounce restarts. The
      sprite lookup is the same before and after the debounce changes, since
      a SnapToGrid is not a Sprite. */
  function SnapUpdate(w: World, owner: Ref, k: nat, dt: real, mouse: Mouse): (r: World)
    requires Get(w, owner).Some? && k < |Get(w, owner).value.components|
    requires Get(w, owner).value.components[k].SnapToGridComponent?
    ensures Get(r, owner).Some? && |Get(r, owner).value.components| == |Get(w, owner).value.components|
    ensures |r.objects| >= |w.objects| && r.camera == w.camera && r.inEditor == w.inEditor
    ensures r.playerBounds == w.playerBounds && r.player.Some? == w.player.Some? && r.cursor.Some? == w.cursor.Some?
  {
    var g := Get(w, owner).value;
    var s := g.components[k];
    var left := s.debounceLeft - dt;
    var counted := SetComponent(g, k, s.(debounceLeft := left));
    if GetComponent(g, SpriteClass).None? then Put(w, owner, counted)
    else
      var at := Corner(Cell(mouse, w.camera, s.gridWidth, s.gridHeight), s.gridWidth, s.gridHeight);
      var snapped := MoveTo(counted, Vector2(at.x - w.camera.x, at.y - w.camera.y));
      if Places(mouse, left) then
        Place(Put(w, owner, SetComponent(snapped, k, s.(debounceLeft := DEBOUNCE_TIME))), owner, at)
      else Put(w, owner, snapped)
  }

  /** The placing half of SnapToGrid.update: a copy of the cursor, moved to
      `at`, added to the scene. */
  function Place(w: World, owner: Ref, at: Vector2): (r: World)
    requires Get(w, owner).Some?
    ensures Get(r, owner) == Get(w, owner)
    ensures r.objects == w.objects + [Placed(Get(w, owner).value, at)]
    ensures r.camera == w.camera && r.inEditor == w.inEditor
    ensures r.playerBounds == w.playerBounds && r.player == w.player && r.cursor == w.cursor
  {
    AddGameObject(w, Placed(Get(w, owner).value, at))
  }

  /** What the cursor puts down: its copy, at `at`. */
  function Placed(cursor: GameObject, at: Vector2): GameObject {
    var copy := GameObjects.Copy(cursor);
    copy.(transform := copy.transform.(position := at))
  }

  /** What a placed tile is: a serializable, non-UI object of the cursor's
      zIndex at `at`, holding copies of the cursor's sprites and boxes only,
      so its own update does nothing (InertUpdate) and the placing cursor
      itself is not copied. */
  lemma PlacedTile(cursor: GameObject, at: Vector2)
    ensures var t := Placed(cursor, at);
      t.transform.position == at && t.transform.rotation == cursor.transform.rotation &&
      t.zIndex == cursor.zIndex && t.serializable && !t.isUi && t.name == "Generated" &&
      |t.components| == |Persistents(cursor.components)| &&
      (forall j :: 0 <= j < |t.components| ==> Inert(t.components[j])) &&
      (forall j :: 0 <= j < |t.components| ==> !t.components[j].SnapToGridComponent?)
  {
    var t := Placed(cursor, at);
    var ps := Persistents(cursor.components);
    forall j | 0 <= j < |t.components|
      ensures Inert(t.components[j])
    {
      assert Persistent(ps[j]);
      assert Components.Copy(ps[j]) == Some(t.components[j]);
    }
  }

  /** When the cursor has a sprite and Places holds, SnapToGrid.update adds
      exactly one object: the cursor's copy at the corner of the cell under
      the mouse; the cursor sits on that corner on screen and its debounce
      restarts at DEBOUNCE_TIME. */
  lemma SnapPlaces(w: World, owner: Ref, k: nat, dt: real, mouse: Mouse)
    requires Get(w, owner).Some? && k < |Get(w, owner).value.components|
    requires Get(w, owner).value.components[k].SnapToGridComponent?
    requires var s := Get(w, owner).value.components[k];
      GetComponent(Get(w, owner).value, SpriteClass).Some? && Places(mouse, s.debounceLeft - dt)
    ensures var s := Get(w, owner).value.components[k];
      var r := SnapUpdate(w, owner, k, dt, mouse);
      var cursor := Get(r, owner).value;
      var at := Corner(Cell(mouse, w.camera, s.gridWidth, s.gridHeight), s.gridWidth, s.gridHeight);
      cursor.components == Get(w, owner).value.components[k := s.(debounceLeft := DEBOUNCE_TIME)] &&
      cursor.transform.position == Vector2(at.x - w.camera.x, at.y - w.camera.y) &&
      r.objects == Put(w, owner, cursor).objects + [Placed(cursor, at)]
  {
  }

  /** Otherwise nothing is added: the debounce runs down by dt and, with a
      sprite, the cursor snaps on screen to the cell under the mouse. */
  lemma SnapWaits(w: World, owner: Ref, k: nat, dt: real, mouse: Mouse)
    requires Get(w, owner).Some? && k < |Get(w, owner).value.components|
    requires Get(w, owner).value.components[k].SnapToGridComponent?
    requires var s := Get(w, owner).value.components[k];
      !(GetComponent(Get(w, owner).value, SpriteClass).Some? && Places(mouse, s.debounceLeft - dt))
    ensures var s := Get(w, owner).value.components[k];
      var r := SnapUpdate(w, owner, k, dt, mouse);
      var cursor := Get(r, owner).value;
      var at := Corner(Cell(mouse, w.camera, s.gridWidth, s.gridHeight), s.gridWidth, s.gridHeight);
      cursor.components == Get(w, owner).value.components[k := s.(debounceLeft := s.debounceLeft - dt)] &&
      (GetComponent(Get(w, owner).value, SpriteClass).Some? ==>
         cursor.transform.position == Vector2(at.x - w.camera.x, at.y - w.camera.y)) &&
      (GetComponent(Get(w, owner).value, SpriteClass).None? ==> cursor.transform == Get(w, owner).value.transform) &&
      r == Put(w, owner, cursor)
  {
  }

  /** Component.update of the owner's k-th component. */
  function UpdateComponent(w: World, owner: Ref, k: nat, dt: real, input: Input): (r: Result<World>)
    requires Get(w, owner).Some? && k < |Get(w, owner).value.components|
    ensures r.Ok? ==> Get(r.value, owner).Some? && |Get(r.value, owner).value.components| == |Get(w, owner).value.components|
    ensures r.Ok? ==> |r.value.objects| >= |w.objects|
    ensures r.Ok? ==> r.value.camera == w.camera && r.value.playerBounds == w.playerBounds && r.value.inEditor == w.inEditor
    ensures r.Ok? ==> r.value.player.Some? == w.player.Some? && r.value.cursor.Some? == w.cursor.Some?
  {
    var g := Get(w, owner).value;
    match g.components[k]
    case SpriteComponent(_) => Ok(w)
    case BoxBoundsComponent(_) => Ok(w)
    case RigidBodyComponent(_) => Ok(Put(w, owner, RigidBodyUpdate(g, k, dt)))
    case PlayerComponent(_, _, _) =>
      var p :- PlayerUpdate(g, k, dt, input.space);
      Ok(Put(w, owner, p))
    case GroundComponent => GroundUpdate(w, owner)
    case SnapToGridComponent(_, _, _) => Ok(SnapUpdate(w, owner, k, dt, input.mouse))
  }

  /** GameObject.update: the owner's components from the k-th on, in
      insertion order, each seeing what the ones before it did. */
  function UpdateFrom(w: World, owner: Ref, k: nat, dt: real, input: Input): (r: Result<World>)
    requires Get(w, owner).Some? && k <= |Get(w, owner).value.components|
    ensures r.Ok? ==> Get(r.value, owner).Some? && |Get(r.value, owner).value.components| == |Get(w, owner).value.components|
    ensures r.Ok? ==> |r.value.objects| >= |w.objects|
    ensures r.Ok? ==> r.value.camera == w.camera && r.value.playerBounds == w.playerBounds && r.value.inEditor == w.inEditor
    ensures r.Ok? ==> r.value.player.Some? == w.player.Some? && r.value.cursor.Some? == w.cursor.Some?
    decreases |Get(w, owner).value.components| - k
  {
    if k == |Get(w, owner).value.components| then Ok(w)
    else
      var next :- UpdateComponent(w, owner, k, dt, input);
      UpdateFrom(next, owner, k + 1, dt, input)
  }

  function UpdateObject(w: World, owner: Ref, dt: real, input: Input): (r: Result<World>)
    requires Get(w, owner).Some?
    ensures r.Ok? ==> Get(r.value, owner).Some? && |Get(r.value, owner).value.components| == |Get(w, owner).value.components|
    ensures r.Ok? ==> |r.value.objects| >= |w.objects|
    ensures r.Ok? ==> r.value.camera == w.camera && r.value.playerBounds == w.playerBounds && r.value.inEditor == w.inEditor
    ensures r.Ok? ==> r.value.player.Some? == w.player.Some? && r.value.cursor.Some? == w.cursor.Some?
  {
    UpdateFrom(w, owner, 0, dt, input)
  }

  /** The kinds whose update does nothing. */
  predicate Inert(c: Component) {
    c.SpriteComponent? || c.BoxBoundsComponent?
  }

  /** An object made only of sprites and boxes (everything a level file can
      hold) changes nothing when it updates. */
  lemma {:induction false} InertUpdate(w: World, owner: Ref, k: nat, dt: real, input: Input)
    requires Get(w, owner).Some? && k <= |Get(w, owner).value.components|
    requires forall j :: k <= j < |Get(w, owner).value.components| ==> Inert(Get(w, owner).value.components[j])
    ensures UpdateFrom(w, owner, k, dt, input) == Ok(w)
    decreases |Get(w, owner).value.components| - k
  {
    if k < |Get(w, owner).value.components| {
      assert UpdateComponent(w, owner, k, dt, input) == Ok(w);
      InertUpdate(w, owner, k + 1, dt, input);
    }
  }
}
