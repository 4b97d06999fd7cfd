/** The per-frame motion rules of the player on real-valued geometry: the
    rigid-body step with gravity and the speed limit
    (src/Component/RigidBody.java), the jump and the spin of the player
    (src/Component/Player.java), the ground line (src/Component/Ground.java),
    and the constants they use (src/util/Constants.java). */
module Physics {
  import opened Vectors
  import Bounds

  const GRAVITY: real := 2850.0
  const MAX_VELOCITY: real := 1900.0
  const JUMP_FORCE: real := -650.0
  const PLAYER_SPEED: real := 395.0
  const GROUND_Y: real := 714.0
  const CAMERA_OFFSET_X: real := 300.0
  const CAMERA_OFFSET_Y: real := 325.0
  const CAMERA_OFFSET_GROUND_Y: real := 150.0
  const BUTTON_OFFSET_Y: real := 560.0
  const TILE_WIDTH: int := 42
  const TILE_HEIGHT: int := 42

  /** Degrees turned per second while airborne. */
  const SPIN_RATE: real := 12.5

  /** Where die puts the player back. */
  const RESPAWN := Vector2(0.0, 30.0)

  /** How far left of the camera the ground line starts. */
  const GROUND_MARGIN: real := 10.0

  /** The speed limit: Math.signum(v) * MAX_VELOCITY once |v| exceeds it. */
  function Limit(v: real): (r: real)
    ensures Bounds.Abs(r) <= MAX_VELOCITY
    ensures Bounds.Abs(v) > MAX_VELOCITY ==> Bounds.Abs(r) == MAX_VELOCITY && (r > 0.0 <==> v > 0.0)
  {
    if Bounds.Abs(v) > MAX_VELOCITY then (if v > 0.0 then MAX_VELOCITY else -MAX_VELOCITY) else v
  }

  /** The limited speed is the allowed speed nearest to the unlimited one;
      an allowed speed is left alone. */
  lemma LimitIsNearest(v: real, w: real)
    requires Bounds.Abs(w) <= MAX_VELOCITY
    ensures Bounds.Abs(Limit(v) - v) <= Bounds.Abs(w - v)
    ensures Bounds.Abs(v) <= MAX_VELOCITY ==> Limit(v) == v
  {
  }

  /** The position and velocity a rigid body carries between frames. */
  datatype Motion = Motion(position: Vector2, velocity: Vector2)

  /** RigidBody.update: move by the velocity the frame started with, then
      accelerate downwards (y grows downwards) and apply the speed limit. */
  function RigidBodyStep(m: Motion, dt: real): (r: Motion)
    ensures r.position.x == m.position.x + m.velocity.x * dt
    ensures r.position.y == m.position.y + m.velocity.y * dt
    ensures r.velocity.x == m.velocity.x
    ensures Bounds.Abs(r.velocity.y) <= MAX_VELOCITY
  {
    var moved := Vector2(m.position.x + m.velocity.x * dt, m.position.y + m.velocity.y * dt);
    Motion(moved, Vector2(m.velocity.x, Limit(m.velocity.y + GRAVITY * dt)))
  }

  /** Gravity never slows a body that keeps to the speed limit; it gains
      exactly GRAVITY * dt unless the limit cuts it, and a body already
      falling at the limit stays there. */
  lemma GravityPullsDown(m: Motion, dt: real)
    requires dt >= 0.0 && Bounds.Abs(m.velocity.y) <= MAX_VELOCITY
    ensures RigidBodyStep(m, dt).velocity.y >= m.velocity.y
    ensures m.velocity.y + GRAVITY * dt <= MAX_VELOCITY ==>
      RigidBodyStep(m, dt).velocity.y == m.velocity.y + GRAVITY * dt
    ensures m.velocity.y == MAX_VELOCITY ==> RigidBodyStep(m, dt).velocity.y == MAX_VELOCITY
  {
  }

  /** A jump needs both the ground under the player and the space key. */
  predicate Jumps(onGround: bool, space: bool) {
    onGround && space
  }

  /** Java's (int) cast of a float: rounds toward zero. */
  function Trunc(r: real): (n: int)
    ensures r >= 0.0 ==> n >= 0 && n as real <= r < n as real + 1.0
    ensures r < 0.0 ==> n <= 0 && n as real - 1.0 < r <= n as real
  {
    if r >= 0.0 then r.Floor else -((-r).Floor)
  }

  /** Java's `a % 360` on int: the remainder takes the sign of the dividend. */
  function Rem360(a: int): (r: int)
    ensures a >= 0 ==> 0 <= r < 360
    ensures a < 0 ==> -360 < r <= 0
    ensures (a - r) % 360 == 0
  {
    if a >= 0 then a % 360 else -((-a) % 360)
  }

  /** The rotation of a grounded player: the truncated angle modulo 360,
      reset to 0 when it lies strictly between 0 and 180 or strictly between
      180 and 360. A negative angle keeps its negative remainder. */
  function Settle(rotation: real): (r: real)
    ensures rotation >= 0.0 ==> r == 0.0 || r == 180.0
    ensures r == 180.0 <==> Rem360(Trunc(rotation)) == 180
    ensures r < 0.0 ==> r == Rem360(Trunc(rotation)) as real && r > -360.0
    ensures r == (r.Floor) as real
  {
    var q := Rem360(Trunc(rotation)) as real;
    if q > 180.0 && q < 360.0 then 0.0
    else if q > 0.0 && q < 180.0 then 0.0
    else q
  }

  /** Settling a settled rotation changes nothing. */
  lemma SettleIdempotent(rotation: real)
    ensures Settle(Settle(rotation)) == Settle(rotation)
  {
    var r := Settle(rotation);
    var n := r.Floor;
    assert Trunc(r) == n;
    assert n == 0 || n == 180 || -360 < n < 0;
    assert Rem360(n) == n;
  }

  /** The rotation after Player.update: spinning while airborne, settled
      while on the ground. */
  function Rotate(onGround: bool, rotation: real, dt: real): (r: real)
    ensures !onGround ==> r == rotation + SPIN_RATE * dt
    ensures onGround && rotation >= 0.0 ==> r == 0.0 || r == 180.0
  {
    if onGround then Settle(rotation) else rotation + SPIN_RATE * dt
  }

  /** Where the ground leaves the player's top edge, and whether it pushed
      the player up onto the line. */
  datatype Landing = Landing(y: real, landed: bool)

  /** The play-mode rule of Ground.update for a player box of height
      `height` whose top edge is at `y`, against a line at `groundY`. */
  function GroundSnap(y: real, height: real, groundY: real): (l: Landing)
    ensures l.landed <==> y + height > groundY
    ensures l.y + height <= groundY
    ensures !l.landed ==> l.y == y
    ensures l.landed ==> l.y + height == groundY
  {
    if y + height > groundY then Landing(groundY - height, true) else Landing(y, false)
  }

  /** A player resting on the line is left where it is: the snap is
      idempotent. */
  lemma GroundSnapStable(y: real, height: real, groundY: real)
    ensures var once := GroundSnap(y, height, groundY);
      GroundSnap(once.y, height, groundY) == Landing(once.y, false)
  {
  }
}
