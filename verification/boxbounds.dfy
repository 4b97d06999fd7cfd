/** Collision bounds (src/Component/Bounds.java, src/Component/BoxBounds.java):
    an axis-aligned box anchored at its owner's position, the closed overlap
    test between two boxes, the rule that settles a collision with the player,
    and the persisted "BoxBounds" object. */
module Bounds {
  import Text
  import opened Results
  import opened Serializer
  import opened Parser
  import opened Grammar
  import opened Vectors

  /** The shape tag of a bound; only boxes have any behaviour. */
  datatype BoundsType = Box | Triangle

  /** The fields of a box bound. Its center is not stored: the engine
      recomputes it from the owner's position before every use. */
  datatype BoxBounds = BoxBounds(kind: BoundsType, width: real, height: real, halfWidth: real, halfHeight: real)

  /** The constructor: half extents and the Box tag. */
  function NewBoxBounds(width: real, height: real): (b: BoxBounds)
    ensures b.kind == Box && b.width == width && b.height == height
    ensures b.halfWidth + b.halfWidth == width && b.halfHeight + b.halfHeight == height
  {
    BoxBounds(Box, width, height, width / 2.0, height / 2.0)
  }

  /** A box whose half extents are those the constructor gives. */
  predicate Proportioned(b: BoxBounds) {
    b.halfWidth + b.halfWidth == b.width && b.halfHeight + b.halfHeight == b.height
  }

  /** calculateCenter, for an owner standing at `position`. */
  function Center(b: BoxBounds, position: Vector2): Vector2 {
    Vector2(position.x + b.halfWidth, position.y + b.halfHeight)
  }

  /** The center of a constructed box lies halfway between its edges. */
  lemma CenterIsMidpoint(b: BoxBounds, position: Vector2)
    requires Proportioned(b)
    ensures Center(b, position).x - position.x == position.x + b.width - Center(b, position).x
    ensures Center(b, position).y - position.y == position.y + b.height - Center(b, position).y
  {
  }

  function Abs(r: real): (a: real)
    ensures a >= 0.0 && (a == r || a == -r)
  {
    if r < 0.0 then -r else r
  }

  /** BoxBounds.checkCollision: the centers are no further apart on each axis
      than the sum of the half extents (touching counts). */
  predicate BoxCollision(b1: BoxBounds, p1: Vector2, b2: BoxBounds, p2: Vector2) {
    var c1 := Center(b1, p1);
    var c2 := Center(b2, p2);
    if Abs(c1.x - c2.x) <= b1.halfWidth + b2.halfWidth then Abs(c1.y - c2.y) <= b1.halfHeight + b2.halfHeight
    else false
  }

  /** The closed intervals [a, a + wa] and [b, b + wb] share a point. */
  predicate IntervalsMeet(a: real, wa: real, b: real, wb: real) {
    a <= b + wb && b <= a + wa
  }

  /** For constructed boxes the center test is exactly the overlap of the two
      closed rectangles, axis by axis. */
  lemma CollisionIsOverlap(b1: BoxBounds, p1: Vector2, b2: BoxBounds, p2: Vector2)
    requires Proportioned(b1) && Proportioned(b2)
    ensures BoxCollision(b1, p1, b2, p2) <==>
      IntervalsMeet(p1.x, b1.width, p2.x, b2.width) && IntervalsMeet(p1.y, b1.height, p2.y, b2.height)
  {
    var c1 := Center(b1, p1);
    var c2 := Center(b2, p2);
    assert Abs(c1.x - c2.x) <= b1.halfWidth + b2.halfWidth <==> IntervalsMeet(p1.x, b1.width, p2.x, b2.width);
    assert Abs(c1.y - c2.y) <= b1.halfHeight + b2.halfHeight <==> IntervalsMeet(p1.y, b1.height, p2.y, b2.height);
  }

  lemma CollisionSymmetric(b1: BoxBounds, p1: Vector2, b2: BoxBounds, p2: Vector2)
    ensures BoxCollision(b1, p1, b2, p2) == BoxCollision(b2, p2, b1, p1)
  {
  }

  /** Bounds.checkCollision: only two boxes can collide. */
  function CheckCollision(b1: BoxBounds, p1: Vector2, b2: BoxBounds, p2: Vector2): (r: bool)
    ensures r ==> b1.kind == Box && b2.kind == Box
    ensures b1.kind == Box && b2.kind == Box ==> r == BoxCollision(b1, p1, b2, p2)
  {
    if b1.kind == b2.kind && b1.kind == Box then BoxCollision(b1, p1, b2, p2) else false
  }

  /** How resolveCollision settles a contact with the player. */
  datatype Resolution =
    | Land(y: real)   // the player's new y; its vertical speed is zeroed and it is on the ground
    | Die             // Player.die

  /** resolveCollision, on an obstacle at `at` and the player's box at
      `playerAt`. The offsets run from the player's center to the
      obstacle's, so dy > 0 means the obstacle lies lower (y grows downwards). */
  function Resolve(obstacle: BoxBounds, at: Vector2, player: BoxBounds, playerAt: Vector2): (r: Resolution)
    ensures r.Land? ==> r.y + player.height == at.y
    ensures var o := Center(obstacle, at); var p := Center(player, playerAt);
      var dx := o.x - p.x; var dy := o.y - p.y;
      var overlapX := obstacle.halfWidth + player.halfWidth - Abs(dx);
      var overlapY := obstacle.halfHeight + player.halfHeight - Abs(dy);
      r.Land? <==> (if overlapX >= overlapY then dy > 0.0 else dx < 0.0 && dy <= 0.3)
  {
    var o := Center(obstacle, at);
    var p := Center(player, playerAt);
    var dx := o.x - p.x;
    var dy := o.y - p.y;
    var overlapX := obstacle.halfWidth + player.halfWidth - Abs(dx);
    var overlapY := obstacle.halfHeight + player.halfHeight - Abs(dy);
    if overlapX >= overlapY then
      if dy > 0.0 then Land(at.y - player.height) else Die
    else if dx < 0.0 && dy <= 0.3 then Land(at.y - player.height)
    else Die
  }

  /** After landing the player's box rests on the obstacle's top edge; the
      boxes still touch, so the closed test keeps reporting the contact, and
      settling it again lands the player at the same height. */
  lemma LandingIsStable(obstacle: BoxBounds, at: Vector2, player: BoxBounds, playerAt: Vector2)
    requires Proportioned(obstacle) && Proportioned(player)
    requires obstacle.height > 0.0 && player.height > 0.0
    requires BoxCollision(player, playerAt, obstacle, at)
    requires Resolve(obstacle, at, player, playerAt).Land?
    ensures var landed := Vector2(playerAt.x, Resolve(obstacle, at, player, playerAt).y);
      BoxCollision(player, landed, obstacle, at) &&
      Resolve(obstacle, at, player, landed) == Resolve(obstacle, at, player, playerAt)
  {
    var landed := Vector2(playerAt.x, at.y - player.height);
    var dy := Center(obstacle, at).y - Center(player, landed).y;
    assert dy == obstacle.halfHeight + player.halfHeight;
  }

  /** Bounds.resolveCollision acts on boxes only. */
  function ResolveBounds(b: BoxBounds, at: Vector2, player: BoxBounds, playerAt: Vector2): (r: Option<Resolution>)
    ensures r.Some? <==> b.kind == Box
    ensures r.Some? ==> r.value == Resolve(b, at, player, playerAt)
  {
    if b.kind == Box then Some(Resolve(b, at, player, playerAt)) else None
  }

  /** copy: a new box of the same size. */
  function Copy(b: BoxBounds): (r: BoxBounds)
    ensures r.width == b.width && r.height == b.height
    ensures r.kind == Box && Proportioned(r)
  {
    NewBoxBounds(b.width, b.height)
  }

  /** A constructed box is its own copy. */
  lemma CopyOfConstructed(width: real, height: real)
    ensures Copy(NewBoxBounds(width, height)) == NewBoxBounds(width, height)
  {
  }

  predicate Printable(b: BoxBounds) {
    Text.Printable(b.width) && Text.Printable(b.height)
  }

  /** The members after the opening line: Width, Height and the closing brace. */
  function Fields(b: BoxBounds, tabs: int): string
    requires Printable(b)
  {
    AddFloatProperty("Width", b.width, tabs + 1, true, true)
      + AddFloatProperty("Height", b.height, tabs + 1, true, false) + CloseObjectProperty(tabs)
  }

  function Serialize(b: BoxBounds, tabs: int): (s: string)
    requires Printable(b)
    ensures |s| > 0 && s[|s| - 1] == '}'
  {
    BeginObjectProperty("BoxBounds", tabs) + AddFloatProperty("Width", b.width, tabs + 1, true, true)
      + AddFloatProperty("Height", b.height, tabs + 1, true, false) + CloseObjectProperty(tabs)
  }

  /** BoxBounds.deserialize: called once the component reader has consumed
      the tag and the opening brace; reads Width, ',', Height and the closing
      brace, and builds a new box. */
  function Deserialize(c: Cursor): (r: Result<Parsed<BoxBounds>>)
    ensures r.Ok? ==> Advances(c, r.value.rest) && r.value.rest.offset > c.offset
    ensures r.Ok? ==> r.value.value.kind == Box && Proportioned(r.value.value)
    ensures ConsumeFloatProperty(c, "Width").Fail? ==> r == Fail(ConsumeFloatProperty(c, "Width").error)
  {
    var w :- ConsumeFloatProperty(c, "Width");
    var comma :- Consume(w.rest, ',');
    var h :- ConsumeFloatProperty(comma, "Height");
    var close :- ConsumeEndObjectProperty(h.rest);
    Ok(Parsed(NewBoxBounds(w.value, h.value), close))
  }

  /** The written text is the opening line, then the members. */
  lemma SerializeText(b: BoxBounds, tabs: int, rest: string)
    requires Printable(b)
    ensures Serialize(b, tabs) + rest == BeginObjectProperty("BoxBounds", tabs) + (Fields(b, tabs) + rest)
  {
  }

  /** Reading the members back after the opening brace yields a box of the
      written size, stopping right after the closing brace. */
  lemma DeserializeRead(c: Cursor, b: BoxBounds, tabs: int, rest: string) returns (d: Cursor)
    requires Printable(b)
    requires At(c.bytes, c.offset, "\n" + (Fields(b, tabs) + rest))
    ensures Deserialize(c) == Ok(Parsed(NewBoxBounds(b.width, b.height), d))
    ensures d.bytes == c.bytes && d.offset == c.offset + 1 + |Fields(b, tabs)|
    ensures At(d.bytes, d.offset, rest)
  {
    var hs := AddFloatProperty("Height", b.height, tabs + 1, true, false);
    var close := CloseObjectProperty(tabs);
    FieldsText(b, tabs, rest);
    NewlineWhitespace();
    KeysUnquoted();
    var w := FloatRead(c, "\n", "Width", b.width, tabs + 1, true, true, hs + (close + rest));
    var comma := CommaRead(w, hs + (close + rest));
    var h := FloatRead(comma, "\n", "Height", b.height, tabs + 1, true, false, close + rest);
    assert AddEnding(true, false) == "\n";
    d := EndRead(h, "\n", tabs, rest);
    DeserializeStep(c, Parsed(b.width, w), comma, Parsed(b.height, h), d);
  }

  lemma FieldsText(b: BoxBounds, tabs: int, rest: string)
    requires Printable(b)
    ensures "\n" + (Fields(b, tabs) + rest) == "\n" + (AddFloatProperty("Width", b.width, tabs + 1, true, true)
      + (AddFloatProperty("Height", b.height, tabs + 1, true, false) + (CloseObjectProperty(tabs) + rest)))
  {
  }

  lemma DeserializeStep(c: Cursor, w: Parsed<real>, comma: Cursor, h: Parsed<real>, close: Cursor)
    requires ConsumeFloatProperty(c, "Width") == Ok(w)
    requires Consume(w.rest, ',') == Ok(comma)
    requires ConsumeFloatProperty(comma, "Height") == Ok(h)
    requires ConsumeEndObjectProperty(h.rest) == Ok(close)
    ensures Deserialize(c) == Ok(Parsed(NewBoxBounds(w.value, h.value), close))
  {
  }

  lemma KeysUnquoted()
    ensures '"' !in "BoxBounds" && '"' !in "Width" && '"' !in "Height"
  {
  }
}
