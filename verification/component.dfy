/** The component kinds an object can carry (src/engine/Component.java and its
    subclasses in src/Component/), looked up by class the way
    Class.isAssignableFrom matches, copied and persisted one by one, and read
    back by Parser.parseComponent. */
module Components {
  import opened Results
  import opened Serializer
  import opened Parser
  import opened Grammar
  import opened Vectors
  import Sprites
  import Bounds
  import Assets
  import SpriteReader
  import Seqs

  /** A grid cell size of the editor's snapping cursor. */
  type GridSize = n: int | n > 0 witness 1

  const PLAYER_WIDTH: int := 42
  const PLAYER_HEIGHT: int := 42
  const DEBOUNCE_TIME: real := 0.2

  /** One variant per component class. The player's sprite layers and
      colours only feed drawing and are not kept. */
  datatype Component =
    | SpriteComponent(sprite: Sprites.Sprite)
    | BoxBoundsComponent(bounds: Bounds.BoxBounds)
    | RigidBodyComponent(velocity: Vector2)
    | PlayerComponent(width: int, height: int, onGround: bool)
    | GroundComponent
    | SnapToGridComponent(debounceLeft: real, gridWidth: GridSize, gridHeight: GridSize)

  /** The classes getComponent and removeComponent are asked for. */
  datatype Capability = SpriteClass | BoundsClass | BoxBoundsClass | RigidBodyClass | PlayerClass | GroundClass | SnapToGridClass

  /** Class.isAssignableFrom: a component answers to its own class and, for
      a box, to the abstract Bounds class too. */
  predicate Provides(c: Component, cap: Capability) {
    match cap
    case SpriteClass => c.SpriteComponent?
    case BoundsClass => c.BoxBoundsComponent?
    case BoxBoundsClass => c.BoxBoundsComponent?
    case RigidBodyClass => c.RigidBodyComponent?
    case PlayerClass => c.PlayerComponent?
    case GroundClass => c.GroundComponent?
    case SnapToGridClass => c.SnapToGridComponent?
  }

  /** Each component answers to exactly the classes on its own line of the
      hierarchy: a box to BoxBounds and Bounds, anything else to one class. */
  lemma ProvidesExactly(c: Component, cap: Capability, other: Capability)
    requires Provides(c, cap) && Provides(c, other) && cap != other
    ensures c.BoxBoundsComponent? && {cap, other} == {BoundsClass, BoxBoundsClass}
  {
  }

  /** The player constructor: the standard size, standing on the ground. */
  function NewPlayer(): (p: Component)
    ensures p.PlayerComponent? && p.onGround
    ensures p.width == PLAYER_WIDTH && p.height == PLAYER_HEIGHT
  {
    PlayerComponent(PLAYER_WIDTH, PLAYER_HEIGHT, true)
  }

  /** The SnapToGrid constructor: the debounce starts spent. */
  function NewSnapToGrid(gridWidth: GridSize, gridHeight: GridSize): (s: Component)
    ensures s.SnapToGridComponent? && s.debounceLeft == 0.0
    ensures s.gridWidth == gridWidth && s.gridHeight == gridHeight
  {
    SnapToGridComponent(0.0, gridWidth, gridHeight)
  }

  /** The kinds that override copy and serialize; the others return null
      from copy and "" from serialize. */
  predicate Persistent(c: Component) {
    c.SpriteComponent? || c.BoxBoundsComponent?
  }

  /** copy: a fresh component of the same class, or None (Java's null). */
  function Copy(c: Component): (r: Option<Component>)
    ensures r.Some? <==> Persistent(c)
    ensures r.Some? ==> forall cap :: Provides(r.value, cap) <==> Provides(c, cap)
    ensures r.Some? && c.SpriteComponent? ==>
      (r.value.SpriteComponent? && r.value.sprite.image == c.sprite.image && r.value.sprite.pictureFile == c.sprite.pictureFile &&
       Sprites.Canonical(r.value.sprite))
    ensures r.Some? && c.BoxBoundsComponent? ==>
      (r.value.BoxBoundsComponent? && r.value.bounds.width == c.bounds.width && r.value.bounds.height == c.bounds.height &&
       r.value.bounds.kind == Bounds.Box && Bounds.Proportioned(r.value.bounds))
  {
    match c
    case SpriteComponent(s) => Some(SpriteComponent(Sprites.Copy(s)))
    case BoxBoundsComponent(b) => Some(BoxBoundsComponent(Bounds.Copy(b)))
    case _ => None
  }

  /** Copying a copy gives the copy again. */
  lemma CopyIdempotent(c: Component)
    requires Copy(c).Some?
    ensures Copy(Copy(c).value) == Copy(c)
  {
    if c.SpriteComponent? {
      Sprites.CopyIdempotent(c.sprite);
    }
  }

  /** The values the writer can put into text (see Text.Printable). */
  predicate Printable(c: Component) {
    c.BoxBoundsComponent? ==> Bounds.Printable(c.bounds)
  }

  /** serialize: the kind's own object, or "" for the kinds without one. */
  function Serialize(c: Component, tabs: int): (s: string)
    requires Printable(c)
    ensures s == [] <==> !Persistent(c)
    ensures s != [] ==> s[|s| - 1] == '}'
  {
    match c
    case SpriteComponent(sprite) => Sprites.Serialize(sprite, tabs)
    case BoxBoundsComponent(b) => Bounds.Serialize(b, tabs)
    case _ => ""
  }

  /** parseComponent: the tag selects the reader; an unknown tag is fatal and
      reports the line counter after the opening brace. */
  function ParseComponent(c: Cursor, pool: Assets.Pool): (r: Result<Parsed<Component>>)
    ensures r.Ok? ==> Advances(c, r.value.rest) && r.value.rest.offset > c.offset
    ensures r.Ok? ==> Persistent(r.value.value)
    ensures (ComponentHead(c).Ok? && ComponentHead(c).value.value != "Sprite" &&
             ComponentHead(c).value.value != "BoxBounds") ==>
        r == Fail(UnknownComponent(ComponentHead(c).value.value, ComponentHead(c).value.rest.line))
  {
    var head :- ComponentHead(c);
    match KindOf(head.value)
    case SpriteTag =>
      var s :- SpriteReader.Deserialize(head.rest, pool);
      Ok(Parsed(SpriteComponent(s.value), s.rest))
    case BoxBoundsTag =>
      var b :- Bounds.Deserialize(head.rest);
      Ok(Parsed(BoxBoundsComponent(b.value), b.rest))
    case OtherTag => Fail(UnknownComponent(head.value, head.rest.line))
  }

  /** The tags parseComponent knows. */
  datatype Tag = SpriteTag | BoxBoundsTag | OtherTag

  function KindOf(tag: string): (k: Tag)
    ensures k == SpriteTag <==> tag == "Sprite"
    ensures k == BoxBoundsTag <==> tag == "BoxBounds"
  {
    if tag == "Sprite" then SpriteTag
    else if tag == "BoxBounds" then BoxBoundsTag
    else OtherTag
  }

  /** What reading back a written component gives: a box of the written size,
      or the pool's sprite for the written file and index. */
  function Reread(pool: Assets.Pool, c: Component): (r: Result<Component>)
    requires Persistent(c)
    ensures r.Ok? ==> Persistent(r.value) && (c.SpriteComponent? <==> r.value.SpriteComponent?)
    ensures c.BoxBoundsComponent? ==> r == Ok(BoxBoundsComponent(Bounds.NewBoxBounds(c.bounds.width, c.bounds.height)))
  {
    match c
    case SpriteComponent(s) =>
      var t :- SpriteReader.Reload(pool, s);
      Ok(SpriteComponent(t))
    case BoxBoundsComponent(b) => Ok(BoxBoundsComponent(Bounds.NewBoxBounds(b.width, b.height)))
  }

  /** The fields the text must carry faithfully. */
  predicate Recordable(c: Component) {
    Printable(c) && (c.SpriteComponent? ==> SpriteReader.Recordable(c.sprite))
  }

  /** A written component, after any whitespace, parses back as Reread says,
      or fails as the pool lookup does; the parser stops right after it. */
  lemma ParseRead(c: Cursor, pre: string, comp: Component, tabs: int, rest: string, pool: Assets.Pool)
    returns (d: Cursor)
    requires AllWhitespace(pre) && Persistent(comp) && Recordable(comp)
    requires At(c.bytes, c.offset, pre + (Serialize(comp, tabs) + rest))
    ensures Reread(pool, comp).Ok? ==> ParseComponent(c, pool) == Ok(Parsed(Reread(pool, comp).value, d))
    ensures Reread(pool, comp).Fail? ==> ParseComponent(c, pool) == Fail(Reread(pool, comp).error)
    ensures d.bytes == c.bytes && d.offset == c.offset + |pre| + |Serialize(comp, tabs)|
    ensures At(d.bytes, d.offset, rest)
  {
    if comp.SpriteComponent? {
      var s := comp.sprite;
      SpriteText(pre, s, tabs, rest);
      SpriteReader.KeysUnquoted();
      var open := BeginRead(c, pre, "Sprite", tabs, Sprites.Members(s, tabs) + rest);
      ComponentHeadAgrees(c, "Sprite");
      d := SpriteReader.DeserializeRead(open, pool, s, tabs, rest);
      SpriteStep(c, pool, open);
    } else {
      var b := comp.bounds;
      BoxText(pre, b, tabs, rest);
      Bounds.KeysUnquoted();
      var open := BeginRead(c, pre, "BoxBounds", tabs, Bounds.Fields(b, tabs) + rest);
      ComponentHeadAgrees(c, "BoxBounds");
      d := Bounds.DeserializeRead(open, b, tabs, rest);
      BoxStep(c, pool, open);
    }
  }

  lemma SpriteText(pre: string, s: Sprites.Sprite, tabs: int, rest: string)
    ensures pre + (Serialize(SpriteComponent(s), tabs) + rest) ==
      pre + (BeginObjectProperty("Sprite", tabs) + (Sprites.Members(s, tabs) + rest))
    ensures |Serialize(SpriteComponent(s), tabs)| == |BeginObjectProperty("Sprite", tabs)| + |Sprites.Members(s, tabs)|
  {
    Seqs.Assoc(BeginObjectProperty("Sprite", tabs), Sprites.Members(s, tabs), rest);
  }

  lemma BoxText(pre: string, b: Bounds.BoxBounds, tabs: int, rest: string)
    requires Bounds.Printable(b)
    ensures pre + (Serialize(BoxBoundsComponent(b), tabs) + rest) ==
      pre + (BeginObjectProperty("BoxBounds", tabs) + (Bounds.Fields(b, tabs) + rest))
    ensures |Serialize(BoxBoundsComponent(b), tabs)| == |BeginObjectProperty("BoxBounds", tabs)| + |Bounds.Fields(b, tabs)|
  {
    Bounds.SerializeText(b, tabs, rest);
    Bounds.SerializeText(b, tabs, []);
  }

  lemma SpriteStep(c: Cursor, pool: Assets.Pool, open: Cursor)
    requires ComponentHead(c) == Ok(Parsed("Sprite", open))
    ensures SpriteReader.Deserialize(open, pool).Ok? ==>
      ParseComponent(c, pool) ==
        Ok(Parsed(SpriteComponent(SpriteReader.Deserialize(open, pool).value.value), SpriteReader.Deserialize(open, pool).value.rest))
    ensures SpriteReader.Deserialize(open, pool).Fail? ==>
      ParseComponent(c, pool) == Fail(SpriteReader.Deserialize(open, pool).error)
  {
  }

  lemma BoxStep(c: Cursor, pool: Assets.Pool, open: Cursor)
    requires ComponentHead(c) == Ok(Parsed("BoxBounds", open))
    ensures Bounds.Deserialize(open).Ok? ==>
      ParseComponent(c, pool) ==
        Ok(Parsed(BoxBoundsComponent(Bounds.Deserialize(open).value.value), Bounds.Deserialize(open).value.rest))
  {
  }
}
