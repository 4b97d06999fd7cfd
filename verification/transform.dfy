/** Position, scale and rotation of an object (src/dataStructure/Transform.java)
    and its persisted form: a "Transform" object holding a "Position" object, a
    "Scale" object and a "rotation" property. */
module Transforms {
  import Text
  import opened Results
  import opened Serializer
  import opened Parser
  import opened Grammar
  import opened Vectors

  datatype Transform = Transform(position: Vector2, scale: Vector2, rotation: real)

  /** A new transform at `position`: unit scale, no rotation. */
  function FromPosition(position: Vector2): (t: Transform)
    ensures t.position == position
    ensures t.scale == Vector2(1.0, 1.0) && t.rotation == 0.0
  {
    Transform(position, Vector2(1.0, 1.0), 0.0)
  }

  /** A copy with equal position, scale and rotation. Values are immutable,
      so the copy shares nothing that could later be changed through it. */
  function Copy(t: Transform): (r: Transform)
    ensures r.position.x == t.position.x && r.position.y == t.position.y
    ensures r.scale.x == t.scale.x && r.scale.y == t.scale.y
    ensures r.rotation == t.rotation
  {
    Transform(Vector2(t.position.x, t.position.y), Vector2(t.scale.x, t.scale.y), t.rotation)
  }

  predicate Printable(t: Transform) {
    Vectors.Printable(t.position) && Vectors.Printable(t.scale) && Text.Printable(t.rotation)
  }

  /** A nested vector object: its opening line, the vector one level deeper,
      and the closing brace. */
  function VectorBlock(name: string, v: Vector2, tabs: int): (s: string)
    requires Vectors.Printable(v)
    ensures |s| > 0 && s[|s| - 1] == '}'
  {
    BeginObjectProperty(name, tabs) + Vectors.Serialize(v, tabs + 1) + CloseObjectProperty(tabs)
  }

  function Serialize(t: Transform, tabs: int): (s: string)
    requires Printable(t)
    ensures |s| > 0 && s[|s| - 1] == '}'
  {
    BeginObjectProperty("Transform", tabs)
      + VectorBlock("Position", t.position, tabs + 1) + AddEnding(true, true)
      + VectorBlock("Scale", t.scale, tabs + 1) + AddEnding(true, true)
      + AddFloatProperty("rotation", t.rotation, tabs + 1, true, false)
      + CloseObjectProperty(tabs)
  }

  /** The reader of a nested vector object. */
  function ReadVectorBlock(c: Cursor, name: string): (r: Result<Parsed<Vector2>>)
    ensures r.Ok? ==> Advances(c, r.value.rest) && r.value.rest.offset > c.offset
    ensures ConsumeBeginObjectProperty(c, name).Fail? ==> r == Fail(ConsumeBeginObjectProperty(c, name).error)
  {
    var open :- ConsumeBeginObjectProperty(c, name);
    var v :- Vectors.Deserialize(open);
    var close :- ConsumeEndObjectProperty(v.rest);
    Ok(Parsed(v.value, close))
  }

  function Deserialize(c: Cursor): (r: Result<Parsed<Transform>>)
    ensures r.Ok? ==> Advances(c, r.value.rest) && r.value.rest.offset > c.offset
    ensures ConsumeBeginObjectProperty(c, "Transform").Fail? ==>
      r == Fail(ConsumeBeginObjectProperty(c, "Transform").error)
  {
    var open :- ConsumeBeginObjectProperty(c, "Transform");
    var position :- ReadVectorBlock(open, "Position");
    var comma :- Consume(position.rest, ',');
    var scale :- ReadVectorBlock(comma, "Scale");
    var comma' :- Consume(scale.rest, ',');
    var rotation :- ConsumeFloatProperty(comma', "rotation");
    var close :- ConsumeEndObjectProperty(rotation.rest);
    Ok(Parsed(Transform(position.value, scale.value, rotation.value), close))
  }

  /** What Serialize writes, after any whitespace, Deserialize reads back as
      the same transform, stopping right after the closing brace. */
  lemma DeserializeRead(c: Cursor, pre: string, t: Transform, tabs: int, rest: string) returns (d: Cursor)
    requires AllWhitespace(pre) && Printable(t)
    requires At(c.bytes, c.offset, pre + (Serialize(t, tabs) + rest))
    ensures Deserialize(c) == Ok(Parsed(t, d))
    ensures d.bytes == c.bytes && d.offset == c.offset + |pre| + |Serialize(t, tabs)|
    ensures At(d.bytes, d.offset, rest)
  {
    var tail := ScaleText(t, tabs) + rest;
    TransformText(pre, t, tabs, rest);
    KeysUnquoted();
    NewlineWhitespace();
    var open := BeginRead(c, pre, "Transform", tabs, VectorBlock("Position", t.position, tabs + 1) + tail);
    var position := BlockRead(open, "\n", "Position", t.position, tabs + 1, tail);
    var comma := CommaRead(position, ScaleText(t, tabs)[2..] + rest);
    var scale, comma', rotation: Cursor;
    scale, comma', rotation, d := TailRead(comma, t, tabs, rest);
    DeserializeStep(c, open, Parsed(t.position, position), comma, Parsed(t.scale, scale), comma',
      Parsed(t.rotation, rotation), d);
  }

  /** Everything after the Position object: its separator, the Scale object
      with its separator, the rotation line and the closing brace. */
  function ScaleText(t: Transform, tabs: int): (s: string)
    requires Printable(t)
  {
    AddEnding(true, true) + (VectorBlock("Scale", t.scale, tabs + 1) + (AddEnding(true, true)
      + (AddFloatProperty("rotation", t.rotation, tabs + 1, true, false) + CloseObjectProperty(tabs))))
  }

  lemma TransformText(pre: string, t: Transform, tabs: int, rest: string)
    requires Printable(t)
    ensures pre + (Serialize(t, tabs) + rest) == pre + (BeginObjectProperty("Transform", tabs)
      + (VectorBlock("Position", t.position, tabs + 1) + (ScaleText(t, tabs) + rest)))
    ensures ScaleText(t, tabs) + rest == AddEnding(true, true) + (ScaleText(t, tabs)[2..] + rest)
  {
    var e := AddEnding(true, true);
    Regroup(BeginObjectProperty("Transform", tabs), VectorBlock("Position", t.position, tabs + 1), e,
      VectorBlock("Scale", t.scale, tabs + 1), e, AddFloatProperty("rotation", t.rotation, tabs + 1, true, false),
      CloseObjectProperty(tabs), rest);
    assert |e| == 2;
    Unprefix(e, ScaleText(t, tabs)[2..], ScaleText(t, tabs), rest);
  }

  /** The left-nested concatenation the writer builds, regrouped from the right. */
  lemma Regroup(a: string, b: string, c: string, d: string, e: string, f: string, g: string, rest: string)
    ensures a + b + c + d + e + f + g + rest == a + (b + ((c + (d + (e + (f + g)))) + rest))
  {
  }

  lemma Unprefix(e: string, tail: string, s: string, rest: string)
    requires |e| <= |s| && s[..|e|] == e && tail == s[|e|..]
    ensures s + rest == e + (tail + rest)
  {
    assert s == e + tail;
  }

  /** A nested vector object followed by more text. */
  lemma BlockRead(c: Cursor, pre: string, name: string, v: Vector2, tabs: int, rest: string) returns (d: Cursor)
    requires AllWhitespace(pre) && '"' !in name && Vectors.Printable(v)
    requires At(c.bytes, c.offset, pre + (VectorBlock(name, v, tabs) + rest))
    ensures ReadVectorBlock(c, name) == Ok(Parsed(v, d))
    ensures d.bytes == c.bytes && d.offset == c.offset + |pre| + |VectorBlock(name, v, tabs)|
    ensures At(d.bytes, d.offset, rest)
  {
    BlockText(pre, name, v, tabs, rest);
    var close := CloseObjectProperty(tabs);
    var open := BeginRead(c, pre, name, tabs, Vectors.Serialize(v, tabs + 1) + (close + rest));
    var inner := Vectors.DeserializeRead(open, "\n", v, tabs + 1, close + rest);
    d := EndRead(inner, "\n", tabs, rest);
    BlockStep(c, name, open, Parsed(v, inner), d);
  }

  lemma BlockText(pre: string, name: string, v: Vector2, tabs: int, rest: string)
    requires Vectors.Printable(v)
    ensures pre + (VectorBlock(name, v, tabs) + rest) == pre + (BeginObjectProperty(name, tabs)
      + (Vectors.Serialize(v, tabs + 1) + (CloseObjectProperty(tabs) + rest)))
  {
  }

  lemma BlockStep(c: Cursor, name: string, open: Cursor, v: Parsed<Vector2>, close: Cursor)
    requires ConsumeBeginObjectProperty(c, name) == Ok(open)
    requires Vectors.Deserialize(open) == Ok(v)
    requires ConsumeEndObjectProperty(v.rest) == Ok(close)
    ensures ReadVectorBlock(c, name) == Ok(Parsed(v.value, close))
  {
  }

  /** From just after the first separator's comma to the closing brace. */
  lemma TailRead(c: Cursor, t: Transform, tabs: int, rest: string) returns (scale: Cursor, comma: Cursor, rotation: Cursor, d: Cursor)
    requires Printable(t)
    requires At(c.bytes, c.offset, "\n" + (ScaleText(t, tabs)[2..] + rest))
    ensures ReadVectorBlock(c, "Scale") == Ok(Parsed(t.scale, scale))
    ensures Consume(scale, ',') == Ok(comma)
    ensures ConsumeFloatProperty(comma, "rotation") == Ok(Parsed(t.rotation, rotation))
    ensures ConsumeEndObjectProperty(rotation) == Ok(d)
    ensures d.bytes == c.bytes && d.offset + 1 == c.offset + |ScaleText(t, tabs)|
    ensures At(d.bytes, d.offset, rest)
  {
    var close := CloseObjectProperty(tabs);
    var line := AddFloatProperty("rotation", t.rotation, tabs + 1, true, false);
    TailText(t, tabs, rest);
    KeysUnquoted();
    scale := BlockRead(c, "\n", "Scale", t.scale, tabs + 1, AddEnding(true, true) + (line + (close + rest)));
    comma := CommaRead(scale, line + (close + rest));
    KeysUnquoted();
    rotation := FloatRead(comma, "\n", "rotation", t.rotation, tabs + 1, true, false, close + rest);
    assert AddEnding(true, false) == "\n";
    d := EndRead(rotation, "\n", tabs, rest);
  }

  lemma TailText(t: Transform, tabs: int, rest: string)
    requires Printable(t)
    ensures "\n" + (ScaleText(t, tabs)[2..] + rest) == "\n" + (VectorBlock("Scale", t.scale, tabs + 1)
      + (AddEnding(true, true) + (AddFloatProperty("rotation", t.rotation, tabs + 1, true, false)
      + (CloseObjectProperty(tabs) + rest))))
  {
    TransformText("", t, tabs, rest);
  }

  lemma DeserializeStep(c: Cursor, open: Cursor, position: Parsed<Vector2>, comma: Cursor,
                        scale: Parsed<Vector2>, comma': Cursor, rotation: Parsed<real>, close: Cursor)
    requires ConsumeBeginObjectProperty(c, "Transform") == Ok(open)
    requires ReadVectorBlock(open, "Position") == Ok(position)
    requires Consume(position.rest, ',') == Ok(comma)
    requires ReadVectorBlock(comma, "Scale") == Ok(scale)
    requires Consume(scale.rest, ',') == Ok(comma')
    requires ConsumeFloatProperty(comma', "rotation") == Ok(rotation)
    requires ConsumeEndObjectProperty(rotation.rest) == Ok(close)
    ensures Deserialize(c) == Ok(Parsed(Transform(position.value, scale.value, rotation.value), close))
  {
  }

  /** None of the keys of a transform contains a quote. */
  lemma KeysUnquoted()
    ensures '"' !in "Transform" && '"' !in "Position" && '"' !in "Scale" && '"' !in "rotation"
  {
  }
}
