/** A two-dimensional vector of float coordinates (src/util/Vector2.java) and
    its persisted form: an "x" property line followed by a "y" property line. */
module Vectors {
  import Text
  import opened Results
  import opened Serializer
  import opened Parser
  import opened Grammar

  datatype Vector2 = Vector2(x: real, y: real)

  /** The no-argument constructor. */
  const Origin := Vector2(0.0, 0.0)

  /** Both coordinates can be written in the persistence format. */
  predicate Printable(v: Vector2) {
    Text.Printable(v.x) && Text.Printable(v.y)
  }

  /** `x` with a trailing comma, then `y`; both lines end in a newline. */
  function Serialize(v: Vector2, tabs: int): (s: string)
    requires Printable(v)
    ensures |s| > 0 && s[|s| - 1] == '\n'
  {
    AddFloatProperty("x", v.x, tabs, true, true) + AddFloatProperty("y", v.y, tabs, true, false)
  }

  /** Reads "x", the separating ',' and "y"; stops right after the 'f' of y. */
  function Deserialize(c: Cursor): (r: Result<Parsed<Vector2>>)
    ensures r.Ok? ==> Advances(c, r.value.rest)
    ensures ConsumeFloatProperty(c, "x").Fail? ==> r == Fail(ConsumeFloatProperty(c, "x").error)
  {
    var x :- ConsumeFloatProperty(c, "x");
    var comma :- Consume(x.rest, ',');
    var y :- ConsumeFloatProperty(comma, "y");
    Ok(Parsed(Vector2(x.value, y.value), y.rest))
  }

  /** What Serialize writes, after any whitespace, Deserialize reads back as
      the same vector, stopping just before the final newline; the buffer
      there continues with that newline and whatever followed. */
  lemma DeserializeRead(c: Cursor, pre: string, v: Vector2, tabs: int, rest: string) returns (d: Cursor)
    requires AllWhitespace(pre) && Printable(v)
    requires At(c.bytes, c.offset, pre + (Serialize(v, tabs) + rest))
    ensures Deserialize(c) == Ok(Parsed(v, d))
    ensures d.bytes == c.bytes && d.offset + 1 == c.offset + |pre| + |Serialize(v, tabs)|
    ensures At(d.bytes, d.offset, "\n" + rest)
  {
    VectorText(pre, v, tabs, rest);
    var ys := AddFloatProperty("y", v.y, tabs, true, false);
    var x := FloatRead(c, pre, "x", v.x, tabs, true, true, ys + rest);
    var comma := CommaRead(x, ys + rest);
    d := YRead(comma, v.y, tabs, rest);
    DeserializeStep(c, Parsed(v.x, x), comma, Parsed(v.y, d));
  }

  lemma VectorText(pre: string, v: Vector2, tabs: int, rest: string)
    requires Printable(v)
    ensures pre + (Serialize(v, tabs) + rest) ==
      pre + (AddFloatProperty("x", v.x, tabs, true, true) + (AddFloatProperty("y", v.y, tabs, true, false) + rest))
  {
  }

  /** The "y" line, after the newline that ended the "x" line. */
  lemma YRead(c: Cursor, y: real, tabs: int, rest: string) returns (d: Cursor)
    requires Text.Printable(y)
    requires At(c.bytes, c.offset, "\n" + (AddFloatProperty("y", y, tabs, true, false) + rest))
    ensures ConsumeFloatProperty(c, "y") == Ok(Parsed(y, d))
    ensures d.bytes == c.bytes && d.offset == c.offset + |AddFloatProperty("y", y, tabs, true, false)|
    ensures At(d.bytes, d.offset, "\n" + rest)
  {
    assert AddEnding(true, false) == "\n";
    d := FloatRead(c, "\n", "y", y, tabs, true, false, rest);
  }

  lemma DeserializeStep(c: Cursor, x: Parsed<real>, comma: Cursor, y: Parsed<real>)
    requires ConsumeFloatProperty(c, "x") == Ok(x)
    requires Consume(x.rest, ',') == Ok(comma)
    requires ConsumeFloatProperty(comma, "y") == Ok(y)
    ensures Deserialize(c) == Ok(Parsed(Vector2(x.value, y.value), y.rest))
  {
  }
}
