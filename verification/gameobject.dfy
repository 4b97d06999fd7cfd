/** An entity of the game (src/engine/GameObject.java): a name, a transform,
    a draw order and an ordered list of components, with the class lookups,
    the filtered copy, and the persisted "GameObject" object. */
module GameObjects {
  import opened Results
  import opened Text
  import opened Serializer
  import opened Parser
  import opened Transforms
  import opened Components
  import Assets

  datatype GameObject = GameObject(name: string, transform: Transform, components: seq<Component>,
                                   zIndex: Int32, isUi: bool, serializable: bool)

  /** The constructor: no components, not UI, serializable. */
  function New(name: string, transform: Transform, zIndex: Int32): (g: GameObject)
    ensures g.name == name && g.transform == transform && g.zIndex == zIndex
    ensures g.components == [] && !g.isUi && g.serializable
  {
    GameObject(name, transform, [], zIndex, false, true)
  }

  /** The position of the first component answering to `cap`, or |cs|. */
  function FirstMatch(cs: seq<Component>, cap: Capability): (i: nat)
    ensures i <= |cs|
    ensures i < |cs| ==> Provides(cs[i], cap)
    ensures forall j :: 0 <= j < i ==> !Provides(cs[j], cap)
  {
    if cs == [] then 0
    else if Provides(cs[0], cap) then 0
    else 1 + FirstMatch(cs[1..], cap)
  }

  /** getComponent: the first component in insertion order answering to
      `cap`, or None (Java's null). */
  function GetComponent(g: GameObject, cap: Capability): (r: Option<Component>)
    ensures r.None? <==> forall j :: 0 <= j < |g.components| ==> !Provides(g.components[j], cap)
    ensures r.Some? ==>
      exists i :: (0 <= i < |g.components| && g.components[i] == r.value &&
                   Provides(r.value, cap) && forall j :: 0 <= j < i ==> !Provides(g.components[j], cap))
  {
    var i := FirstMatch(g.components, cap);
    if i < |g.components| then Some(g.components[i]) else None
  }

  /** removeComponent: drops the first match only; nothing when none matches. */
  function RemoveComponent(g: GameObject, cap: Capability): (r: GameObject)
    ensures GetComponent(g, cap).None? ==> r == g
    ensures r.name == g.name && r.transform == g.transform && r.zIndex == g.zIndex
    ensures r.isUi == g.isUi && r.serializable == g.serializable
    ensures GetComponent(g, cap).Some? ==>
      exists i :: 0 <= i < |g.components| && g.components[i] == GetComponent(g, cap).value &&
        r.components == g.components[..i] + g.components[i + 1..]
  {
    var i := FirstMatch(g.components, cap);
    if i < |g.components| then g.(components := g.components[..i] + g.components[i + 1..]) else g
  }

  /** addComponent: appends. The component's back-reference to its owner is
      implicit: a component is only ever reached through its owner. */
  function AddComponent(g: GameObject, c: Component): (r: GameObject)
    ensures r.components == g.components + [c]
    ensures r.name == g.name && r.transform == g.transform && r.zIndex == g.zIndex
    ensures r.isUi == g.isUi && r.serializable == g.serializable
  {
    g.(components := g.components + [c])
  }

  /** Adding a component does not change what an earlier match answers; it
      answers a lookup that nothing answered before. */
  lemma GetAfterAdd(g: GameObject, c: Component, cap: Capability)
    ensures GetComponent(g, cap).Some? ==> GetComponent(AddComponent(g, c), cap) == GetComponent(g, cap)
    ensures GetComponent(g, cap).None? && Provides(c, cap) ==> GetComponent(AddComponent(g, c), cap) == Some(c)
    ensures GetComponent(g, cap).None? && !Provides(c, cap) ==> GetComponent(AddComponent(g, c), cap).None?
  {
    FirstMatchAppend(g.components, c, cap);
  }

  lemma {:induction false} FirstMatchAppend(cs: seq<Component>, c: Component, cap: Capability)
    ensures FirstMatch(cs, cap) < |cs| ==> FirstMatch(cs + [c], cap) == FirstMatch(cs, cap)
    ensures FirstMatch(cs, cap) == |cs| ==> FirstMatch(cs + [c], cap) == |cs| + (if Provides(c, cap) then 0 else 1)
  {
    if cs != [] {
      assert (cs + [c])[1..] == cs[1..] + [c];
      FirstMatchAppend(cs[1..], c, cap);
    }
  }

  /** Removing then adding back the removed component moves it to the end
      and keeps every other component, in order. */
  lemma RemoveKeepsOthers(g: GameObject, cap: Capability)
    requires GetComponent(g, cap).Some?
    ensures multiset(RemoveComponent(g, cap).components) + multiset{GetComponent(g, cap).value} ==
      multiset(g.components)
    ensures |RemoveComponent(g, cap).components| + 1 == |g.components|
  {
    var i := FirstMatch(g.components, cap);
    assert g.components == g.components[..i] + [g.components[i]] + g.components[i + 1..];
  }

  predicate AllPersistent(cs: seq<Component>) {
    forall k :: 0 <= k < |cs| ==> Persistent(cs[k])
  }

  /** The persistent components of a list, in order: those a copy keeps and
      the writer writes. */
  function Persistents(cs: seq<Component>): (ps: seq<Component>)
    ensures |ps| <= |cs| && AllPersistent(ps)
  {
    if cs == [] then []
    else if Persistent(cs[0]) then [cs[0]] + Persistents(cs[1..])
    else Persistents(cs[1..])
  }

  /** Persistents keeps exactly the persistent components. */
  lemma {:induction false} PersistentsExactly(cs: seq<Component>)
    ensures forall k :: 0 <= k < |Persistents(cs)| ==> Persistents(cs)[k] in cs
    ensures forall x :: x in cs && Persistent(x) ==> x in Persistents(cs)
  {
    if cs != [] {
      PersistentsExactly(cs[1..]);
      assert forall x :: x in cs[1..] ==> x in cs;
      assert forall x :: x in cs ==> x == cs[0] || x in cs[1..];
    }
  }

  /** The copy loop: each component's copy, nulls dropped, in order. */
  function CopyAll(cs: seq<Component>): (r: seq<Component>)
    ensures |r| == |Persistents(cs)|
    ensures forall k :: 0 <= k < |r| ==> Components.Copy(Persistents(cs)[k]) == Some(r[k])
  {
    if cs == [] then []
    else match Components.Copy(cs[0])
      case Some(c) => [c] + CopyAll(cs[1..])
      case None => CopyAll(cs[1..])
  }

  /** copy: a new object named "Generated" with the same draw order, a copy
      of the transform and the copied components; the UI and serializable
      flags are the constructor's, whatever the original's. */
  function Copy(g: GameObject): (r: GameObject)
    ensures r.name == "Generated" && r.zIndex == g.zIndex && r.transform == Transforms.Copy(g.transform)
    ensures !r.isUi && r.serializable
    ensures |r.components| == |Persistents(g.components)|
    ensures forall k :: 0 <= k < |r.components| ==> Components.Copy(Persistents(g.components)[k]) == Some(r.components[k])
  {
    GameObject("Generated", Transforms.Copy(g.transform), CopyAll(g.components), g.zIndex, false, true)
  }

  /** A copy of a copy has the same components, in the same order. */
  lemma {:induction false} CopyAllIdempotent(cs: seq<Component>)
    ensures CopyAll(CopyAll(cs)) == CopyAll(cs)
  {
    if cs != [] {
      CopyAllIdempotent(cs[1..]);
      match Components.Copy(cs[0])
      case Some(c) =>
        CopyIdempotent(cs[0]);
        assert ([c] + CopyAll(cs[1..]))[1..] == CopyAll(cs[1..]);
      case None =>
    }
  }

  /** Copying a copy changes nothing but what Transforms.Copy rebuilds. */
  lemma CopyTwice(g: GameObject)
    ensures Copy(Copy(g)) == Copy(g)
  {
    CopyAllIdempotent(g.components);
  }

  predicate Printable(g: GameObject) {
    Transforms.Printable(g.transform) && forall k :: 0 <= k < |g.components| ==> Components.Printable(g.components[k])
  }

  /** One entry of the component list: a component that writes nothing adds
      nothing; the others are followed by ",\n" when any component, written
      or not, comes after them, and by "\n" otherwise. */
  function Entry(c: Component, more: bool, tabs: int): (s: string)
    requires Components.Printable(c)
  {
    var str := Components.Serialize(c, tabs);
    if str == [] then [] else str + AddEnding(true, more)
  }

  function Entries(cs: seq<Component>, tabs: int): string
    requires forall k :: 0 <= k < |cs| ==> Components.Printable(cs[k])
  {
    if cs == [] then [] else Entry(cs[0], |cs| > 1, tabs) + Entries(cs[1..], tabs)
  }

  /** The ZIndex line, and the opening of the component list when there are
      components. */
  function ZIndexPart(g: GameObject, tabs: int): string {
    if |g.components| > 0 then
      AddIntProperty("ZIndex", g.zIndex, tabs + 1, true, true) + BeginObjectProperty("Components", tabs + 1)
    else AddIntProperty("ZIndex", g.zIndex, tabs + 1, true, false)
  }

  function ComponentsClose(g: GameObject, tabs: int): string {
    if |g.components| > 0 then CloseObjectProperty(tabs + 1) else []
  }

  /** serialize: "" for a non-serializable object; otherwise the transform,
      Name, ZIndex, the component list when there are components, and the
      closing brace on a line of its own. */
  function Serialize(g: GameObject, tabs: int): (s: string)
    requires Printable(g)
    ensures s == [] <==> !g.serializable
    ensures s != [] ==> s[|s| - 1] == '}'
    ensures s != [] && tabs <= 0 ==> s[0] == '"'
  {
    if !g.serializable then []
    else
      BeginObjectProperty("GameObject", tabs) + Transforms.Serialize(g.transform, tabs + 1) + AddEnding(true, true)
        + AddStringProperty("Name", g.name, tabs + 1, true, true) + ZIndexPart(g, tabs)
        + Entries(g.components, tabs + 2) + ComponentsClose(g, tabs)
        + AddEnding(true, false) + CloseObjectProperty(tabs)
  }

  /** The reader up to ZIndex: the opening line, the transform, Name and
      ZIndex, with their commas. */
  function ReadHead(c: Cursor): (r: Result<Parsed<(Transform, string, Int32)>>)
    ensures r.Ok? ==> Advances(c, r.value.rest) && r.value.rest.offset > c.offset
    ensures ConsumeBeginObjectProperty(c, "GameObject").Fail? ==>
      r == Fail(ConsumeBeginObjectProperty(c, "GameObject").error)
  {
    var open :- ConsumeBeginObjectProperty(c, "GameObject");
    var t :- Transforms.Deserialize(open);
    var c1 :- Consume(t.rest, ',');
    var labels :- ReadLabels(c1);
    Ok(Parsed((t.value, labels.value.0, labels.value.1), labels.rest))
  }

  /** Name, its comma and ZIndex. */
  function ReadLabels(c: Cursor): (r: Result<Parsed<(string, Int32)>>)
    ensures r.Ok? ==> Advances(c, r.value.rest) && r.value.rest.offset > c.offset
  {
    var name :- ConsumeStringProperty(c, "Name");
    var c2 :- Consume(name.rest, ',');
    var z :- ConsumeIntProperty(c2, "ZIndex");
    Ok(Parsed((name.value, z.value), z.rest))
  }

  /** deserialize: the head, then a component list when the character right
      after ZIndex is ',', then the closing brace. */
  function Deserialize(c: Cursor, pool: Assets.Pool): (r: Result<Parsed<GameObject>>)
    ensures r.Ok? ==> Advances(c, r.value.rest) && r.value.rest.offset > c.offset
    ensures ReadHead(c).Fail? ==> r == Fail(ReadHead(c).error)
  {
    var head :- ReadHead(c);
    var (t, name, z) := head.value;
    ReadBody(head.rest, pool, New(name, t, z))
  }

  /** What follows ZIndex. peek() past the end of the buffer throws. The
      object is the constructor's, so adding the components read one by one
      leaves exactly them in its list. */
  function ReadBody(c: Cursor, pool: Assets.Pool, g: GameObject): (r: Result<Parsed<GameObject>>)
    requires g.components == []
    ensures r.Ok? ==> Advances(c, r.value.rest) && r.value.rest.offset > c.offset
    ensures AtEnd(c) ==> r == Fail(OutOfInput)
  {
    var p :- Peek(c);
    if p == ',' then
      var list :- ReadComponents(Advance(c), pool);
      Ok(Parsed(g.(components := list.value), list.rest))
    else
      var close :- ConsumeEndObjectProperty(c);
      Ok(Parsed(g, close))
  }

  /** The component list, then the list's closing brace and the object's. */
  function ReadComponents(c: Cursor, pool: Assets.Pool): (r: Result<Parsed<seq<Component>>>)
    ensures r.Ok? ==> Advances(c, r.value.rest) && r.value.rest.offset > c.offset
  {
    var list :- ReadList(c, pool);
    var end :- CloseTwice(list.rest);
    Ok(Parsed(list.value, end))
  }

  /** The list's closing brace, then the object's. */
  function CloseTwice(c: Cursor): (r: Result<Cursor>)
    ensures r.Ok? ==> Advances(c, r.value) && r.value.offset > c.offset
  {
    var close :- ConsumeEndObjectProperty(c);
    ConsumeEndObjectProperty(close)
  }

  /** The list's opening line, one component, and as many more as are
      preceded by ','. */
  function ReadList(c: Cursor, pool: Assets.Pool): (r: Result<Parsed<seq<Component>>>)
    ensures r.Ok? ==> Advances(c, r.value.rest) && r.value.rest.offset > c.offset
  {
    var open :- ConsumeBeginObjectProperty(c, "Components");
    var first :- ParseComponent(open, pool);
    Prepend(first.value, ComponentLoop(first.rest, pool))
  }

  /** One component read before the others read by `more`. */
  function Prepend(first: Component, more: Result<Parsed<seq<Component>>>): (r: Result<Parsed<seq<Component>>>)
    ensures more.Fail? ==> r == Fail(more.error)
    ensures more.Ok? ==> r == Ok(Parsed([first] + more.value.value, more.value.rest))
  {
    match more
    case Fail(e) => Fail(e)
    case Ok(others) => Ok(Parsed([first] + others.value, others.rest))
  }

  /** The while loop over ',': each ',' is followed by one more component.
      peek() past the end of the buffer throws. */
  function ComponentLoop(c: Cursor, pool: Assets.Pool): (r: Result<Parsed<seq<Component>>>)
    ensures r.Ok? ==> Advances(c, r.value.rest)
    decreases |c.bytes| - c.offset
  {
    if AtEnd(c) then Fail(OutOfInput)
    else if c.bytes[c.offset] != ',' then Ok(Parsed([], c))
    else match ParseComponent(Advance(c), pool)
      case Fail(e) => Fail(e)
      case Ok(comp) => Prepend(comp.value, ComponentLoop(comp.rest, pool))
  }

  /** Every component the loop reads is a persistent kind. */
  lemma {:induction false} LoopPersistent(c: Cursor, pool: Assets.Pool)
    requires ComponentLoop(c, pool).Ok?
    ensures AllPersistent(ComponentLoop(c, pool).value.value)
    decreases |c.bytes| - c.offset
  {
    if !AtEnd(c) && c.bytes[c.offset] == ',' {
      var comp := ParseComponent(Advance(c), pool).value;
      LoopPersistent(comp.rest, pool);
      PrependPersistent(comp.value, ComponentLoop(comp.rest, pool).value.value);
    }
  }

  /** A list read is non-empty and holds persistent kinds only. */
  lemma ListPersistent(c: Cursor, pool: Assets.Pool)
    requires ReadList(c, pool).Ok?
    ensures |ReadList(c, pool).value.value| > 0 && AllPersistent(ReadList(c, pool).value.value)
  {
    var open := ConsumeBeginObjectProperty(c, "Components").value;
    var first := ParseComponent(open, pool).value;
    LoopPersistent(first.rest, pool);
    var more := ComponentLoop(first.rest, pool).value.value;
    assert ReadList(c, pool).value.value == [first.value] + more;
    PrependPersistent(first.value, more);
  }

  lemma PrependPersistent(x: Component, s: seq<Component>)
    requires Persistent(x) && AllPersistent(s)
    ensures AllPersistent([x] + s)
  {
  }

  /** deserialize builds an object through the constructor with the head's
      name, transform and draw order, and adds only persistent kinds; an
      object with components had a ',' right after ZIndex. */
  lemma DeserializeShape(c: Cursor, pool: Assets.Pool)
    requires Deserialize(c, pool).Ok?
    ensures ReadHead(c).Ok?
    ensures Deserialize(c, pool).value.value ==
      New(ReadHead(c).value.value.1, ReadHead(c).value.value.0, ReadHead(c).value.value.2)
        .(components := Deserialize(c, pool).value.value.components)
    ensures AllPersistent(Deserialize(c, pool).value.value.components)
    ensures |Deserialize(c, pool).value.value.components| > 0 ==>
      ReadHead(c).value.rest.bytes[ReadHead(c).value.rest.offset] == ','
  {
    var head := ReadHead(c).value;
    var (t, name, z) := head.value;
    BodyShape(head.rest, pool, New(name, t, z));
  }

  lemma BodyShape(c: Cursor, pool: Assets.Pool, g: GameObject)
    requires g.components == [] && ReadBody(c, pool, g).Ok?
    ensures ReadBody(c, pool, g).value.value == g.(components := ReadBody(c, pool, g).value.value.components)
    ensures AllPersistent(ReadBody(c, pool, g).value.value.components)
    ensures |ReadBody(c, pool, g).value.value.components| > 0 ==> (!AtEnd(c) && c.bytes[c.offset] == ',')
  {
    assert !AtEnd(c);
    if c.bytes[c.offset] == ',' {
      ComponentsShape(Advance(c), pool);
    }
  }

  lemma ComponentsShape(c: Cursor, pool: Assets.Pool)
    requires ReadComponents(c, pool).Ok?
    ensures AllPersistent(ReadComponents(c, pool).value.value) && |ReadComponents(c, pool).value.value| > 0
  {
    ComponentsStep(c, pool);
    ListPersistent(c, pool);
  }

  lemma ComponentsStep(c: Cursor, pool: Assets.Pool)
    requires ReadComponents(c, pool).Ok?
    ensures ReadList(c, pool).Ok? && ReadComponents(c, pool).value.value == ReadList(c, pool).value.value
  {
  }
}
