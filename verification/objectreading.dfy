/** Reading back a written game object (src/engine/GameObject.java): the
    text serialize produces, read by deserialize, gives the written name,
    transform and draw order and the persistent components reloaded in
    order, when the last component writes something; when it writes
    nothing the list ends in a dangling ',' or is empty, and the reader
    fails. */
module ObjectReading {
  import opened Results
  import opened Serializer
  import opened Parser
  import opened Grammar
  import Transforms
  import Components
  import Assets
  import opened GameObjects
  import Seqs

  predicate AllRecordable(cs: seq<Components.Component>) {
    forall k :: 0 <= k < |cs| ==> Components.Recordable(cs[k])
  }

  /** The fields the text must carry faithfully. */
  predicate Recordable(g: GameObject) {
    Printable(g) && '"' !in g.name && AllRecordable(g.components)
  }

  /** The last component writes something, or there are none. */
  predicate EndsWritten(g: GameObject) {
    |g.components| == 0 || Components.Persistent(g.components[|g.components| - 1])
  }

  /** Each component reloaded in order; the first failure wins. */
  function RereadAll(pool: Assets.Pool, ps: seq<Components.Component>): (r: Result<seq<Components.Component>>)
    requires AllPersistent(ps)
    ensures r.Ok? ==> |r.value| == |ps|
  {
    if ps == [] then Ok([])
    else
      var first :- Components.Reread(pool, ps[0]);
      var others :- RereadAll(pool, ps[1..]);
      Ok([first] + others)
  }

  /** The list reloads exactly when every component does, each to its own
      reload. */
  lemma {:induction false} RereadAllPointwise(pool: Assets.Pool, ps: seq<Components.Component>)
    requires AllPersistent(ps)
    ensures RereadAll(pool, ps).Ok? <==> forall k :: 0 <= k < |ps| ==> Components.Reread(pool, ps[k]).Ok?
    ensures RereadAll(pool, ps).Ok? ==>
      forall k :: 0 <= k < |ps| ==> Components.Reread(pool, ps[k]) == Ok(RereadAll(pool, ps).value[k])
  {
    if ps != [] {
      RereadAllPointwise(pool, ps[1..]);
      if Components.Reread(pool, ps[0]).Ok? && RereadAll(pool, ps[1..]).Ok? {
        var r := RereadAll(pool, ps).value;
        assert r == [Components.Reread(pool, ps[0]).value] + RereadAll(pool, ps[1..]).value;
        forall k | 0 <= k < |ps|
          ensures Components.Reread(pool, ps[k]) == Ok(r[k])
        {
          if k > 0 {
            assert ps[k] == ps[1..][k - 1];
          }
        }
      } else if Components.Reread(pool, ps[0]).Ok? {
        var k :| 0 <= k < |ps[1..]| && !Components.Reread(pool, ps[1..][k]).Ok?;
        assert ps[1..][k] == ps[k + 1];
      }
    }
  }

  /** What reading back a written object gives: the constructor's object with
      the written name, transform and draw order, holding the reloaded
      persistent components in order. */
  function Reread(pool: Assets.Pool, g: GameObject): (r: Result<GameObject>)
    ensures r.Ok? <==> RereadAll(pool, Persistents(g.components)).Ok?
    ensures r.Ok? ==> r.value.name == g.name && r.value.transform == g.transform && r.value.zIndex == g.zIndex
    ensures r.Ok? ==> !r.value.isUi && r.value.serializable && |r.value.components| == |Persistents(g.components)|
  {
    var rs :- RereadAll(pool, Persistents(g.components));
    Ok(New(g.name, g.transform, g.zIndex).(components := rs))
  }

  /** The text serialize writes for g, after the whitespace pre and followed
      by rest, lies at c. */
  predicate Written(c: Cursor, pre: string, g: GameObject, tabs: int, rest: string) {
    AllWhitespace(pre) && g.serializable && Recordable(g) && At(c.bytes, c.offset, pre + (Serialize(g, tabs) + rest))
  }

  /** A written object whose last component writes something reads back as
      Reread says, or fails as the first failing pool lookup does; the
      reader stops right after the object's closing brace. */
  lemma DeserializeRead(c: Cursor, pre: string, g: GameObject, tabs: int, rest: string, pool: Assets.Pool)
    returns (d: Cursor)
    requires Written(c, pre, g, tabs, rest) && EndsWritten(g)
    ensures Deserialize(c, pool) == Placed(Reread(pool, g), d)
    ensures d.bytes == c.bytes && d.offset == c.offset + |pre| + |Serialize(g, tabs)|
    ensures At(d.bytes, d.offset, rest)
  {
    var target := c.offset + |pre| + |Serialize(g, tabs)|;
    if |g.components| > 0 {
      var head := ObjectHead(c, pre, g, tabs, true, rest, pool, target);
      d := ListObjectRead(c, head, g, tabs, rest, pool, target);
    } else {
      var head := ObjectHead(c, pre, g, tabs, false, rest, pool, target);
      d := EmptyObjectRead(c, head, g, tabs, rest, pool, target);
    }
  }

  /** A written object whose last component writes nothing cannot be read
      back: the list either ends in ",\n" before its closing brace or holds
      nothing at all, and parseComponent then meets '}' where a tag's quote
      should be. */
  lemma DeserializeFails(c: Cursor, pre: string, g: GameObject, tabs: int, rest: string, pool: Assets.Pool)
    requires Written(c, pre, g, tabs, rest) && !EndsWritten(g)
    ensures Deserialize(c, pool).Fail?
  {
    var head := ObjectHead(c, pre, g, tabs, true, rest, pool, c.offset + |pre| + |Serialize(g, tabs)|);
    ListObjectFails(c, head, g, tabs, rest, pool, c.offset + |pre| + |Serialize(g, tabs)|);
  }

  /** Deserialize has read everything up to the ZIndex value and goes on
      with the rest of the object at head; the object's text ends at target. */
  predicate HeadAt(c: Cursor, head: Cursor, g: GameObject, tabs: int, rest: string, pool: Assets.Pool, more: bool, target: int) {
    Printable(g) &&
    Deserialize(c, pool) == ReadBody(head, pool, New(g.name, g.transform, g.zIndex)) && head.bytes == c.bytes &&
    head.offset + |AddEnding(true, more)| + |Body(g, tabs, rest)| == target + |rest| &&
    At(head.bytes, head.offset, AddEnding(true, more) + Body(g, tabs, rest))
  }

  /** Everything up to the ZIndex value, and what deserialize does next. */
  lemma ObjectHead(c: Cursor, pre: string, g: GameObject, tabs: int, more: bool, rest: string, pool: Assets.Pool, target: int)
    returns (head: Cursor)
    requires Written(c, pre, g, tabs, rest) && more == (|g.components| > 0)
    requires target == c.offset + |pre| + |Serialize(g, tabs)|
    ensures HeadAt(c, head, g, tabs, rest, pool, more, target)
  {
    ObjectText(g, tabs, rest);
    head := HeadRead(c, pre, g, tabs, more, Body(g, tabs, rest));
    DeserializeStep(c, pool, g.transform, g.name, g.zIndex, head);
  }

  /** The object without components. */
  lemma EmptyObjectRead(c: Cursor, head: Cursor, g: GameObject, tabs: int, rest: string, pool: Assets.Pool, target: int)
    returns (d: Cursor)
    requires Recordable(g) && |g.components| == 0
    requires HeadAt(c, head, g, tabs, rest, pool, false, target)
    ensures Deserialize(c, pool) == Placed(Reread(pool, g), d)
    ensures d.bytes == c.bytes && d.offset == target
    ensures At(d.bytes, d.offset, rest)
  {
    assert Persistents(g.components) == [];
    d := EmptyBodyRead(head, New(g.name, g.transform, g.zIndex), tabs, rest, pool);
  }

  /** The object with components, the last of which writes something. */
  lemma ListObjectRead(c: Cursor, head: Cursor, g: GameObject, tabs: int, rest: string, pool: Assets.Pool, target: int)
    returns (d: Cursor)
    requires Recordable(g) && |g.components| > 0 && EndsWritten(g)
    requires HeadAt(c, head, g, tabs, rest, pool, true, target)
    ensures Deserialize(c, pool) == Placed(Reread(pool, g), d)
    ensures d.bytes == c.bytes && d.offset == target
    ensures At(d.bytes, d.offset, rest)
  {
    var ps := Persistents(g.components);
    EntriesText(g.components, tabs + 2);
    assert ps != [] by {
      PersistentsExactly(g.components);
      assert g.components[|g.components| - 1] in g.components;
    }
    d := ListBodyRead(head, New(g.name, g.transform, g.zIndex), ps, tabs, rest, pool);
  }

  /** The object whose last component writes nothing. */
  lemma ListObjectFails(c: Cursor, head: Cursor, g: GameObject, tabs: int, rest: string, pool: Assets.Pool, target: int)
    requires Recordable(g) && !EndsWritten(g)
    requires HeadAt(c, head, g, tabs, rest, pool, true, target)
    ensures Deserialize(c, pool).Fail?
  {
    var ps := Persistents(g.components);
    EntriesText(g.components, tabs + 2);
    var after := AddEnding(true, false) + (CloseObjectProperty(tabs) + rest);
    var a := CommaRead(head, BeginObjectProperty("Components", tabs + 1) +
      (ListText(ps, tabs + 2, true) + (CloseObjectProperty(tabs + 1) + after)));
    ListFails(a, ps, tabs + 1, after, pool);
    BodyListStep(head, pool, New(g.name, g.transform, g.zIndex));
    ComponentsStep(a, pool);
  }

  /** Persistents keeps what every component satisfies. */
  lemma PersistentsKeep(cs: seq<Components.Component>)
    requires AllRecordable(cs)
    ensures AllRecordable(Persistents(cs))
  {
    PersistentsExactly(cs);
  }

  // The text.

  /** The list entries after the first: each preceded by ",\n"; the list ends
      with ",\n" when `dangling`, and with "\n" otherwise. */
  function Tail(ps: seq<Components.Component>, tabs: int, dangling: bool): string
    requires AllRecordable(ps)
  {
    if ps == [] then AddEnding(true, dangling)
    else AddEnding(true, true) + (Components.Serialize(ps[0], tabs) + Tail(ps[1..], tabs, dangling))
  }

  /** The text of the persistent components as a list: nothing when there
      are none. */
  function ListText(ps: seq<Components.Component>, tabs: int, dangling: bool): string
    requires AllRecordable(ps)
  {
    if ps == [] then [] else Components.Serialize(ps[0], tabs) + Tail(ps[1..], tabs, dangling)
  }

  /** The writer's component loop, in terms of the components that write
      something: the ending of the last one depends on whether the last
      component of the whole list writes something. */
  lemma {:induction false} EntriesText(cs: seq<Components.Component>, tabs: int)
    requires AllRecordable(cs) && |cs| > 0
    ensures AllRecordable(Persistents(cs))
    ensures Entries(cs, tabs) == ListText(Persistents(cs), tabs, !Components.Persistent(cs[|cs| - 1]))
  {
    PersistentsKeep(cs);
    if |cs| == 1 {
      EntriesOne(cs, tabs);
    } else {
      RecordableTail(cs);
      EntriesText(cs[1..], tabs);
      assert cs[1..][|cs[1..]| - 1] == cs[|cs| - 1];
      EntriesStep(cs, tabs);
    }
  }

  lemma RecordableTail(cs: seq<Components.Component>)
    requires AllRecordable(cs) && |cs| > 0
    ensures AllRecordable(cs[1..])
  {
  }

  /** One more component in front of a list already written. */
  lemma EntriesStep(cs: seq<Components.Component>, tabs: int)
    requires AllRecordable(cs) && |cs| > 1
    requires AllRecordable(Persistents(cs[1..]))
    requires Entries(cs[1..], tabs) == ListText(Persistents(cs[1..]), tabs, !Components.Persistent(cs[|cs| - 1]))
    ensures AllRecordable(Persistents(cs))
    ensures Entries(cs, tabs) == ListText(Persistents(cs), tabs, !Components.Persistent(cs[|cs| - 1]))
  {
    var dangling := !Components.Persistent(cs[|cs| - 1]);
    if Components.Persistent(cs[0]) {
      if Persistents(cs[1..]) == [] {
        NoneWritten(cs[1..]);
        assert cs[1..][|cs[1..]| - 1] == cs[|cs| - 1];
      }
      EntriesKeep(cs, tabs, dangling);
    } else {
      EntriesSkip(cs, tabs);
    }
  }

  lemma EntriesOne(cs: seq<Components.Component>, tabs: int)
    requires AllRecordable(cs) && |cs| == 1
    ensures AllRecordable(Persistents(cs))
    ensures Entries(cs, tabs) == ListText(Persistents(cs), tabs, !Components.Persistent(cs[0]))
  {
    PersistentsKeep(cs);
    if Components.Persistent(cs[0]) {
      assert Persistents(cs) == [cs[0]];
    } else {
      assert Persistents(cs) == [];
    }
  }

  lemma EntriesSkip(cs: seq<Components.Component>, tabs: int)
    requires AllRecordable(cs) && |cs| > 1 && !Components.Persistent(cs[0])
    ensures Entries(cs, tabs) == Entries(cs[1..], tabs) && Persistents(cs) == Persistents(cs[1..])
  {
    assert Entry(cs[0], true, tabs) == [];
  }

  lemma EntriesKeep(cs: seq<Components.Component>, tabs: int, dangling: bool)
    requires AllRecordable(cs) && |cs| > 1 && Components.Persistent(cs[0])
    requires AllRecordable(Persistents(cs[1..]))
    requires Entries(cs[1..], tabs) == ListText(Persistents(cs[1..]), tabs, dangling)
    requires Persistents(cs[1..]) == [] ==> dangling
    ensures AllRecordable(Persistents(cs))
    ensures Entries(cs, tabs) == ListText(Persistents(cs), tabs, dangling)
  {
    PersistentsKeep(cs);
    var qs := Persistents(cs[1..]);
    assert Persistents(cs) == [cs[0]] + qs;
    assert Entries(cs, tabs) == (Components.Serialize(cs[0], tabs) + AddEnding(true, true)) + ListText(qs, tabs, dangling);
    KeepText(cs[0], qs, tabs, dangling);
  }

  lemma KeepText(c: Components.Component, qs: seq<Components.Component>, tabs: int, dangling: bool)
    requires Components.Recordable(c) && AllRecordable(qs) && AllRecordable([c] + qs)
    requires qs == [] ==> dangling
    ensures ListText([c] + qs, tabs, dangling) ==
      (Components.Serialize(c, tabs) + AddEnding(true, true)) + ListText(qs, tabs, dangling)
  {
    assert ([c] + qs)[1..] == qs;
    if qs != [] {
      assert Tail(qs, tabs, dangling) == AddEnding(true, true) + ListText(qs, tabs, dangling);
      Seqs.Assoc(Components.Serialize(c, tabs), AddEnding(true, true), ListText(qs, tabs, dangling));
    }
  }

  /** A list none of whose components is persistent writes nothing at all. */
  lemma {:induction false} NoneWritten(cs: seq<Components.Component>)
    requires AllRecordable(cs) && Persistents(cs) == []
    ensures forall k :: 0 <= k < |cs| ==> !Components.Persistent(cs[k])
  {
    PersistentsExactly(cs);
    forall k | 0 <= k < |cs|
      ensures !Components.Persistent(cs[k])
    {
      assert cs[k] in cs;
    }
  }

  /** What follows the ZIndex value. */
  function Body(g: GameObject, tabs: int, rest: string): string
    requires Printable(g)
  {
    if |g.components| > 0 then
      BeginObjectProperty("Components", tabs + 1) + (Entries(g.components, tabs + 2) +
        (CloseObjectProperty(tabs + 1) + (AddEnding(true, false) + (CloseObjectProperty(tabs) + rest))))
    else AddEnding(true, false) + (CloseObjectProperty(tabs) + rest)
  }

  /** The writer's pieces, nested from the right. */
  lemma ObjectText(g: GameObject, tabs: int, rest: string)
    requires g.serializable && Printable(g)
    ensures Serialize(g, tabs) + rest ==
      BeginObjectProperty("GameObject", tabs) + (Transforms.Serialize(g.transform, tabs + 1) + (AddEnding(true, true) +
        (AddStringProperty("Name", g.name, tabs + 1, true, true) +
          (AddIntProperty("ZIndex", g.zIndex, tabs + 1, true, |g.components| > 0) + Body(g, tabs, rest)))))
  {
    var b := BeginObjectProperty("GameObject", tabs);
    var t := Transforms.Serialize(g.transform, tabs + 1);
    var e := AddEnding(true, true);
    var n := AddStringProperty("Name", g.name, tabs + 1, true, true);
    var z := AddIntProperty("ZIndex", g.zIndex, tabs + 1, true, |g.components| > 0);
    if |g.components| > 0 {
      Regroup10(b, t, e, n, z, BeginObjectProperty("Components", tabs + 1), Entries(g.components, tabs + 2),
        CloseObjectProperty(tabs + 1), AddEnding(true, false), CloseObjectProperty(tabs), rest);
    } else {
      RegroupNoComponents(b, t, e, n, z, AddEnding(true, false), CloseObjectProperty(tabs), rest);
    }
  }

  lemma Regroup10(b: string, t: string, e: string, n: string, z: string, bg: string, en: string,
                  cc: string, e2: string, cl: string, rest: string)
    ensures ((((((((b + t) + e) + n) + (z + bg)) + en) + cc) + e2) + cl) + rest ==
      b + (t + (e + (n + (z + (bg + (en + (cc + (e2 + (cl + rest)))))))))
  {
  }

  lemma RegroupNoComponents(b: string, t: string, e: string, n: string, z: string, e2: string, cl: string, rest: string)
    ensures ((((((((b + t) + e) + n) + z) + []) + []) + e2) + cl) + rest ==
      b + (t + (e + (n + (z + (e2 + (cl + rest))))))
  {
    assert (((b + t) + e) + n) + z + [] == (((b + t) + e) + n) + z;
  }

  lemma Literals()
    ensures AddEnding(true, false) == "\n" && AddEnding(true, true) == ",\n"
    ensures AllWhitespace("\n") && AllWhitespace("\n\n") && |"\n"| == 1
    ensures '"' !in "GameObject" && '"' !in "Name" && '"' !in "ZIndex" && '"' !in "Components"
  {
  }

  // The readers, piece by piece.

  /** The opening line, the transform, Name and ZIndex with their commas. */
  lemma HeadRead(c: Cursor, pre: string, g: GameObject, tabs: int, more: bool, body: string) returns (head: Cursor)
    requires AllWhitespace(pre) && Recordable(g)
    requires At(c.bytes, c.offset, pre + (BeginObjectProperty("GameObject", tabs) +
      (Transforms.Serialize(g.transform, tabs + 1) + (AddEnding(true, true) +
        (AddStringProperty("Name", g.name, tabs + 1, true, true) +
          (AddIntProperty("ZIndex", g.zIndex, tabs + 1, true, more) + body))))))
    ensures ReadHead(c) == Ok(Parsed((g.transform, g.name, g.zIndex), head))
    ensures head.bytes == c.bytes
    ensures head.offset + |AddEnding(true, more)| == c.offset + |pre| + |BeginObjectProperty("GameObject", tabs)| +
      |Transforms.Serialize(g.transform, tabs + 1)| + |AddEnding(true, true)| +
      |AddStringProperty("Name", g.name, tabs + 1, true, true)| + |AddIntProperty("ZIndex", g.zIndex, tabs + 1, true, more)|
    ensures At(head.bytes, head.offset, AddEnding(true, more) + body)
  {
    Literals();
    var zPart := AddIntProperty("ZIndex", g.zIndex, tabs + 1, true, more) + body;
    var labels := AddStringProperty("Name", g.name, tabs + 1, true, true) + zPart;
    var open := BeginRead(c, pre, "GameObject", tabs, Transforms.Serialize(g.transform, tabs + 1) +
      (AddEnding(true, true) + labels));
    var placed := Transforms.DeserializeRead(open, "\n", g.transform, tabs + 1, AddEnding(true, true) + labels);
    var c1 := CommaRead(placed, labels);
    head := LabelsRead(c1, g, tabs, more, body);
    HeadStep(c, open, Parsed(g.transform, placed), c1, (g.name, g.zIndex), head);
  }

  /** Name, its comma and ZIndex. */
  lemma LabelsRead(c: Cursor, g: GameObject, tabs: int, more: bool, body: string) returns (head: Cursor)
    requires Recordable(g)
    requires At(c.bytes, c.offset, "\n" + (AddStringProperty("Name", g.name, tabs + 1, true, true) +
      (AddIntProperty("ZIndex", g.zIndex, tabs + 1, true, more) + body)))
    ensures ReadLabels(c) == Ok(Parsed((g.name, g.zIndex), head))
    ensures head.bytes == c.bytes
    ensures head.offset + |AddEnding(true, more)| == c.offset + 1 +
      |AddStringProperty("Name", g.name, tabs + 1, true, true)| + |AddIntProperty("ZIndex", g.zIndex, tabs + 1, true, more)|
    ensures At(head.bytes, head.offset, AddEnding(true, more) + body)
  {
    Literals();
    var zPart := AddIntProperty("ZIndex", g.zIndex, tabs + 1, true, more) + body;
    var named := StringRead(c, "\n", "Name", g.name, tabs + 1, true, true, zPart);
    var c2 := CommaRead(named, zPart);
    head := IntRead(c2, "\n", "ZIndex", g.zIndex, tabs + 1, true, more, body);
  }

  lemma HeadStep(c: Cursor, open: Cursor, t: Parsed<Transforms.Transform>, c1: Cursor,
                 labels: (string, Text.Int32), head: Cursor)
    requires ConsumeBeginObjectProperty(c, "GameObject") == Ok(open)
    requires Transforms.Deserialize(open) == Ok(t)
    requires Consume(t.rest, ',') == Ok(c1)
    requires ReadLabels(c1) == Ok(Parsed(labels, head))
    ensures ReadHead(c) == Ok(Parsed((t.value, labels.0, labels.1), head))
  {
  }

  lemma DeserializeStep(c: Cursor, pool: Assets.Pool, t: Transforms.Transform, name: string, z: Text.Int32, head: Cursor)
    requires ReadHead(c) == Ok(Parsed((t, name, z), head))
    ensures Deserialize(c, pool) == ReadBody(head, pool, New(name, t, z))
  {
  }

  /** No components: ZIndex's newline, the blank line, the closing brace. */
  lemma EmptyBodyRead(c: Cursor, g0: GameObject, tabs: int, rest: string, pool: Assets.Pool) returns (d: Cursor)
    requires g0.components == []
    requires At(c.bytes, c.offset, AddEnding(true, false) + (AddEnding(true, false) + (CloseObjectProperty(tabs) + rest)))
    ensures ReadBody(c, pool, g0) == Ok(Parsed(g0, d))
    ensures d.bytes == c.bytes && d.offset == c.offset + 2 + |CloseObjectProperty(tabs)|
    ensures At(d.bytes, d.offset, rest)
  {
    Literals();
    assert "\n" + ("\n" + (CloseObjectProperty(tabs) + rest)) == "\n\n" + (CloseObjectProperty(tabs) + rest);
    AtTail(c.bytes, c.offset, "\n\n" + (CloseObjectProperty(tabs) + rest));
    d := EndRead(c, "\n\n", tabs, rest);
  }

  /** Components: the ',' after ZIndex, the list, its closing brace, the
      object's closing line. */
  lemma ListBodyRead(c: Cursor, g0: GameObject, ps: seq<Components.Component>, tabs: int, rest: string, pool: Assets.Pool)
    returns (d: Cursor)
    requires g0.components == [] && |ps| > 0 && AllPersistent(ps) && AllRecordable(ps)
    requires At(c.bytes, c.offset, AddEnding(true, true) + (BeginObjectProperty("Components", tabs + 1) +
      (ListText(ps, tabs + 2, false) + (CloseObjectProperty(tabs + 1) + (AddEnding(true, false) +
        (CloseObjectProperty(tabs) + rest))))))
    ensures RereadAll(pool, ps).Ok? ==>
      ReadBody(c, pool, g0) == Ok(Parsed(g0.(components := RereadAll(pool, ps).value), d))
    ensures RereadAll(pool, ps).Fail? ==> ReadBody(c, pool, g0) == Fail(RereadAll(pool, ps).error)
    ensures d.bytes == c.bytes && d.offset == c.offset + 3 + |BeginObjectProperty("Components", tabs + 1)| +
      |ListText(ps, tabs + 2, false)| + |CloseObjectProperty(tabs + 1)| + |CloseObjectProperty(tabs)|
    ensures At(d.bytes, d.offset, rest)
  {
    var after := AddEnding(true, false) + (CloseObjectProperty(tabs) + rest);
    var a := CommaRead(c, BeginObjectProperty("Components", tabs + 1) +
      (ListText(ps, tabs + 2, false) + (CloseObjectProperty(tabs + 1) + after)));
    var list := ListRead(a, ps, tabs + 1, CloseObjectProperty(tabs + 1) + after, pool);
    d := ClosesRead(list, tabs, rest);
    BodyListStep(c, pool, g0);
    ComponentsStep(a, pool);
  }

  /** The list's closing brace, then the object's. */
  lemma ClosesRead(c: Cursor, tabs: int, rest: string) returns (d: Cursor)
    requires At(c.bytes, c.offset, "\n" + (CloseObjectProperty(tabs + 1) + (AddEnding(true, false) +
      (CloseObjectProperty(tabs) + rest))))
    ensures CloseTwice(c) == Ok(d)
    ensures d.bytes == c.bytes && d.offset == c.offset + 2 + |CloseObjectProperty(tabs + 1)| + |CloseObjectProperty(tabs)|
    ensures At(d.bytes, d.offset, rest)
  {
    Literals();
    var close := EndRead(c, "\n", tabs + 1, AddEnding(true, false) + (CloseObjectProperty(tabs) + rest));
    d := EndRead(close, "\n", tabs, rest);
  }

  /** The list's opening line, the first component and the loop. */
  lemma ListRead(c: Cursor, ps: seq<Components.Component>, k: int, tail: string, pool: Assets.Pool) returns (d: Cursor)
    requires |ps| > 0 && AllPersistent(ps) && AllRecordable(ps)
    requires At(c.bytes, c.offset, "\n" + (BeginObjectProperty("Components", k) + (ListText(ps, k + 1, false) + tail)))
    ensures ReadList(c, pool) == Placed(RereadAll(pool, ps), d)
    ensures d.bytes == c.bytes && d.offset == c.offset + |BeginObjectProperty("Components", k)| + |ListText(ps, k + 1, false)|
    ensures At(d.bytes, d.offset, "\n" + tail)
  {
    SliceFacts(ps);
    Seqs.Assoc(Components.Serialize(ps[0], k + 1), Tail(ps[1..], k + 1, false), tail);
    var first := FirstRead(c, ps[0], k, Tail(ps[1..], k + 1, false) + tail, pool);
    d := LoopRead(first, ps[1..], k + 1, tail, pool);
    ConsPlaced(pool, ps, d);
  }

  /** The list's opening line and its first component. */
  lemma FirstRead(c: Cursor, p: Components.Component, k: int, later: string, pool: Assets.Pool) returns (first: Cursor)
    requires Components.Persistent(p) && Components.Recordable(p)
    requires At(c.bytes, c.offset, "\n" + (BeginObjectProperty("Components", k) + (Components.Serialize(p, k + 1) + later)))
    ensures ReadList(c, pool) == Cons(Components.Reread(pool, p), ComponentLoop(first, pool))
    ensures first.bytes == c.bytes && first.offset == c.offset + 1 + |BeginObjectProperty("Components", k)| + |Components.Serialize(p, k + 1)|
    ensures At(first.bytes, first.offset, later)
  {
    Literals();
    var open := BeginRead(c, "\n", "Components", k, Components.Serialize(p, k + 1) + later);
    assert open.offset == c.offset + |BeginObjectProperty("Components", k)|;
    first := Components.ParseRead(open, "\n", p, k + 1, later, pool);
    ListStep(c, pool, open);
  }

  /** The loop reads every ",\n"-preceded component and stops at the "\n"
      ending the last one. */
  lemma {:induction false} LoopRead(c: Cursor, ps: seq<Components.Component>, k: int, tail: string, pool: Assets.Pool)
    returns (d: Cursor)
    requires AllPersistent(ps) && AllRecordable(ps)
    requires At(c.bytes, c.offset, Tail(ps, k, false) + tail)
    ensures ComponentLoop(c, pool) == Placed(RereadAll(pool, ps), d)
    ensures d.bytes == c.bytes && d.offset + 1 == c.offset + |Tail(ps, k, false)|
    ensures At(d.bytes, d.offset, "\n" + tail)
    decreases |ps|
  {
    if ps == [] {
      d := LoopEnd(c, tail, pool);
    } else {
      SliceFacts(ps);
      TailText(ps, k, false, tail);
      var first := EntryRead(c, ps[0], k, Tail(ps[1..], k, false) + tail, pool);
      d := LoopRead(first, ps[1..], k, tail, pool);
      ConsPlaced(pool, ps, d);
    }
  }

  /** What a nonempty list's first element and its rest facts say of it. */
  lemma SliceFacts(ps: seq<Components.Component>)
    requires |ps| > 0 && AllPersistent(ps) && AllRecordable(ps)
    ensures Components.Persistent(ps[0]) && Components.Recordable(ps[0])
    ensures AllPersistent(ps[1..]) && AllRecordable(ps[1..])
  {
    assert forall k :: 0 <= k < |ps[1..]| ==> ps[1..][k] == ps[k + 1];
  }

  /** The reader's first component in front of what the rest gave. */
  function Cons(first: Result<Components.Component>, more: Result<Parsed<seq<Components.Component>>>): (r: Result<Parsed<seq<Components.Component>>>)
    ensures first.Fail? ==> r == Fail(first.error)
    ensures first.Ok? ==> r == Prepend(first.value, more)
  {
    match first
    case Fail(e) => Fail(e)
    case Ok(v) => Prepend(v, more)
  }

  /** Reloading the first component and then the rest is reloading the list. */
  lemma ConsPlaced(pool: Assets.Pool, ps: seq<Components.Component>, d: Cursor)
    requires |ps| > 0 && AllPersistent(ps)
    requires AllPersistent(ps[1..])
    ensures Cons(Components.Reread(pool, ps[0]), Placed(RereadAll(pool, ps[1..]), d)) == Placed(RereadAll(pool, ps), d)
  {
  }

  /** A failure of the rest fails the list. */
  lemma ConsFails(first: Result<Components.Component>, more: Result<Parsed<seq<Components.Component>>>)
    requires more.Fail?
    ensures Cons(first, more).Fail?
  {
  }

  /** The "\n" after the last component ends the loop. */
  lemma LoopEnd(c: Cursor, tail: string, pool: Assets.Pool) returns (d: Cursor)
    requires At(c.bytes, c.offset, AddEnding(true, false) + tail)
    ensures ComponentLoop(c, pool) == Ok(Parsed([], d)) && d == c
    ensures At(d.bytes, d.offset, "\n" + tail)
  {
    Literals();
    AtTail(c.bytes, c.offset, "\n" + tail);
    d := c;
  }

  /** One ",\n" and the component after it. */
  lemma EntryRead(c: Cursor, p: Components.Component, k: int, later: string, pool: Assets.Pool) returns (first: Cursor)
    requires Components.Persistent(p) && Components.Recordable(p)
    requires At(c.bytes, c.offset, AddEnding(true, true) + (Components.Serialize(p, k) + later))
    ensures ComponentLoop(c, pool) == Cons(Components.Reread(pool, p), ComponentLoop(first, pool))
    ensures first.bytes == c.bytes && first.offset == c.offset + 2 + |Components.Serialize(p, k)|
    ensures At(first.bytes, first.offset, later)
  {
    Literals();
    var a := CommaRead(c, Components.Serialize(p, k) + later);
    first := Components.ParseRead(a, "\n", p, k, later, pool);
    LoopStep(c, pool);
  }

  lemma TailText(ps: seq<Components.Component>, k: int, dangling: bool, tail: string)
    requires |ps| > 0 && AllRecordable(ps)
    ensures Tail(ps, k, dangling) + tail ==
      AddEnding(true, true) + (Components.Serialize(ps[0], k) + (Tail(ps[1..], k, dangling) + tail))
    ensures |Tail(ps, k, dangling)| == 2 + |Components.Serialize(ps[0], k)| + |Tail(ps[1..], k, dangling)|
  {
    Literals();
    Regroup3(AddEnding(true, true), Components.Serialize(ps[0], k), Tail(ps[1..], k, dangling), tail);
  }

  lemma Regroup3(x: string, y: string, z: string, tail: string)
    ensures (x + (y + z)) + tail == x + (y + (z + tail))
    ensures |x + (y + z)| == |x| + |y| + |z|
  {
  }

  /** The list text when the last component wrote nothing: the reader fails
      on the empty list or on the dangling comma. */
  lemma ListFails(c: Cursor, ps: seq<Components.Component>, k: int, tail: string, pool: Assets.Pool)
    requires AllPersistent(ps) && AllRecordable(ps)
    requires At(c.bytes, c.offset, "\n" + (BeginObjectProperty("Components", k) +
      (ListText(ps, k + 1, true) + (CloseObjectProperty(k) + tail))))
    ensures ReadList(c, pool).Fail?
  {
    if ps == [] {
      assert ListText(ps, k + 1, true) + (CloseObjectProperty(k) + tail) == CloseObjectProperty(k) + tail;
      EmptyListFails(c, k, tail, pool);
    } else {
      SliceFacts(ps);
      Seqs.Assoc(Components.Serialize(ps[0], k + 1), Tail(ps[1..], k + 1, true), CloseObjectProperty(k) + tail);
      var first := FirstRead(c, ps[0], k, Tail(ps[1..], k + 1, true) + (CloseObjectProperty(k) + tail), pool);
      LoopFails(first, ps[1..], k + 1, k, tail, pool);
      ConsFails(Components.Reread(pool, ps[0]), ComponentLoop(first, pool));
    }
  }

  lemma EmptyListFails(c: Cursor, k: int, tail: string, pool: Assets.Pool)
    requires At(c.bytes, c.offset, "\n" + (BeginObjectProperty("Components", k) + (CloseObjectProperty(k) + tail)))
    ensures ReadList(c, pool).Fail?
  {
    Literals();
    var open := BeginRead(c, "\n", "Components", k, CloseObjectProperty(k) + tail);
    ClosedFails(open, k, tail, pool);
    ListStep(c, pool, open);
  }

  lemma {:induction false} LoopFails(c: Cursor, ps: seq<Components.Component>, k: int, j: int, tail: string, pool: Assets.Pool)
    requires AllPersistent(ps) && AllRecordable(ps)
    requires At(c.bytes, c.offset, Tail(ps, k, true) + (CloseObjectProperty(j) + tail))
    ensures ComponentLoop(c, pool).Fail?
    decreases |ps|
  {
    if ps == [] {
      DanglingFails(c, j, tail, pool);
    } else {
      SliceFacts(ps);
      TailText(ps, k, true, CloseObjectProperty(j) + tail);
      var first := EntryRead(c, ps[0], k, Tail(ps[1..], k, true) + (CloseObjectProperty(j) + tail), pool);
      LoopFails(first, ps[1..], k, j, tail, pool);
      ConsFails(Components.Reread(pool, ps[0]), ComponentLoop(first, pool));
    }
  }

  /** A ',' followed by the list's closing brace. */
  lemma DanglingFails(c: Cursor, j: int, tail: string, pool: Assets.Pool)
    requires At(c.bytes, c.offset, AddEnding(true, true) + (CloseObjectProperty(j) + tail))
    ensures ComponentLoop(c, pool).Fail?
  {
    var a := CommaRead(c, CloseObjectProperty(j) + tail);
    ClosedFails(a, j, tail, pool);
    LoopStep(c, pool);
  }

  /** parseComponent at a closing brace: the tag's opening quote is missing. */
  lemma ClosedFails(c: Cursor, j: int, tail: string, pool: Assets.Pool)
    requires At(c.bytes, c.offset, "\n" + (CloseObjectProperty(j) + tail))
    ensures Components.ParseComponent(c, pool).Fail?
  {
    Literals();
    var ws := "\n" + AddTabs(j);
    assert "\n" + (CloseObjectProperty(j) + tail) == ws + ("}" + tail);
    AtSplit(c.bytes, c.offset, ws, "}" + tail);
    AtTail(c.bytes, c.offset + |ws|, "}" + tail);
    TabsAreWhitespace(j);
    WhitespaceJoin("\n", AddTabs(j));
    SkipOver(c, ws);
    assert ParseString(c).Fail?;
  }

  // One level of each reader, unfolded.

  lemma ListStep(c: Cursor, pool: Assets.Pool, open: Cursor)
    requires ConsumeBeginObjectProperty(c, "Components") == Ok(open)
    ensures Components.ParseComponent(open, pool).Fail? ==>
      ReadList(c, pool) == Fail(Components.ParseComponent(open, pool).error)
    ensures Components.ParseComponent(open, pool).Ok? ==>
      ReadList(c, pool) == Prepend(Components.ParseComponent(open, pool).value.value,
        ComponentLoop(Components.ParseComponent(open, pool).value.rest, pool))
  {
  }

  lemma LoopStep(c: Cursor, pool: Assets.Pool)
    requires !AtEnd(c) && c.bytes[c.offset] == ','
    ensures Components.ParseComponent(Advance(c), pool).Fail? ==>
      ComponentLoop(c, pool) == Fail(Components.ParseComponent(Advance(c), pool).error)
    ensures Components.ParseComponent(Advance(c), pool).Ok? ==>
      ComponentLoop(c, pool) == Prepend(Components.ParseComponent(Advance(c), pool).value.value,
        ComponentLoop(Components.ParseComponent(Advance(c), pool).value.rest, pool))
  {
  }

  lemma ComponentsStep(c: Cursor, pool: Assets.Pool)
    ensures ReadList(c, pool).Fail? ==> ReadComponents(c, pool) == Fail(ReadList(c, pool).error)
    ensures ReadList(c, pool).Ok? && CloseTwice(ReadList(c, pool).value.rest).Fail? ==>
      ReadComponents(c, pool) == Fail(CloseTwice(ReadList(c, pool).value.rest).error)
    ensures ReadList(c, pool).Ok? && CloseTwice(ReadList(c, pool).value.rest).Ok? ==>
      ReadComponents(c, pool) == Ok(Parsed(ReadList(c, pool).value.value, CloseTwice(ReadList(c, pool).value.rest).value))
  {
  }

  lemma BodyListStep(c: Cursor, pool: Assets.Pool, g0: GameObject)
    requires g0.components == [] && !AtEnd(c) && c.bytes[c.offset] == ','
    ensures ReadComponents(Advance(c), pool).Fail? ==>
      ReadBody(c, pool, g0) == Fail(ReadComponents(Advance(c), pool).error)
    ensures ReadComponents(Advance(c), pool).Ok? ==>
      ReadBody(c, pool, g0) ==
        Ok(Parsed(g0.(components := ReadComponents(Advance(c), pool).value.value), ReadComponents(Advance(c), pool).value.rest))
  {
  }
}
