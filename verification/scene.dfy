/** A scene (src/engine/Scene.java with the fields LevelScene and
    LevelEditorScene add): the camera, the object list, the renderer, and
    the objects a scene holds outside its list. Objects are values, so the
    renderer and the component updates name them by `Ref` and read them
    from the scene when they need them. */
module Scenes {
  import opened Results
  import opened Text
  import opened Vectors
  import opened Transforms
  import opened Components
  import opened GameObjects
  import Bounds
  import Rendering

  /** The level's player (held by LevelScene, never in the list), the
      object at a position of the list, or the editor's mouse cursor. */
  datatype Ref = PlayerRef | ObjectRef(index: nat) | CursorRef

  datatype World = World(name: string, camera: Vector2, objects: seq<GameObject>,
                         renderer: Rendering.Renderer<Ref>, player: Option<GameObject>,
                         playerBounds: Option<Bounds.BoxBounds>, cursor: Option<GameObject>,
                         inEditor: bool)

  /** Scene's constructor: a camera at the origin, no objects, an empty
      renderer; the fields the subclasses fill in init are still null. */
  function NewScene(name: string, inEditor: bool): (w: World)
    ensures w.name == name && w.camera == Origin && w.objects == [] && w.renderer.buckets == map[]
    ensures w.player.None? && w.playerBounds.None? && w.cursor.None? && w.inEditor == inEditor
  {
    World(name, Origin, [], Rendering.Empty(), None, None, None, inEditor)
  }

  /** The object a reference names, if there is one. */
  function Get(w: World, r: Ref): Option<GameObject> {
    match r
    case PlayerRef => w.player
    case CursorRef => w.cursor
    case ObjectRef(i) => if i < |w.objects| then Some(w.objects[i]) else None
  }

  /** The scene with the object named by `r` replaced by `g`. */
  function Put(w: World, r: Ref, g: GameObject): (v: World)
    requires Get(w, r).Some?
    ensures Get(v, r) == Some(g)
    ensures forall o :: o != r ==> Get(v, o) == Get(w, o)
    ensures |v.objects| == |w.objects|
    ensures v.name == w.name && v.camera == w.camera && v.renderer == w.renderer
    ensures v.playerBounds == w.playerBounds && v.inEditor == w.inEditor
    ensures v.player.Some? == w.player.Some? && v.cursor.Some? == w.cursor.Some?
  {
    match r
    case PlayerRef => w.(player := Some(g))
    case CursorRef => w.(cursor := Some(g))
    case ObjectRef(i) => w.(objects := w.objects[i := g])
  }

  /** addGameObject: the object goes last in the list and is submitted at its
      zIndex under its new position. Component.start only matters to
      BoxBounds, which caches its center; the model recomputes the center at
      every use, so start changes nothing here. */
  function AddGameObject(w: World, g: GameObject): (v: World)
    ensures v.objects == w.objects + [g]
    ensures v.renderer == Rendering.Submit(w.renderer, g.zIndex, ObjectRef(|w.objects|))
    ensures v.name == w.name && v.camera == w.camera && v.player == w.player && v.cursor == w.cursor
    ensures v.playerBounds == w.playerBounds && v.inEditor == w.inEditor
  {
    w.(objects := w.objects + [g], renderer := Rendering.Submit(w.renderer, g.zIndex, ObjectRef(|w.objects|)))
  }

  /** The objects of `gs` added one after the other. */
  function AddAll(w: World, gs: seq<GameObject>): World
    decreases |gs|
  {
    if gs == [] then w else AddAll(AddGameObject(w, gs[0]), gs[1..])
  }

  /** What adding `gs` to a list of `n` objects submits: each object at its
      zIndex under the position it takes. */
  function Submissions(n: nat, gs: seq<GameObject>): (ps: seq<(Int32, Ref)>)
    ensures |ps| == |gs|
    ensures forall i :: 0 <= i < |gs| ==> ps[i] == (gs[i].zIndex, ObjectRef(n + i))
  {
    seq(|gs|, i requires 0 <= i < |gs| => (gs[i].zIndex, ObjectRef(n + i)))
  }

  /** Adding a run of objects appends them in order and submits each of them
      under its position, in the same order; nothing else changes. */
  lemma {:induction false} AddAllAppends(w: World, gs: seq<GameObject>)
    ensures AddAll(w, gs).objects == w.objects + gs
    ensures AddAll(w, gs).renderer == Rendering.SubmitAll(w.renderer, Submissions(|w.objects|, gs))
    ensures AddAll(w, gs).camera == w.camera && AddAll(w, gs).player == w.player
    ensures AddAll(w, gs).cursor == w.cursor && AddAll(w, gs).inEditor == w.inEditor
    ensures AddAll(w, gs).playerBounds == w.playerBounds && AddAll(w, gs).name == w.name
    decreases |gs|
  {
    if gs != [] {
      var v := AddGameObject(w, gs[0]);
      AddAllAppends(v, gs[1..]);
      assert v.objects + gs[1..] == w.objects + gs;
      var ps := Submissions(|w.objects|, gs);
      assert ps[1..] == Submissions(|v.objects|, gs[1..]);
    }
  }

  /** Every name the renderer holds resolves to an object of the scene. */
  predicate Coherent(w: World) {
    forall z, i :: z in w.renderer.buckets && 0 <= i < |w.renderer.buckets[z]| ==>
      Get(w, w.renderer.buckets[z][i]).Some?
  }

  /** addGameObject keeps every submitted name resolvable. */
  lemma AddKeepsCoherent(w: World, g: GameObject)
    requires Coherent(w)
    ensures Coherent(AddGameObject(w, g))
  {
    var v := AddGameObject(w, g);
    forall z, i | z in v.renderer.buckets && 0 <= i < |v.renderer.buckets[z]|
      ensures Get(v, v.renderer.buckets[z][i]).Some?
    {
      var b := Rendering.Bucket(w.renderer, g.zIndex);
      if z == g.zIndex && i == |b| {
        assert v.renderer.buckets[z][i] == ObjectRef(|w.objects|);
      } else {
        assert v.renderer.buckets[z][i] == w.renderer.buckets[z][i];
        assert Get(w, w.renderer.buckets[z][i]).Some?;
      }
    }
  }

  /** Adding a run of objects keeps every submitted name resolvable. */
  lemma {:induction false} AddAllKeepsCoherent(w: World, gs: seq<GameObject>)
    requires Coherent(w)
    ensures Coherent(AddAll(w, gs))
    decreases |gs|
  {
    if gs != [] {
      AddKeepsCoherent(w, gs[0]);
      AddAllKeepsCoherent(AddGameObject(w, gs[0]), gs[1..]);
    }
  }

  /** What the draws of one render observe, in draw order: each object under
      the transform the renderer hands it. Names that resolve to nothing
      draw nothing. */
  function Frame(w: World, draws: seq<Ref>): (f: seq<(Ref, Transform)>)
    ensures |f| <= |draws|
    ensures (forall i :: 0 <= i < |draws| ==> Get(w, draws[i]).Some?) ==>
      |f| == |draws| &&
      forall i :: 0 <= i < |draws| ==>
        f[i] == (draws[i], Rendering.View(Get(w, draws[i]).value.transform, Get(w, draws[i]).value.isUi, w.camera))
  {
    if draws == [] then []
    else
      var rest := Frame(w, draws[1..]);
      match Get(w, draws[0])
      case Some(g) => [(draws[0], Rendering.View(g.transform, g.isUi, w.camera))] + rest
      case None => rest
  }

  /** Scene drawing: the renderer's order, each draw seeing its view of the
      object. The objects themselves come out as they went in
      (Rendering.RestoreIsExact). */
  method Draw(w: World) returns (f: seq<(Ref, Transform)>)
    requires Coherent(w)
    ensures |f| == |Rendering.DrawOrder(w.renderer.buckets)|
    ensures forall i :: 0 <= i < |f| ==> f[i].0 == Rendering.DrawOrder(w.renderer.buckets)[i]
    ensures forall i :: 0 <= i < |f| ==>
      (Get(w, f[i].0).Some? &&
       f[i].1 == Rendering.View(Get(w, f[i].0).value.transform, Get(w, f[i].0).value.isUi, w.camera))
  {
    var draws := Rendering.Render(w.renderer);
    DrawsResolve(w);
    f := Frame(w, draws);
  }

  lemma DrawsResolve(w: World)
    requires Coherent(w)
    ensures forall i :: 0 <= i < |Rendering.DrawOrder(w.renderer.buckets)| ==>
      Get(w, Rendering.DrawOrder(w.renderer.buckets)[i]).Some?
  {
    var d := Rendering.DrawOrder(w.renderer.buckets);
    forall i | 0 <= i < |d|
      ensures Get(w, d[i]).Some?
    {
      DrawnFromBucket(w.renderer.buckets, d[i]);
      var z, j :| z in w.renderer.buckets && 0 <= j < |w.renderer.buckets[z]| && w.renderer.buckets[z][j] == d[i];
      assert Get(w, w.renderer.buckets[z][j]).Some?;
    }
  }

  /** Whatever the renderer draws comes from one of its buckets. */
  lemma {:induction false} DrawnFromBucket(b: map<Int32, seq<Ref>>, h: Ref)
    requires h in Rendering.DrawOrder(b)
    ensures exists z, i :: z in b && 0 <= i < |b[z]| && b[z][i] == h
    decreases |b.Keys|
  {
    var m := Rendering.Least(b.Keys);
    assert b.Keys - {m} < b.Keys;
    var rest := b - {m};
    assert Rendering.DrawOrder(b) == b[m] + Rendering.DrawOrder(rest);
    if h in b[m] {
      var i :| 0 <= i < |b[m]| && b[m][i] == h;
    } else {
      DrawnFromBucket(rest, h);
      var z, i :| z in rest && 0 <= i < |rest[z]| && rest[z][i] == h;
      assert b[z][i] == h;
    }
  }
}
