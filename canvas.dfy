/**
 * The part of the fabric canvas the editor relies on, together with the two
 * history hooks that scripts/main.js attaches to it (main.js:31-34).
 *
 * Objects are identified by the id the canvas hands out when they are added.
 * `store` keeps every object the canvas was ever given, the way the
 * JavaScript heap keeps an object alive while the editor still refers to it;
 * `order` lists the ids of the objects currently on the canvas, bottom to
 * top.  An object removed from the canvas therefore keeps its id and its
 * properties, as a detached fabric object does.
 */
module Fabric {
  import opened Wrappers
  import opened Scene
  import History

  /** The free-drawing brush: its width and colour. */
  datatype Brush = Brush(width: int, color: string)

  /** No id occurs twice. */
  predicate Distinct(s: seq<nat>) {
    forall i, j :: 0 <= i < j < |s| ==> s[i] != s[j]
  }

  /** `s` without the ids in `ids`, in the same order. */
  function Without(s: seq<nat>, ids: set<nat>): (r: seq<nat>)
    ensures forall x :: x in r <==> x in s && x !in ids
    ensures |r| <= |s|
    ensures Distinct(s) ==> Distinct(r)
  {
    if s == [] then []
    else
      assert forall x :: x in s[1..] ==> x in s;
      (if s[0] in ids then [] else [s[0]]) + Without(s[1..], ids)
  }

  /** Removing two sets of ids one after the other removes their union. */
  lemma {:induction false} WithoutWithout(s: seq<nat>, a: set<nat>, b: set<nat>)
    ensures Without(Without(s, a), b) == Without(s, a + b)
  {
    if s != [] {
      var t := Without(s[1..], a);
      WithoutWithout(s[1..], a, b);
      if s[0] in a {
        assert Without(s, a) == t;
        assert Without(s, a + b) == Without(s[1..], a + b);
      } else {
        var u := [s[0]] + t;
        assert Without(s, a) == u;
        assert u[1..] == t;
        assert Without(u, b) == (if s[0] in b then [] else [s[0]]) + Without(t, b);
        assert Without(s, a + b) == (if s[0] in b then [] else [s[0]]) + Without(s[1..], a + b);
      }
    }
  }

  /** Removing ids that do not occur changes nothing. */
  lemma {:induction false} WithoutAbsent(s: seq<nat>, ids: set<nat>)
    requires forall x :: x in s ==> x !in ids
    ensures Without(s, ids) == s
  {
    if s != [] {
      var t := s[1..];
      forall x | x in t
        ensures x !in ids
      {
        assert x in s;
      }
      WithoutAbsent(t, ids);
      assert s[0] in s;
      calc {
        Without(s, ids);
        [s[0]] + Without(t, ids);
        [s[0]] + t;
        s;
      }
    }
  }

  /** The ids occurring in `s`. */
  function SetOf(s: seq<nat>): set<nat> {
    set x | x in s
  }

  /** The objects named by `order`, looked up in `store`. */
  function SceneOf(store: map<nat, Obj>, order: seq<nat>): (scene: seq<Obj>)
    requires forall i :: 0 <= i < |order| ==> order[i] in store
    ensures |scene| == |order|
    ensures forall i :: 0 <= i < |order| ==> scene[i] == store[order[i]]
  {
    seq(|order|, i requires 0 <= i < |order| => store[order[i]])
  }

  /** `store` with `f` applied to the objects whose ids are in `ids`. */
  function Mapped(store: map<nat, Obj>, ids: seq<nat>, f: Obj -> Obj): (r: map<nat, Obj>)
    ensures r.Keys == store.Keys
    ensures forall id :: id in store ==> r[id] == (if id in ids then f(store[id]) else store[id])
  {
    map id | id in store :: if id in ids then f(store[id]) else store[id]
  }

  /** `f` applied to each object of a scene. */
  function MapScene(scene: seq<Obj>, f: Obj -> Obj): (r: seq<Obj>)
    ensures |r| == |scene| && forall i :: 0 <= i < |scene| ==> r[i] == f(scene[i])
  {
    seq(|scene|, i requires 0 <= i < |scene| => f(scene[i]))
  }

  /** The `n` consecutive ids from `a`. */
  function Range(a: nat, n: nat): (r: seq<nat>)
    ensures |r| == n && forall k :: 0 <= k < n ==> r[k] == a + k
  {
    seq(n, k requires 0 <= k < n => a + k)
  }

  lemma RangeSnoc(a: nat, n: nat)
    ensures Range(a, n + 1) == Range(a, n) + [a + n]
  {
  }

  /** The snapshots the `object:added` hook pushes while `objs` are added, one by one, to a canvas showing `scene`. */
  function AddedSnapshots(scene: seq<Obj>, objs: seq<Obj>): (r: seq<Snapshot>)
    ensures |r| == |objs|
  {
    seq(|objs|, k requires 0 <= k < |objs| => Serialize(scene + objs[..k + 1]))
  }

  /** Adding one more object pushes one more snapshot: the scene with every object added so far. */
  lemma AddedSnapshotsSnoc(scene: seq<Obj>, objs: seq<Obj>, o: Obj)
    ensures AddedSnapshots(scene, objs + [o]) == AddedSnapshots(scene, objs) + [Serialize(scene + objs + [o])]
  {
    var l, r := AddedSnapshots(scene, objs + [o]), AddedSnapshots(scene, objs) + [Serialize(scene + objs + [o])];
    forall k | 0 <= k < |l| ensures l[k] == r[k] {
      if k < |objs| {
        assert (objs + [o])[..k + 1] == objs[..k + 1];
      } else {
        assert (objs + [o])[..k + 1] == objs + [o];
        assert scene + (objs + [o]) == scene + objs + [o];
      }
    }
  }

  /** The fabric canvas of the editor, with the `object:added` and `object:modified` history hooks of main.js:31-34. */
  class Canvas {
    var store: map<nat, Obj>
    var order: seq<nat>
    var nextId: nat
    var width: real
    var height: real
    var isDrawingMode: bool
    var selection: bool
    var brush: Option<Brush>
    const history: History.HistoryManager<Snapshot>

    /** Every object on the canvas is known to the store. */
    predicate OrderInStore()
      reads this
    {
      forall id :: id in order ==> id in store
    }

    /** `canvas.getObjects()`: the objects on the canvas, bottom to top. */
    function Objects(): seq<Obj>
      reads this
      requires OrderInStore()
    {
      SceneOf(store, order)
    }

    ghost predicate Valid()
      reads this, history
    {
      history.Valid() && OrderInStore() && Distinct(order) &&
      forall id :: id in store ==> id < nextId
    }

    /** `new fabric.Canvas(...)` followed by the hook registration of `initCanvas` (main.js:15-34). */
    constructor (history: History.HistoryManager<Snapshot>)
      requires history.Valid()
      ensures Valid() && this.history == history
      ensures store == map[] && order == [] && nextId == 0
      ensures width == 0.0 && height == 0.0 && !isDrawingMode && selection && brush == None
    {
      this.history := history;
      store := map[];
      order := [];
      nextId := 0;
      width := 0.0;
      height := 0.0;
      isDrawingMode := false;
      selection := true;
      brush := None;
    }

    /**
     * `canvas.add(o)`, which fires `object:added`: the main.js hook then
     * pushes the serialized scene unless the object is marked internal
     * (main.js:32-34).
     */
    method Add(o: Obj) returns (id: nat)
      requires Valid()
      modifies this`store, this`order, this`nextId, history
      ensures Valid()
      ensures id == old(nextId) && id !in old(store) && nextId == id + 1
      ensures store == old(store)[id := o] && order == old(order) + [id]
      ensures Objects() == old(Objects()) + [o]
      ensures history.Model() ==
                if o.isInternal then old(history.Model())
                else History.Pushed(old(history.Model()), Serialize(Objects()))
    {
      ghost var before := Objects();
      id := nextId;
      store := store[id := o];
      order := order + [id];
      nextId := nextId + 1;
      assert forall i :: 0 <= i < |before| ==> order[i] != id && Objects()[i] == before[i];
      assert Objects() == before + [o];
      if !o.isInternal {
        history.Push(Serialize(Objects()));
      }
    }

    /**
     * One step of `AddEach`: the addition of `objs[i]` after `objs[..i]`
     * have been added to a canvas that showed `scene` and had history `h`.
     */
    method AddNext(objs: seq<Obj>, i: nat, ghost scene: seq<Obj>, ghost h: History.State<Snapshot>) returns (id: nat)
      requires Valid() && i < |objs| && !objs[i].isInternal && History.Invariant(h)
      requires Objects() == scene + objs[..i]
      requires history.Model() == History.PushAll(h, AddedSnapshots(scene, objs[..i]))
      modifies this`store, this`order, this`nextId, history
      ensures Valid()
      ensures id == old(nextId) && nextId == id + 1 && order == old(order) + [id]
      ensures Objects() == scene + objs[..i + 1]
      ensures history.Model() == History.PushAll(h, AddedSnapshots(scene, objs[..i + 1]))
    {
      ghost var done := objs[..i];
      var o := objs[i];
      assert objs[..i + 1] == done + [o];
      AddedSnapshotsSnoc(scene, done, o);
      History.PushAllSnoc(h, AddedSnapshots(scene, done), Serialize(scene + done + [o]));
      assert scene + (done + [o]) == scene + done + [o];
      id := Add(o);
    }

    /** `objs.forEach(o => canvas.add(o))`: each object is added in turn, under consecutive fresh ids. */
    method AddEach(objs: seq<Obj>) returns (ids: seq<nat>)
      requires Valid() && forall o :: o in objs ==> !o.isInternal
      modifies this`store, this`order, this`nextId, history
      ensures Valid()
      ensures ids == Range(old(nextId), |objs|) && nextId == old(nextId) + |objs| && order == old(order) + ids
      ensures Objects() == old(Objects()) + objs
      ensures history.Model() == History.PushAll(old(history.Model()), AddedSnapshots(old(Objects()), objs))
    {
      var n := nextId;
      ghost var scene0, order0, h0 := Objects(), order, history.Model();
      assert objs[..0] == [] && scene0 + [] == scene0 && order0 + Range(n, 0) == order0;
      var i := 0;
      while i < |objs|
        invariant 0 <= i <= |objs| && Valid()
        invariant Objects() == scene0 + objs[..i] && nextId == n + i && order == order0 + Range(n, i)
        invariant history.Model() == History.PushAll(h0, AddedSnapshots(scene0, objs[..i]))
      {
        assert objs[i] in objs;
        RangeSnoc(n, i);
        var _ := AddNext(objs, i, scene0, h0);
        i := i + 1;
      }
      assert objs[..i] == objs;
      ids := Range(n, |objs|);
    }

    /** `canvas.remove(o)`: the object leaves the canvas and keeps its properties. */
    method Remove(id: nat)
      requires Valid()
      modifies this`order
      ensures Valid() && order == Without(old(order), {id})
    {
      order := Without(order, {id});
    }

    /** `ids.forEach(o => canvas.remove(o))`: each listed object leaves the canvas, in turn. */
    method RemoveEach(ids: seq<nat>)
      requires Valid()
      modifies this`order
      ensures Valid() && order == Without(old(order), SetOf(ids))
    {
      WithoutAbsent(order, {});
      assert SetOf(ids[..0]) == {};
      var i := 0;
      while i < |ids|
        invariant 0 <= i <= |ids|
        invariant Valid() && order == Without(old(order), SetOf(ids[..i]))
      {
        WithoutWithout(old(order), SetOf(ids[..i]), {ids[i]});
        assert SetOf(ids[..i + 1]) == SetOf(ids[..i]) + {ids[i]} by {
          assert ids[..i + 1] == ids[..i] + [ids[i]];
        }
        Remove(ids[i]);
        i := i + 1;
      }
      assert ids[..i] == ids;
    }

    /** `canvas.clear()`: no object is left on the canvas. */
    method Clear()
      requires Valid()
      modifies this`order
      ensures Valid() && order == []
    {
      order := [];
    }

    /** `canvas.setDimensions({width, height})`. */
    method SetDimensions(w: real, h: real)
      requires Valid()
      modifies this`width, this`height
      ensures Valid() && width == w && height == h
    {
      width := w;
      height := h;
    }

    /** `o.set({...})` on an object the canvas knows. */
    method Set(id: nat, o: Obj)
      requires Valid() && id in store
      modifies this`store
      ensures Valid() && store == old(store)[id := o]
    {
      store := store[id := o];
    }

    /** `canvas.forEachObject(obj => ...)`, for a callback that rewrites each object as `f` does. */
    method ForEachObject(f: Obj -> Obj)
      requires Valid()
      modifies this`store
      ensures Valid()
      ensures store == Mapped(old(store), order, f)
      ensures Objects() == MapScene(old(Objects()), f)
    {
      ghost var store0 := store;
      var i := 0;
      while i < |order|
        invariant 0 <= i <= |order|
        invariant store == Mapped(store0, order[..i], f)
        invariant Valid()
      {
        var id := order[i];
        assert id !in order[..i];
        store := store[id := f(store[id])];
        assert order[..i + 1] == order[..i] + [id];
        assert store == Mapped(store0, order[..i + 1], f);
        i := i + 1;
      }
      assert order[..i] == order;
    }

    /** The `object:modified` hook (main.js:31): always pushes the serialized scene. */
    method ObjectModified()
      requires Valid()
      modifies history
      ensures Valid()
      ensures history.Model() == History.Pushed(old(history.Model()), Serialize(Objects()))
    {
      history.Push(Serialize(Objects()));
    }

    /**
     * `canvas.loadFromJSON(snapshot, ...)` as `loadState` uses it
     * (history.js:49): the canvas is emptied and a fresh copy of each
     * serialized object is added.  Each addition fires `object:added`, but
     * the restore flag is set, so none of them reaches the history.
     */
    method LoadFromJSON(s: Snapshot)
      requires Valid() && history.isProcessing
      modifies this`store, this`order, this`nextId, history
      ensures Valid() && Objects() == s
      ensures history.Model() == old(history.Model())
    {
      Clear();
      var i := 0;
      while i < |s|
        invariant 0 <= i <= |s|
        invariant Valid() && Objects() == s[..i]
        invariant history.Model() == old(history.Model())
      {
        var _ := Add(s[i]);
        assert s[..i + 1] == s[..i] + [s[i]];
        i := i + 1;
      }
      assert s[..i] == s;
    }
  }
}
