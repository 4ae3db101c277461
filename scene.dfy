/**
 * The objects of the editor's scene, as the fabric canvas holds them, and the
 * serialized snapshot of a scene that the history keeps.
 */
module Scene {
  import opened Wrappers
  import opened Geometry

  /** One entry of an image's filter list (tools.js:558-576); the pixel effect is not modelled. */
  datatype Filter = Brightness(amount: real) | Contrast(amount: real) | Saturation(amount: real)

  /** The object types the editor creates: images, rectangles, circles, paths, static and editable text. */
  datatype Kind =
    | Image(filters: seq<Filter>)
    | Rect
    | Circle
    | Path
    | Text(text: string)
    | IText(text: string)

  /**
   * A fabric object: position, size, scale and rotation, the two
   * interactivity flags, and the two scaffolding flags.
   */
  datatype Obj = Obj(
    kind: Kind,
    left: real, top: real,
    width: real, height: real,
    scaleX: real, scaleY: real,
    angle: real,
    selectable: bool, evented: bool,
    excludeFromExport: bool, isInternal: bool)
  {
    /** Where the object sits on the canvas, ignoring rotation: its size times its scale (tools.js:100-103). */
    function Bounds(): Box {
      Box(left, top, width * scaleX, height * scaleY)
    }
  }

  /** A new object with fabric's defaults: unit scale, no rotation, interactive, exported. */
  function NewObject(kind: Kind, left: real, top: real, width: real, height: real): (o: Obj)
    ensures o.selectable && o.evented && !o.excludeFromExport && !o.isInternal
  {
    Obj(kind, left, top, width, height, 1.0, 1.0, 0.0, true, true, false, false)
  }

  /** The object with both interactivity flags set to `on` (tools.js:78-79 and tools.js:95-96). */
  function WithInteractivity(o: Obj, on: bool): Obj {
    o.(selectable := on, evented := on)
  }

  /** A serialized scene: what `canvas.toJSON()` keeps of the object list. */
  type Snapshot = seq<Obj>

  /**
   * The snapshot of a scene: its objects in order, without those marked
   * `excludeFromExport`, which fabric leaves out of its JSON.
   */
  function Serialize(scene: seq<Obj>): (s: Snapshot)
    ensures |s| <= |scene|
  {
    if scene == [] then []
    else
      var last := scene[|scene| - 1];
      Serialize(scene[..|scene| - 1]) + (if last.excludeFromExport then [] else [last])
  }

  /** The snapshot holds exactly the scene's exported objects. */
  lemma {:induction false} SerializeMembers(scene: seq<Obj>)
    ensures forall o :: o in Serialize(scene) <==> o in scene && !o.excludeFromExport
  {
    if scene != [] {
      var init := scene[..|scene| - 1];
      SerializeMembers(init);
      assert scene == init + [scene[|scene| - 1]];
    }
  }

  /** Serializing a scene extended by one object extends its snapshot by that object, unless it is excluded. */
  lemma SerializeAppend(scene: seq<Obj>, o: Obj)
    ensures Serialize(scene + [o]) == Serialize(scene) + (if o.excludeFromExport then [] else [o])
  {
    assert (scene + [o])[..|scene|] == scene;
  }

  /** Objects that are all left out of the JSON leave the snapshot as it was. */
  lemma {:induction false} SerializeExcluded(scene: seq<Obj>, xs: seq<Obj>)
    requires forall o :: o in xs ==> o.excludeFromExport
    ensures Serialize(scene + xs) == Serialize(scene)
    decreases |xs|
  {
    if xs != [] {
      var init := xs[..|xs| - 1];
      assert forall o :: o in init ==> o in xs;
      assert scene + xs == (scene + init) + [xs[|xs| - 1]];
      SerializeAppend(scene + init, xs[|xs| - 1]);
      SerializeExcluded(scene, init);
    } else {
      assert scene + xs == scene;
    }
  }

  /**
   * `objects.find(obj => obj.type === 'image')`: the position of the first
   * image of the scene, if there is one (tools.js:86, 348, 366, 551, 584).
   */
  function FirstImage(scene: seq<Obj>): (r: Option<nat>)
    ensures r.Some? ==> r.value < |scene| && scene[r.value].kind.Image? &&
                        forall j :: 0 <= j < r.value ==> !scene[j].kind.Image?
    ensures r.None? ==> forall j :: 0 <= j < |scene| ==> !scene[j].kind.Image?
  {
    if scene == [] then None
    else if scene[0].kind.Image? then Some(0)
    else match FirstImage(scene[1..])
      case None => None
      case Some(k) => Some(k + 1)
  }
}
