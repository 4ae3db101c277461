/**
 * The tool manager of scripts/tools.js: the tool switch, the crop session
 * with its mask overlays and size label, grid slicing, filters, resizing and
 * rotation.
 *
 * The first half of the module gives the values the tools compute (the
 * objects they create, what the crop handler writes, the slice list, the
 * filter list, the resize and rotate arithmetic) with the laws they obey;
 * the class `ToolManager` is the mutable `toolManager` object, whose methods
 * act on a `Fabric.Canvas` as the source does and are specified by those
 * values.
 */
module Tools {
  import opened Wrappers
  import opened Geometry
  import opened Strings
  import opened Scene
  import opened Fabric
  import History

  /** The tool names `activate` distinguishes (tools.js:15-54); any other name selects no tool-specific action. */
  datatype Tool =
    | Select | Mosaic | GridSlice | Text | Crop | Resize | Rotate | Filter
    | ImageWatermark | Rect | Circle | Arrow
    | Other(name: string)

  /** The options of the crop-ratio selector (tools.js:609-612). */
  datatype Ratio = Square | FourThree | SixteenNine | Free

  /**
   * What the `updateCropOverlays` closure captured when `initCrop` built it
   * (tools.js:100-103, 113-158): the image rectangle and the four overlays.
   * The frame and the label it reads from the manager's fields when it runs.
   */
  datatype CropHandler = CropHandler(image: Box, top: nat, bottom: nat, left: nat, right: nat)

  /** One entry of the slice archive: its file name and the canvas region it is cut from. */
  datatype Slice = Slice(name: string, region: Box)

  /** The outcome of `applyGridSlice`: rejected input, no image to slice, or the slice list. */
  datatype SliceResult = InvalidInput | NoImage | Slices(archive: string, entries: seq<Slice>)

  // ---------------------------------------------------------------------
  // Objects the tools create
  // ---------------------------------------------------------------------

  /** The `resetCanvasState` callback: the object becomes selectable and evented (tools.js:77-80). */
  function Unlock(o: Obj): (r: Obj)
    ensures r.selectable && r.evented
  {
    WithInteractivity(o, true)
  }

  /** The `initCrop` callback: the object can be neither selected nor hit (tools.js:94-97). */
  function Lock(o: Obj): (r: Obj)
    ensures !r.selectable && !r.evented
  {
    WithInteractivity(o, false)
  }

  /** A mask overlay covering `b`: not interactive, left out of snapshots (tools.js:113-158). */
  function Overlay(b: Box): (o: Obj)
    ensures o.kind == Kind.Rect && o.Bounds() == b
    ensures o.excludeFromExport && !o.selectable && !o.evented && !o.isInternal
  {
    Obj(Kind.Rect, b.left, b.top, b.width, b.height, 1.0, 1.0, 0.0, false, false, true, false)
  }

  /** The crop frame over `f`: an interactive rectangle that snapshots do include (tools.js:164-182). */
  function Frame(f: Box): (o: Obj)
    ensures o.kind == Kind.Rect && o.Bounds() == f
    ensures !o.excludeFromExport && o.selectable && o.evented && !o.isInternal
  {
    NewObject(Kind.Rect, f.left, f.top, f.width, f.height)
  }

  /** The text of the size label: the rounded width and height (tools.js:185, 263). */
  function LabelText(w: real, h: real): (s: string)
    ensures IntToString(Round(w)) + " x " <= s
    ensures |IntToString(Round(h))| <= |s| && s[|s| - |IntToString(Round(h))|..] == IntToString(Round(h))
  {
    IntToString(Round(w)) + " x " + IntToString(Round(h))
  }

  /**
   * The size label under the frame `f`, centred on it horizontally
   * (tools.js:185-196).  Its own size follows from the font and is not
   * modelled.
   */
  function SizeLabel(f: Box): (o: Obj)
    ensures o.kind == Kind.Text(LabelText(f.width, f.height))
    ensures o.left == f.left + f.width / 2.0 && o.top == f.Bottom() + 10.0
    ensures o.excludeFromExport && !o.selectable && !o.evented && !o.isInternal
  {
    Obj(Kind.Text(LabelText(f.width, f.height)), f.left + f.width / 2.0, f.top + f.height + 10.0,
        0.0, 0.0, 1.0, 1.0, 0.0, false, false, true, false)
  }

  /** `addText` (tools.js:432-442): an editable text at (100, 100); its size follows from the font. */
  function NewText(): (o: Obj)
    ensures o.kind == Kind.IText("输入文字...") && o.left == 100.0 && o.top == 100.0
    ensures o.selectable && o.evented && !o.excludeFromExport && !o.isInternal
  {
    NewObject(Kind.IText("输入文字..."), 100.0, 100.0, 0.0, 0.0)
  }

  /** `addRect` (tools.js:506-519): a 100 x 100 rectangle at (100, 100). */
  function NewRect(): (o: Obj)
    ensures o.kind == Kind.Rect && o.Bounds() == Box(100.0, 100.0, 100.0, 100.0)
    ensures o.selectable && o.evented && !o.excludeFromExport && !o.isInternal
  {
    NewObject(Kind.Rect, 100.0, 100.0, 100.0, 100.0)
  }

  /** `addCircle` (tools.js:521-533): a circle of radius 50 at (100, 100), hence 100 x 100. */
  function NewCircle(): (o: Obj)
    ensures o.kind == Kind.Circle && o.Bounds() == Box(100.0, 100.0, 100.0, 100.0)
    ensures o.selectable && o.evented && !o.excludeFromExport && !o.isInternal
  {
    NewObject(Kind.Circle, 100.0, 100.0, 100.0, 100.0)
  }

  /** `addArrow` (tools.js:535-547): the arrow path spans 50 x 20 and is drawn at scale 2. */
  function NewArrow(): (o: Obj)
    ensures o.kind == Kind.Path && o.Bounds() == Box(100.0, 100.0, 100.0, 40.0)
    ensures o.selectable && o.evented && !o.excludeFromExport && !o.isInternal
  {
    NewObject(Kind.Path, 100.0, 100.0, 50.0, 20.0).(scaleX := 2.0, scaleY := 2.0)
  }

  /** The object a tool adds when it is activated, if any. */
  function ToolObject(t: Tool): (r: seq<Obj>)
    ensures |r| <= 1
    ensures forall o :: o in r ==> o.selectable && o.evented && !o.isInternal && !o.excludeFromExport
  {
    match t
    case Text => [NewText()]
    case Rect => [NewRect()]
    case Circle => [NewCircle()]
    case Arrow => [NewArrow()]
    case _ => []
  }

  /** The brush `initMosaic` installs (tools.js:425-427). */
  const MosaicBrush := Brush(20, "#333333")

  /** The image `applyCrop` loads back: the cut-out region as a new image at the origin (tools.js:295-307). */
  function CroppedImage(region: Box): (o: Obj)
    ensures o.kind.Image? && o.Bounds() == Box(0.0, 0.0, region.width, region.height)
  {
    NewObject(Kind.Image([]), 0.0, 0.0, region.width, region.height)
  }

  // ---------------------------------------------------------------------
  // Crop overlay update
  // ---------------------------------------------------------------------

  /** `o.set({left, top, width, height})` with the rectangle `b`. */
  function Placed(o: Obj, b: Box): Obj {
    o.(left := b.left, top := b.top, width := b.width, height := b.height)
  }

  /** `label.set({text, left, top})` for the frame `f` (tools.js:262-266). */
  function Relabelled(o: Obj, f: Box): Obj {
    o.(kind := Kind.Text(LabelText(f.width, f.height)), left := f.left + f.width / 2.0, top := f.top + f.height + 10.0)
  }

  /** The ids the crop session owns: the four overlays, the frame and the label. */
  function SessionIds(h: CropHandler, frameId: nat, labelId: nat): seq<nat> {
    [h.top, h.bottom, h.left, h.right, frameId, labelId]
  }

  /** The session's objects are all known and pairwise distinct. */
  predicate SessionIn(store: map<nat, Obj>, h: CropHandler, frameId: nat, labelId: nat) {
    Distinct(SessionIds(h, frameId, labelId)) && forall id :: id in SessionIds(h, frameId, labelId) ==> id in store
  }

  /** The pairwise distinctness of the session ids, spelled out. */
  lemma SessionDistinct(store: map<nat, Obj>, h: CropHandler, frameId: nat, labelId: nat)
    requires SessionIn(store, h, frameId, labelId)
    ensures h.top != h.bottom && h.top != h.left && h.top != h.right && h.top != frameId && h.top != labelId
    ensures h.bottom != h.left && h.bottom != h.right && h.bottom != frameId && h.bottom != labelId
    ensures h.left != h.right && h.left != frameId && h.left != labelId
    ensures h.right != frameId && h.right != labelId && frameId != labelId
    ensures h.top in store && h.bottom in store && h.left in store && h.right in store
    ensures frameId in store && labelId in store
  {
    var s := SessionIds(h, frameId, labelId);
    assert s[0] != s[1] && s[0] != s[2] && s[0] != s[3] && s[0] != s[4] && s[0] != s[5];
    assert s[1] != s[2] && s[1] != s[3] && s[1] != s[4] && s[1] != s[5];
    assert s[2] != s[3] && s[2] != s[4] && s[2] != s[5];
    assert s[3] != s[4] && s[3] != s[5] && s[4] != s[5];
    assert s[0] in s && s[1] in s && s[2] in s && s[3] in s && s[4] in s && s[5] in s;
  }

  /** Neither scale of the object is stretched. */
  predicate UnitScale(o: Obj) {
    o.scaleX == 1.0 && o.scaleY == 1.0
  }

  /**
   * The store after `updateCropOverlays` has run (tools.js:203-269): the
   * frame is moved by the clamp, each overlay is set to its band around the
   * moved frame, and the label is rewritten under it.
   */
  function UpdatedStore(store: map<nat, Obj>, h: CropHandler, frameId: nat, labelId: nat): (r: map<nat, Obj>)
    requires SessionIn(store, h, frameId, labelId)
    ensures r.Keys == store.Keys
    ensures forall id :: id in store && id !in SessionIds(h, frameId, labelId) ==> r[id] == store[id]
  {
    SessionDistinct(store, h, frameId, labelId);
    var rect := store[frameId];
    var f := Clamped(h.image, rect.Bounds());
    var bands := MaskBands(h.image, f);
    store[frameId := rect.(left := f.left, top := f.top)]
         [h.top := Placed(store[h.top], bands[0])]
         [h.bottom := Placed(store[h.bottom], bands[1])]
         [h.left := Placed(store[h.left], bands[2])]
         [h.right := Placed(store[h.right], bands[3])]
         [labelId := Relabelled(store[labelId], f)]
  }

  /** `UpdatedStore` as the sequence of writes the handler makes, given the values it writes. */
  lemma UpdatedStoreSteps(store: map<nat, Obj>, h: CropHandler, frameId: nat, labelId: nat,
                          rect: Obj, b0: Box, b1: Box, b2: Box, b3: Box, lbl: Obj)
    requires SessionIn(store, h, frameId, labelId)
    requires var f := Clamped(h.image, store[frameId].Bounds());
             rect == store[frameId].(left := f.left, top := f.top) &&
             [b0, b1, b2, b3] == MaskBands(h.image, f) && lbl == Relabelled(store[labelId], f)
    ensures UpdatedStore(store, h, frameId, labelId) ==
              store[frameId := rect][h.top := Placed(store[h.top], b0)][h.bottom := Placed(store[h.bottom], b1)]
                   [h.left := Placed(store[h.left], b2)][h.right := Placed(store[h.right], b3)][labelId := lbl]
  {
  }

  /** Which object the update writes where. */
  lemma {:induction false} UpdatedEntries(store: map<nat, Obj>, h: CropHandler, frameId: nat, labelId: nat)
    requires SessionIn(store, h, frameId, labelId)
    ensures var r := UpdatedStore(store, h, frameId, labelId);
            var rect := store[frameId];
            var f := Clamped(h.image, rect.Bounds());
            var bands := MaskBands(h.image, f);
            r[frameId] == rect.(left := f.left, top := f.top) &&
            r[h.top] == Placed(store[h.top], bands[0]) && r[h.bottom] == Placed(store[h.bottom], bands[1]) &&
            r[h.left] == Placed(store[h.left], bands[2]) && r[h.right] == Placed(store[h.right], bands[3]) &&
            r[labelId] == Relabelled(store[labelId], f) &&
            forall id :: id in store && id !in SessionIds(h, frameId, labelId) ==> r[id] == store[id]
  {
    SessionDistinct(store, h, frameId, labelId);
  }

  /** The six objects `initCrop` adds around the image rectangle `img`: four overlays, the frame, the label (tools.js:113-199). */
  function CropObjects(img: Box): seq<Obj> {
    var f := InitialFrame(img);
    var bands := MaskBands(img, f);
    [Overlay(bands[0]), Overlay(bands[1]), Overlay(bands[2]), Overlay(bands[3]), Frame(f), SizeLabel(f)]
  }

  /** The first four of six consecutive ids are four consecutive ids. */
  lemma RangeSix(n: nat)
    ensures Range(n, 6)[..4] == Range(n, 4)
    ensures Range(n, 6) == [n, n + 1, n + 2, n + 3, n + 4, n + 5]
  {
  }

  /** The session ids of a crop started at id `n` are distinct and are the six new ids. */
  lemma CropSessionIds(img: Box, order0: seq<nat>, n: nat)
    ensures var ids := SessionIds(CropHandler(img, n, n + 1, n + 2, n + 3), n + 4, n + 5);
            Distinct(ids) && forall id :: id in ids ==> id in order0 + Range(n, 6)
  {
    var r := Range(n, 6);
    assert r[0] == n && r[1] == n + 1 && r[2] == n + 2 && r[3] == n + 3 && r[4] == n + 4 && r[5] == n + 5;
  }

  /**
   * The snapshots pushed while `initCrop` adds its six objects to the locked
   * scene: the overlays are left out of the JSON, so the first four pushes
   * repeat the scene as it was, and the label is left out too, so the last
   * two both hold the scene with the frame on top.
   */
  lemma {:induction false} CropEntrySnapshots(scene: seq<Obj>, img: Box)
    ensures var s0 := Serialize(scene);
            var s1 := s0 + [Frame(InitialFrame(img))];
            AddedSnapshots(scene, CropObjects(img)) == [s0, s0, s0, s0, s1, s1]
  {
    SixSnapshots(scene, CropObjects(img));
  }

  /** `AddedSnapshots` of four excluded objects, an exported one and an excluded one. */
  lemma {:induction false} SixSnapshots(scene: seq<Obj>, objs: seq<Obj>)
    requires |objs| == 6 && !objs[4].excludeFromExport && objs[5].excludeFromExport
    requires forall i :: 0 <= i < 4 ==> objs[i].excludeFromExport
    ensures var s0 := Serialize(scene);
            var s1 := s0 + [objs[4]];
            AddedSnapshots(scene, objs) == [s0, s0, s0, s0, s1, s1]
  {
    var s0 := Serialize(scene);
    var s1 := s0 + [objs[4]];
    var r := AddedSnapshots(scene, objs);
    forall k | 0 <= k < 4 ensures r[k] == s0 {
      assert forall o :: o in objs[..k + 1] ==> o.excludeFromExport;
      SerializeExcluded(scene, objs[..k + 1]);
    }
    assert forall o :: o in objs[..4] ==> o.excludeFromExport;
    SerializeExcluded(scene, objs[..4]);
    assert scene + objs[..5] == (scene + objs[..4]) + [objs[4]];
    SerializeAppend(scene + objs[..4], objs[4]);
    assert r[4] == s1;
    assert scene + objs[..6] == (scene + objs[..5]) + [objs[5]];
    SerializeAppend(scene + objs[..5], objs[5]);
    assert r[5] == s1;
  }

  /**
   * The history after entering a crop session: the six pushes are the top of
   * the stack, the first undo hands back the same scene with the frame (the
   * label push left a duplicate), and the second undo the scene without it.
   */
  lemma {:induction false} CropEntryHistory(h: History.State<Snapshot>, scene: seq<Obj>, img: Box)
    requires History.Invariant(h) && !h.processing
    ensures var s0 := Serialize(scene);
            var s1 := s0 + [Frame(InitialFrame(img))];
            var r := History.PushAll(h, AddedSnapshots(scene, CropObjects(img)));
            5 <= r.index == |r.stack| - 1 && r.stack[r.index - 5..] == [s0, s0, s0, s0, s1, s1] &&
            History.Undone(r).restore == Some(s1) &&
            History.Undone(History.Undone(r).state).restore == Some(s0)
  {
    var s0 := Serialize(scene);
    var s1 := s0 + [Frame(InitialFrame(img))];
    var xs := [s0, s0, s0, s0, s1, s1];
    CropEntrySnapshots(scene, img);
    History.PushAllTop(h, xs);
    var r := History.PushAll(h, xs);
    var top := r.stack[r.index - 5..];
    assert top == xs;
    assert r.stack[r.index - 1] == top[4] == s1;
    assert r.stack[r.index - 2] == top[3] == s0;
    var u := History.Undone(r);
    assert u.state == History.State(r.stack, r.index - 1, true);
  }

  /**
   * The crop scaffolding at entry, for an image of non-negative size: the
   * frame is the initial frame (four fifths of the image, centred), the
   * overlays cover the four bands around it with non-negative sizes, and
   * frame and overlays cover each point of the image exactly once and
   * nothing outside it.
   */
  lemma {:induction false} CropEntryLayout(img: Box, x: real, y: real)
    requires 0.0 <= img.width && 0.0 <= img.height
    ensures var objs := CropObjects(img);
            var f := InitialFrame(img);
            var boxes := [objs[4].Bounds(), objs[0].Bounds(), objs[1].Bounds(), objs[2].Bounds(), objs[3].Bounds()];
            objs[4].Bounds() == f && f.width == 0.8 * img.width && f.height == 0.8 * img.height &&
            f.left - img.left == img.Right() - f.Right() && f.top - img.top == img.Bottom() - f.Bottom() &&
            (forall i :: 0 <= i < 4 ==> objs[i].Bounds() == MaskBands(img, f)[i] &&
                                        0.0 <= objs[i].Bounds().width && 0.0 <= objs[i].Bounds().height) &&
            CoverCount(boxes, x, y) == (if img.Contains(x, y) then 1 else 0)
  {
    InitialFrameCentred(img);
    ScaffoldingTiles(img, InitialFrame(img), x, y);
  }

  /** The overlays around a frame within the image, and the frame itself, cover the image once. */
  lemma {:induction false} ScaffoldingTiles(img: Box, f: Box, x: real, y: real)
    requires f.Within(img)
    ensures var bands := MaskBands(img, f);
            var boxes := [Frame(f).Bounds(), Overlay(bands[0]).Bounds(), Overlay(bands[1]).Bounds(),
                          Overlay(bands[2]).Bounds(), Overlay(bands[3]).Bounds()];
            Frame(f).Bounds() == f &&
            (forall i :: 0 <= i < 4 ==> Overlay(bands[i]).Bounds() == bands[i] &&
                                        0.0 <= bands[i].width && 0.0 <= bands[i].height) &&
            CoverCount(boxes, x, y) == (if img.Contains(x, y) then 1 else 0)
  {
    var bands := MaskBands(img, f);
    MaskBandsNonNegative(img, f);
    assert bands[0] in bands && bands[1] in bands && bands[2] in bands && bands[3] in bands;
    MaskTilesImage(img, f, x, y);
    assert [f] + bands == [f, bands[0], bands[1], bands[2], bands[3]];
  }



  /**
   * The roles of the six objects: the label reads the frame's rounded size,
   * the overlays and the label are left out of snapshots and cannot be
   * selected or hit, the frame is an ordinary interactive object, and none
   * is marked internal, so each addition reaches the history.
   */
  lemma CropEntryRoles(img: Box)
    ensures var objs := CropObjects(img);
            var f := InitialFrame(img);
            objs[5].kind == Kind.Text(LabelText(f.width, f.height)) &&
            (forall i :: 0 <= i < 6 && i != 4 ==> objs[i].excludeFromExport && !objs[i].selectable && !objs[i].evented) &&
            !objs[4].excludeFromExport && objs[4].selectable && objs[4].evented &&
            (forall i :: 0 <= i < 6 ==> !objs[i].isInternal)
  {
  }

  /** Two pushes of the same snapshot as a run of pushes. */
  lemma PushTwice(h: History.State<Snapshot>, s: Snapshot)
    requires History.Invariant(h)
    ensures History.PushAll(h, [s, s]) == History.Pushed(History.Pushed(h, s), s)
  {
    var h1 := History.Pushed(h, s);
    assert [s, s][1..] == [s] && [s][1..] == [];
    assert History.PushAll(h, [s, s]) == History.PushAll(h1, [s]);
    assert History.PushAll(h1, [s]) == History.PushAll(History.Pushed(h1, s), []);
  }

  /** An unstretched object placed on a rectangle covers exactly that rectangle. */
  lemma PlacedBounds(o: Obj, b: Box)
    requires UnitScale(o)
    ensures UnitScale(Placed(o, b)) && Placed(o, b).Bounds() == b
  {
  }

  /** Moving an object keeps its size. */
  lemma MovedBounds(o: Obj, left: real, top: real)
    ensures o.(left := left, top := top).Bounds() == Box(left, top, o.Bounds().width, o.Bounds().height)
  {
  }

  /** The rectangles the update leaves the frame and the unit-scale overlays covering. */
  lemma {:induction false} UpdatedBoxes(store: map<nat, Obj>, h: CropHandler, frameId: nat, labelId: nat)
    requires SessionIn(store, h, frameId, labelId)
    requires UnitScale(store[h.top]) && UnitScale(store[h.bottom]) && UnitScale(store[h.left]) && UnitScale(store[h.right])
    ensures var r := UpdatedStore(store, h, frameId, labelId);
            var f := Clamped(h.image, store[frameId].Bounds());
            var bands := MaskBands(h.image, f);
            r[frameId] == store[frameId].(left := f.left, top := f.top) && r[frameId].Bounds() == f &&
            r[h.top].Bounds() == bands[0] && r[h.bottom].Bounds() == bands[1] &&
            r[h.left].Bounds() == bands[2] && r[h.right].Bounds() == bands[3] &&
            UnitScale(r[h.top]) && UnitScale(r[h.bottom]) && UnitScale(r[h.left]) && UnitScale(r[h.right]) &&
            r[labelId] == Relabelled(store[labelId], f) &&
            forall id :: id in store && id !in SessionIds(h, frameId, labelId) ==> r[id] == store[id]
  {
    var rect := store[frameId];
    var f := Clamped(h.image, rect.Bounds());
    var bands := MaskBands(h.image, f);
    UpdatedEntries(store, h, frameId, labelId);
    MovedBounds(rect, f.left, f.top);
    PlacedBounds(store[h.top], bands[0]);
    PlacedBounds(store[h.bottom], bands[1]);
    PlacedBounds(store[h.left], bands[2]);
    PlacedBounds(store[h.right], bands[3]);
  }

  /**
   * What the crop handler does to the frame and the label: the frame keeps
   * its size, scale and every property other than its origin, a frame
   * already inside the image is not moved, and the label reads the frame's
   * rounded size.
   */
  lemma {:induction false} UpdateMovesFrame(store: map<nat, Obj>, h: CropHandler, frameId: nat, labelId: nat)
    requires SessionIn(store, h, frameId, labelId)
    ensures var r := UpdatedStore(store, h, frameId, labelId);
            var f := r[frameId].Bounds();
            r[frameId] == store[frameId].(left := f.left, top := f.top) &&
            f.width == store[frameId].Bounds().width && f.height == store[frameId].Bounds().height &&
            (store[frameId].Bounds().Within(h.image) ==> r[frameId] == store[frameId]) &&
            r[labelId].kind == Kind.Text(LabelText(f.width, f.height))
  {
    var rect := store[frameId];
    var f := Clamped(h.image, rect.Bounds());
    UpdatedEntries(store, h, frameId, labelId);
    MovedBounds(rect, f.left, f.top);
    if rect.Bounds().Within(h.image) {
      ClampKeepsFrameWithin(h.image, rect.Bounds());
      assert rect.(left := f.left, top := f.top) == rect;
    }
  }

  /**
   * What the crop handler guarantees for a frame no larger than the image:
   * the frame ends up inside the image, the four overlays have non-negative
   * size, and frame and overlays together cover every point of the image
   * exactly once and nothing outside it.
   */
  lemma {:induction false} UpdateTilesImage(store: map<nat, Obj>, h: CropHandler, frameId: nat, labelId: nat, x: real, y: real)
    requires SessionIn(store, h, frameId, labelId)
    requires UnitScale(store[h.top]) && UnitScale(store[h.bottom]) && UnitScale(store[h.left]) && UnitScale(store[h.right])
    ensures var r := UpdatedStore(store, h, frameId, labelId);
            var f := r[frameId].Bounds();
            var boxes := [f, r[h.top].Bounds(), r[h.bottom].Bounds(), r[h.left].Bounds(), r[h.right].Bounds()];
            0.0 <= f.width <= h.image.width && 0.0 <= f.height <= h.image.height ==>
              f.Within(h.image) &&
              (forall b :: b in boxes[1..] ==> 0.0 <= b.width && 0.0 <= b.height) &&
              CoverCount(boxes, x, y) == (if h.image.Contains(x, y) then 1 else 0)
  {
    var rect := store[frameId];
    var f := Clamped(h.image, rect.Bounds());
    var bands := MaskBands(h.image, f);
    UpdatedBoxes(store, h, frameId, labelId);
    if 0.0 <= f.width <= h.image.width && 0.0 <= f.height <= h.image.height {
      ClampedWithin(h.image, rect.Bounds());
      MaskBandsNonNegative(h.image, f);
      MaskTilesImage(h.image, f, x, y);
      assert [f] + bands == [f, bands[0], bands[1], bands[2], bands[3]];
      assert [f, bands[0], bands[1], bands[2], bands[3]][1..] == bands;
    }
  }

  /** The label text determines the rounded width and height it was made from, and conversely. */
  lemma {:induction false} LabelTextInjective(w1: real, h1: real, w2: real, h2: real)
    ensures LabelText(w1, h1) == LabelText(w2, h2) <==> Round(w1) == Round(w2) && Round(h1) == Round(h2)
  {
    if LabelText(w1, h1) == LabelText(w2, h2) {
      LabelTextDetermines(w1, h1, w2, h2);
    }
  }

  /** Equal labels have equal rounded widths and equal rounded heights. */
  lemma {:induction false} LabelTextDetermines(w1: real, h1: real, w2: real, h2: real)
    requires LabelText(w1, h1) == LabelText(w2, h2)
    ensures Round(w1) == Round(w2) && Round(h1) == Round(h2)
  {
    var a1, a2 := IntToString(Round(w1)), IntToString(Round(w2));
    var b1, b2 := IntToString(Round(h1)), IntToString(Round(h2));
    IntToStringAvoids(Round(w1), ' ');
    IntToStringAvoids(Round(w2), ' ');
    assert a1 + [' '] + ("x " + b1) == a2 + [' '] + ("x " + b2) by {
      assert LabelText(w1, h1) == a1 + [' '] + ("x " + b1);
      assert LabelText(w2, h2) == a2 + [' '] + ("x " + b2);
    }
    SplitAtSeparator(a1, "x " + b1, a2, "x " + b2, ' ');
    assert b1 == ("x " + b1)[2..] && b2 == ("x " + b2)[2..];
    IntToStringInjective(Round(w1), Round(w2));
    IntToStringInjective(Round(h1), Round(h2));
  }

  // ---------------------------------------------------------------------
  // Aspect ratio
  // ---------------------------------------------------------------------

  /** The target height `setCropRatio` computes from the frame's effective width; none for 'free' (tools.js:323-335). */
  function RatioHeight(ratio: Ratio, w: real): (r: Option<real>)
    ensures r.None? <==> ratio == Free
  {
    match ratio
    case Square => Some(w)
    case FourThree => Some(w * 3.0 / 4.0)
    case SixteenNine => Some(w * 9.0 / 16.0)
    case Free => None
  }

  /** The frame after `cropRect.set({height: target / scaleY, scaleY: 1})` (tools.js:337-340). */
  function WithHeight(rect: Obj, target: real): (r: Obj)
    requires rect.scaleY != 0.0
    ensures r == rect.(height := r.height, scaleY := 1.0)
    ensures r.Bounds().width == rect.Bounds().width && r.Bounds().height == target / rect.scaleY
  {
    rect.(height := target / rect.scaleY, scaleY := 1.0)
  }

  /**
   * What `setCropRatio` does to the frame: origin and effective width stay,
   * the new effective height is the target divided by the old vertical
   * scale, so the frame takes the chosen proportion exactly when it had not
   * been stretched vertically (or the target is zero).
   */
  lemma {:induction false} RatioResult(rect: Obj, ratio: Ratio)
    requires rect.scaleY != 0.0 && ratio != Free
    ensures var w := rect.Bounds().width;
            var t := RatioHeight(ratio, w).value;
            var b := WithHeight(rect, t).Bounds();
            t == w * (match ratio case Square => 1.0 case FourThree => 0.75 case SixteenNine => 0.5625 case Free => 0.0) &&
            b.left == rect.left && b.top == rect.top && b.width == w &&
            b.height == t / rect.scaleY &&
            (b.height == t <==> rect.scaleY == 1.0 || t == 0.0)
  {
    var w := rect.Bounds().width;
    var t := RatioHeight(ratio, w).value;
    var b := WithHeight(rect, t).Bounds();
    assert b.height == t / rect.scaleY;
    if b.height == t && t != 0.0 {
      QuotientIsSelf(t, rect.scaleY);
    }
  }

  /** Dividing a non-zero number by `s` leaves it unchanged only for `s == 1`. */
  lemma QuotientIsSelf(t: real, s: real)
    requires s != 0.0 && t != 0.0 && t / s == t
    ensures s == 1.0
  {
    assert t == (t / s) * s;
    assert t * (s - 1.0) == 0.0;
  }

  // ---------------------------------------------------------------------
  // Grid slicing
  // ---------------------------------------------------------------------

  /** `slice_${r + 1}_${c + 1}.png` (tools.js:402). */
  function SliceName(r: nat, c: nat): (s: string)
    ensures "slice_" <= s && |s| >= 4 && s[|s| - 4..] == ".png"
  {
    "slice_" + NatToString(r + 1) + "_" + NatToString(c + 1) + ".png"
  }

  /** `sliced_images_${rows}x${cols}.zip` (tools.js:409). */
  function ArchiveName(rows: nat, cols: nat): (s: string)
    ensures "sliced_images_" <= s && |s| >= 4 && s[|s| - 4..] == ".zip"
  {
    "sliced_images_" + NatToString(rows) + "x" + NatToString(cols) + ".zip"
  }

  /** Different grid shapes give differently named archives. */
  lemma {:induction false} ArchiveNameInjective(r1: nat, c1: nat, r2: nat, c2: nat)
    ensures ArchiveName(r1, c1) == ArchiveName(r2, c2) <==> r1 == r2 && c1 == c2
  {
    if ArchiveName(r1, c1) == ArchiveName(r2, c2) {
      NumberPairInjective("sliced_images_", 'x', ".zip", r1, c1, r2, c2);
    }
  }

  /** Entry `k` of the row-major enumeration over `cols` columns. */
  function SliceAt(k: nat, cols: nat, sw: real, sh: real): (s: Slice)
    requires cols > 0
    ensures s.name == SliceName(k / cols, k % cols)
    ensures s.region.left == (k % cols) as real * sw && s.region.top == (k / cols) as real * sh
    ensures s.region.width == sw && s.region.height == sh
  {
    Slice(SliceName(k / cols, k % cols), Tile(k / cols, k % cols, sw, sh))
  }

  /** The `rows * cols` slices of the nested loops (tools.js:386-404), as an independent definition by index. */
  function SliceGrid(rows: nat, cols: nat, sw: real, sh: real): (g: seq<Slice>)
    requires cols > 0
    ensures |g| == rows * cols && forall k :: 0 <= k < |g| ==> g[k] == SliceAt(k, cols, sw, sh)
  {
    seq(rows * cols, k requires 0 <= k < rows * cols => SliceAt(k, cols, sw, sh))
  }

  /** The inner loop of the slicing (tools.js:387-403): the slices of row `i` appended, left to right. */
  method AppendSliceRow(entries: seq<Slice>, i: nat, cols: nat, sw: real, sh: real) returns (r: seq<Slice>)
    requires cols > 0 && |entries| == i * cols
    requires forall k :: 0 <= k < |entries| ==> entries[k] == SliceAt(k, cols, sw, sh)
    ensures |r| == |entries| + cols
    ensures forall k :: 0 <= k < |r| ==> r[k] == SliceAt(k, cols, sw, sh)
  {
    r := entries;
    var j := 0;
    while j < cols
      invariant 0 <= j <= cols && |r| == |entries| + j
      invariant forall k :: 0 <= k < |r| ==> r[k] == SliceAt(k, cols, sw, sh)
    {
      var left, top := j as real * sw, i as real * sh;
      var slice := Slice(SliceName(i, j), Box(left, top, sw, sh));
      SliceAtCell(i, j, cols, sw, sh);
      assert slice == SliceAt(|r|, cols, sw, sh);
      r := r + [slice];
      j := j + 1;
    }
  }

  /** Entry `i * cols + j` of the enumeration is the slice of row `i`, column `j`. */
  lemma SliceAtCell(i: nat, j: nat, cols: nat, sw: real, sh: real)
    requires j < cols
    ensures SliceAt(i * cols + j, cols, sw, sh) == Slice(SliceName(i, j), Tile(i, j, sw, sh))
  {
    DivModUnique(i * cols + j, cols, i, j);
  }

  /** Cell (r, c) of a `rows` x `cols` grid has a row-major index below `rows * cols`. */
  lemma CellBelow(rows: nat, cols: nat, r: nat, c: nat)
    requires r < rows && c < cols
    ensures r * cols + c < rows * cols
  {
    var d: nat := rows - (r + 1);
    assert rows * cols == (r + 1) * cols + d * cols;
    assert (r + 1) * cols == r * cols + cols;
  }

  lemma MulZero(x: int, d: int)
    requires d > 0 && -d < x * d < d
    ensures x == 0
  {
  }

  /** Euclidean division recovers quotient and remainder. */
  lemma {:induction false} DivModUnique(k: int, d: int, q: int, m: int)
    requires d > 0 && 0 <= m < d && k == q * d + m
    ensures k / d == q && k % d == m
  {
    var q', m' := k / d, k % d;
    assert (q - q') * d == m' - m;
    MulZero(q - q', d);
  }

  /** Row `r`, column `c` is entry `r * cols + c`: the enumeration is row-major with 1-based names. */
  lemma {:induction false} SliceGridRowMajor(rows: nat, cols: nat, sw: real, sh: real, r: nat, c: nat)
    requires cols > 0 && r < rows && c < cols
    ensures r * cols + c < rows * cols
    ensures SliceGrid(rows, cols, sw, sh)[r * cols + c] == Slice(SliceName(r, c), Tile(r, c, sw, sh))
  {
    CellBelow(rows, cols, r, c);
    SliceAtCell(r, c, cols, sw, sh);
  }

  /** Distinct cells of the grid get distinct file names. */
  lemma {:induction false} SliceNameInjective(r1: nat, c1: nat, r2: nat, c2: nat)
    ensures SliceName(r1, c1) == SliceName(r2, c2) <==> r1 == r2 && c1 == c2
  {
    if SliceName(r1, c1) == SliceName(r2, c2) {
      NumberPairInjective("slice_", '_', ".png", r1 + 1, c1 + 1, r2 + 1, c2 + 1);
    }
  }

  /** Distinct numbers differ in their quotient or their remainder. */
  lemma DivModDistinct(i: int, j: int, d: int)
    requires d > 0 && i != j
    ensures i / d != j / d || i % d != j % d
  {
  }

  /** No two entries of the slice list share a file name. */
  lemma {:induction false} SliceGridNamesDistinct(rows: nat, cols: nat, sw: real, sh: real, i: nat, j: nat)
    requires cols > 0 && i < j < rows * cols
    ensures SliceGrid(rows, cols, sw, sh)[i].name != SliceGrid(rows, cols, sw, sh)[j].name
  {
    SliceAtNamesDistinct(i, j, cols, sw, sh);
  }

  /** Distinct entries of the row-major enumeration get distinct file names. */
  lemma {:induction false} SliceAtNamesDistinct(i: nat, j: nat, cols: nat, sw: real, sh: real)
    requires cols > 0 && i != j
    ensures SliceAt(i, cols, sw, sh).name != SliceAt(j, cols, sw, sh).name
  {
    DivModDistinct(i, j, cols);
    SliceNameInjective(i / cols, i % cols, j / cols, j % cols);
  }

  /** A product with a positive factor is negative only when the other factor is. */
  lemma NegativeFactor(x: int, d: int)
    requires d > 0 && x * d < 0
    ensures x < 0
  {
  }

  /** Entry `j` of the grid is the tile in the row and column that `j` encodes. */
  lemma {:induction false} SliceRegion(rows: nat, cols: nat, sw: real, sh: real, j: nat)
    requires cols > 0 && j < rows * cols
    ensures j / cols < rows && j % cols < cols
    ensures SliceGrid(rows, cols, sw, sh)[j].region == Tile(j / cols, j % cols, sw, sh)
  {
    var q := j / cols;
    assert (q - rows) * cols == (j - j % cols) - rows * cols;
    NegativeFactor(q - rows, cols);
  }

  /** `j` encodes row `r`, column `c` exactly when it is `r * cols + c`. */
  lemma {:induction false} CellOfIndex(j: int, cols: int, r: int, c: int)
    requires cols > 0 && 0 <= c < cols
    ensures (j / cols == r && j % cols == c) <==> j == r * cols + c
  {
    if j == r * cols + c {
      DivModUnique(j, cols, r, c);
    }
  }

  /**
   * The slices tile the canvas: a point of the `width` x `height` canvas
   * lies in exactly one slice region, the one in the row and column given by
   * the floors of its coordinates over the slice size.
   */
  lemma {:induction false} SliceGridCovers(rows: nat, cols: nat, width: real, height: real, x: real, y: real)
    requires rows > 0 && cols > 0 && width > 0.0 && height > 0.0
    requires 0.0 <= x < width && 0.0 <= y < height
    ensures var sw, sh := width / cols as real, height / rows as real;
            var g := SliceGrid(rows, cols, sw, sh);
            var k := (y / sh).Floor * cols + (x / sw).Floor;
            0 <= k < |g| &&
            forall j :: 0 <= j < |g| ==> (g[j].region.Contains(x, y) <==> j == k)
  {
    var sw, sh := width / cols as real, height / rows as real;
    assert cols as real * sw == width && rows as real * sh == height;
    FloorInRange(x, sw, cols);
    FloorInRange(y, sh, rows);
    SliceCellCovers(rows, cols, sw, sh, x, y);
  }

  /** `SliceGridCovers` for a given slice size. */
  lemma {:induction false} SliceCellCovers(rows: nat, cols: nat, sw: real, sh: real, x: real, y: real)
    requires cols > 0 && sw > 0.0 && sh > 0.0
    requires 0 <= (y / sh).Floor < rows && 0 <= (x / sw).Floor < cols
    ensures var g := SliceGrid(rows, cols, sw, sh);
            var k := (y / sh).Floor * cols + (x / sw).Floor;
            0 <= k < |g| &&
            forall j :: 0 <= j < |g| ==> (g[j].region.Contains(x, y) <==> j == k)
  {
    var g := SliceGrid(rows, cols, sw, sh);
    var r, c := (y / sh).Floor, (x / sw).Floor;
    CellBelow(rows, cols, r, c);
    forall j | 0 <= j < |g|
      ensures g[j].region.Contains(x, y) <==> j == r * cols + c
    {
      SliceContains(rows, cols, sw, sh, x, y, j);
    }
  }

  /** Entry `j` of the grid contains the point exactly when `j` encodes the point's row and column. */
  lemma {:induction false} SliceContains(rows: nat, cols: nat, sw: real, sh: real, x: real, y: real, j: nat)
    requires cols > 0 && sw > 0.0 && sh > 0.0 && j < rows * cols
    requires 0 <= (x / sw).Floor < cols
    ensures SliceGrid(rows, cols, sw, sh)[j].region.Contains(x, y) <==> j == (y / sh).Floor * cols + (x / sw).Floor
  {
    SliceRegion(rows, cols, sw, sh, j);
    TileContains(j / cols, j % cols, sw, sh, x, y);
    CellOfIndex(j, cols, (y / sh).Floor, (x / sw).Floor);
  }

  // ---------------------------------------------------------------------
  // Filters, resize, rotate
  // ---------------------------------------------------------------------

  /** The filter list `applyFilters` builds from empty (tools.js:555-576). */
  function FilterList(brightness: real, contrast: real, saturation: real): (fs: seq<Filter>)
    ensures |fs| <= 3
    ensures forall f :: f in fs ==> f.amount != 0.0 && f in [Brightness(brightness), Contrast(contrast), Saturation(saturation)]
  {
    (if brightness != 0.0 then [Brightness(brightness)] else []) +
    (if contrast != 0.0 then [Contrast(contrast)] else []) +
    (if saturation != 0.0 then [Saturation(saturation)] else [])
  }

  /** The fixed position of each filter kind in the list. */
  function Rank(f: Filter): nat {
    match f
    case Brightness(_) => 0
    case Contrast(_) => 1
    case Saturation(_) => 2
  }

  /**
   * The filter list holds one entry per non-zero parameter, carrying that
   * parameter, and nothing else, in the fixed order brightness, contrast,
   * saturation.
   */
  lemma {:induction false} FilterListSpec(b: real, c: real, s: real)
    ensures var fs := FilterList(b, c, s);
            (forall i, j :: 0 <= i < j < |fs| ==> Rank(fs[i]) < Rank(fs[j])) &&
            (forall f :: f in fs ==> f.amount != 0.0) &&
            (Brightness(b) in fs <==> b != 0.0) && (forall f :: f in fs && f.Brightness? ==> f == Brightness(b)) &&
            (Contrast(c) in fs <==> c != 0.0) && (forall f :: f in fs && f.Contrast? ==> f == Contrast(c)) &&
            (Saturation(s) in fs <==> s != 0.0) && (forall f :: f in fs && f.Saturation? ==> f == Saturation(s)) &&
            |fs| == (if b != 0.0 then 1 else 0) + (if c != 0.0 then 1 else 0) + (if s != 0.0 then 1 else 0)
  {
    FilterListEntries(b, c, s);
    FilterListRanks(b, c, s);
  }

  /** Which entries the filter list holds. */
  lemma FilterListEntries(b: real, c: real, s: real)
    ensures var fs := FilterList(b, c, s);
            (forall f :: f in fs ==> f in [Brightness(b), Contrast(c), Saturation(s)] && f.amount != 0.0) &&
            (Brightness(b) in fs <==> b != 0.0) && (Contrast(c) in fs <==> c != 0.0) && (Saturation(s) in fs <==> s != 0.0)
  {
  }

  /** The entries of the filter list are in rank order. */
  lemma FilterListRanks(b: real, c: real, s: real)
    ensures var fs := FilterList(b, c, s);
            forall i, j :: 0 <= i < j < |fs| ==> Rank(fs[i]) < Rank(fs[j])
  {
    var fs := FilterList(b, c, s);
    forall i, j | 0 <= i < j < |fs| ensures Rank(fs[i]) < Rank(fs[j]) {
      assert fs[i] in fs && fs[j] in fs;
    }
  }

  /** The resize callback on one object (tools.js:679-685): scale and origin multiplied by the factors. */
  function Rescaled(o: Obj, sx: real, sy: real): (r: Obj)
    ensures r == o.(left := r.left, top := r.top, scaleX := r.scaleX, scaleY := r.scaleY)
    ensures var b := o.Bounds(); r.Bounds() == Box(b.left * sx, b.top * sy, b.width * sx, b.height * sy)
  {
    o.(scaleX := o.scaleX * sx, scaleY := o.scaleY * sy, left := o.left * sx, top := o.top * sy)
  }

  /** The resize callback as the function `forEachObject` is given. */
  function Rescaling(sx: real, sy: real): Obj -> Obj {
    o => Rescaled(o, sx, sy)
  }

  /** One axis of the resize: a coordinate times `w / W` sits at the same fraction of the new extent. */
  lemma Proportional(p: real, oldW: real, w: real)
    requires oldW != 0.0 && w != 0.0
    ensures (p * (w / oldW)) / w == p / oldW
  {
  }

  /** One axis of the resize: an interval inside `[0, W]` scaled by `k > 0` lies inside `[0, W * k]`. */
  lemma ScaledInside(p: real, len: real, oldW: real, k: real)
    requires 0.0 <= p && 0.0 <= len && p + len <= oldW && k > 0.0
    ensures 0.0 <= p * k && 0.0 <= len * k && p * k + len * k <= oldW * k
  {
  }


  /**
   * Resizing from a `W` x `H` canvas to a `w` x `h` one stretches every
   * object with the canvas: its rectangle is multiplied by the same factors,
   * so its position and size relative to the canvas are unchanged.
   */
  lemma {:induction false} RescaledKeepsLayout(o: Obj, oldW: real, oldH: real, w: real, h: real)
    requires oldW != 0.0 && oldH != 0.0 && w != 0.0 && h != 0.0
    ensures var b, r := o.Bounds(), Rescaled(o, w / oldW, h / oldH).Bounds();
            r.left / w == b.left / oldW && r.top / h == b.top / oldH &&
            r.width / w == b.width / oldW && r.height / h == b.height / oldH
  {
    ScaledBoxProportional(o.Bounds(), oldW, oldH, w, h);
  }

  /** `RescaledKeepsLayout` for the rectangle alone. */
  lemma ScaledBoxProportional(b: Box, oldW: real, oldH: real, w: real, h: real)
    requires oldW != 0.0 && oldH != 0.0 && w != 0.0 && h != 0.0
    ensures var sx, sy := w / oldW, h / oldH;
            (b.left * sx) / w == b.left / oldW && (b.top * sy) / h == b.top / oldH &&
            (b.width * sx) / w == b.width / oldW && (b.height * sy) / h == b.height / oldH
  {
    Proportional(b.left, oldW, w);
    Proportional(b.width, oldW, w);
    Proportional(b.top, oldH, h);
    Proportional(b.height, oldH, h);
  }

  /** An object inside the old canvas lies inside the resized one. */
  lemma {:induction false} RescaledStaysInside(o: Obj, oldW: real, oldH: real, w: real, h: real)
    requires w > 0.0 && h > 0.0 && oldW > 0.0 && oldH > 0.0
    requires o.Bounds().Within(Box(0.0, 0.0, oldW, oldH))
    ensures Rescaled(o, w / oldW, h / oldH).Bounds().Within(Box(0.0, 0.0, w, h))
  {
    var sx, sy := w / oldW, h / oldH;
    var b := o.Bounds();
    ScaledInside(b.left, b.width, oldW, sx);
    ScaledInside(b.top, b.height, oldH, sy);
    assert oldW * sx == w && oldH * sy == h;
  }

  function Abs(x: real): real { if x < 0.0 then -x else x }

  /** The canvas size after `rotateImage(angle)`: width and height swap for a quarter turn (tools.js:468-472). */
  function RotatedSize(w: real, h: real, angle: real): (r: (real, real))
    ensures r == (w, h) || r == (h, w)
    ensures Abs(angle) == 90.0 || Abs(angle) == 270.0 ==> r == (h, w)
    ensures Abs(angle) == 0.0 || Abs(angle) == 180.0 ==> r == (w, h)
  {
    if Abs(angle) == 90.0 || Abs(angle) == 270.0 then (h, w) else (w, h)
  }

  /**
   * The rotate callback on one object (tools.js:475-493): its origin turned
   * about the centre of the old `oldW` x `oldH` canvas and carried over to
   * the centre of the new `newW` x `newH` one, and the turn added to its
   * angle.  `cos` and `sin` are the cosine and sine of the turn, which the
   * model takes as given.
   */
  function Revolved(o: Obj, oldW: real, oldH: real, newW: real, newH: real, angle: real, cos: real, sin: real): (r: Obj)
    ensures r == o.(left := r.left, top := r.top, angle := o.angle + angle)
  {
    var relX, relY := o.left - oldW / 2.0, o.top - oldH / 2.0;
    o.(left := newW / 2.0 + (relX * cos - relY * sin),
       top := newH / 2.0 + (relX * sin + relY * cos),
       angle := o.angle + angle)
  }

  /** The rotate callback as the function `forEach` is given. */
  function Revolving(oldW: real, oldH: real, newW: real, newH: real, angle: real, cos: real, sin: real): Obj -> Obj {
    o => Revolved(o, oldW, oldH, newW, newH, angle, cos, sin)
  }

  /**
   * The canvas size law of rotation: rotating back undoes the size change,
   * a half turn keeps the size, a quarter turn in either direction swaps it,
   * and four quarter turns give the original size back.
   */
  lemma {:induction false} RotatedSizeLaws(w: real, h: real, a: real)
    ensures var (w1, h1) := RotatedSize(w, h, a); RotatedSize(w1, h1, -a) == (w, h)
    ensures RotatedSize(w, h, 180.0) == (w, h) && RotatedSize(w, h, -180.0) == (w, h)
    ensures RotatedSize(w, h, 90.0) == (h, w) && RotatedSize(w, h, -90.0) == (h, w)
    ensures var (w1, h1) := RotatedSize(w, h, 90.0);
            var (w2, h2) := RotatedSize(w1, h1, 90.0);
            var (w3, h3) := RotatedSize(w2, h2, 90.0);
            RotatedSize(w3, h3, 90.0) == (w, h)
  {
    assert Abs(-a) == Abs(a);
  }

  /**
   * Rotating an object by a turn and then back, on the canvas sizes the two
   * rotations produce, returns it exactly where it started, with its old
   * angle: the second rotation uses the cosine and the negated sine.
   */
  lemma {:induction false} RevolvedBack(o: Obj, w: real, h: real, a: real, cos: real, sin: real)
    requires cos * cos + sin * sin == 1.0
    ensures var (w1, h1) := RotatedSize(w, h, a);
            Revolved(Revolved(o, w, h, w1, h1, a, cos, sin), w1, h1, w, h, -a, cos, -sin) == o
  {
    var (w1, h1) := RotatedSize(w, h, a);
    RevolvedInverse(o, w, h, w1, h1, a, cos, sin);
  }

  /** `RevolvedBack` for any pair of canvas sizes. */
  lemma {:induction false} RevolvedInverse(o: Obj, w: real, h: real, w1: real, h1: real, a: real, cos: real, sin: real)
    requires cos * cos + sin * sin == 1.0
    ensures Revolved(Revolved(o, w, h, w1, h1, a, cos, sin), w1, h1, w, h, -a, cos, -sin) == o
  {
    var x, y := o.left - w / 2.0, o.top - h / 2.0;
    var x1, y1 := x * cos - y * sin, x * sin + y * cos;
    var o1 := Revolved(o, w, h, w1, h1, a, cos, sin);
    assert o1.left - w1 / 2.0 == x1 && o1.top - h1 / 2.0 == y1;
    assert x1 * cos - y1 * (-sin) == x * (cos * cos + sin * sin);
    assert x1 * (-sin) + y1 * cos == y * (cos * cos + sin * sin);
  }

  /**
   * A rotation keeps each object's distance to the canvas centre: the squared
   * distance is multiplied by cos² + sin², which is 1 for a true rotation.
   */
  lemma RevolvedKeepsDistance(o: Obj, w: real, h: real, w1: real, h1: real, a: real, cos: real, sin: real)
    ensures var r := Revolved(o, w, h, w1, h1, a, cos, sin);
            var relX, relY := o.left - w / 2.0, o.top - h / 2.0;
            var dx, dy := r.left - w1 / 2.0, r.top - h1 / 2.0;
            dx * dx + dy * dy == (relX * relX + relY * relY) * (cos * cos + sin * sin)
  {
  }

  /** The centre of the canvas stays at the centre of the rotated canvas, and only the origin and angle change. */
  lemma RevolvedCentre(o: Obj, w: real, h: real, w1: real, h1: real, a: real, cos: real, sin: real)
    requires o.left == w / 2.0 && o.top == h / 2.0
    ensures var r := Revolved(o, w, h, w1, h1, a, cos, sin);
            r.left == w1 / 2.0 && r.top == h1 / 2.0 && r == o.(left := r.left, top := r.top, angle := o.angle + a)
  {
  }

  // ---------------------------------------------------------------------
  // The tool manager object
  // ---------------------------------------------------------------------

  /** The id held by an optional reference, as a set. */
  function OptSet(x: Option<nat>): set<nat> {
    if x.Some? then {x.value} else {}
  }

  /** A scene in which every object is interactive. */
  predicate AllInteractive(scene: seq<Obj>) {
    forall i :: 0 <= i < |scene| ==> scene[i].selectable && scene[i].evented
  }

  /** Unlocking an unlocked scene changes nothing. */
  lemma UnlockInteractive(scene: seq<Obj>)
    requires AllInteractive(scene)
    ensures MapScene(scene, Unlock) == scene
  {
    assert forall i :: 0 <= i < |scene| ==> Unlock(scene[i]) == scene[i];
  }

  /**
   * `toolManager` (tools.js:5-9), with the crop handler that `initCrop`
   * installs on the frame (tools.js:203-273) kept as the value it captured.
   */
  class ToolManager {
    var currentTool: Tool
    var cropRect: Option<nat>
    var cropOverlays: seq<nat>
    var cropSizeLabel: Option<nat>
    var cropHandler: Option<CropHandler>

    /**
     * While a crop session exists, its frame and label are set together, the
     * handler's overlays, the frame and the label are distinct objects the
     * canvas knows, and the frame's vertical scale can be divided by.
     */
    ghost predicate Valid(c: Canvas)
      reads this, c
    {
      (cropRect.Some? <==> cropSizeLabel.Some?) &&
      (cropRect.Some? ==>
         cropHandler.Some? && SessionIn(c.store, cropHandler.value, cropRect.value, cropSizeLabel.value) &&
         c.store[cropRect.value].scaleY != 0.0)
    }

    constructor ()
      ensures currentTool == Select && cropRect == None && cropOverlays == [] && cropSizeLabel == None
      ensures cropHandler == None
    {
      currentTool := Select;
      cropRect := None;
      cropOverlays := [];
      cropSizeLabel := None;
      cropHandler := None;
    }

    /** The ids of the crop scaffolding the manager refers to. */
    function Scaffolding(): set<nat>
      reads this
    {
      OptSet(cropRect) + SetOf(cropOverlays) + OptSet(cropSizeLabel)
    }

    /** The scene `resetCanvasState` leaves: the scaffolding removed and every other object unlocked. */
    function ResetView(c: Canvas): (r: seq<Obj>)
      reads this, c
      requires c.OrderInStore()
      ensures AllInteractive(r)
    {
      MapScene(SceneOf(c.store, Without(c.order, Scaffolding())), Unlock)
    }

    /**
     * `resetCanvasState` (tools.js:57-81): drawing and group selection off,
     * the frame, the overlays and the label removed from the canvas and
     * forgotten, and every remaining object made selectable and evented.
     */
    method ResetCanvasState(canvas: Canvas)
      requires canvas.Valid()
      modifies this`cropRect, this`cropOverlays, this`cropSizeLabel
      modifies canvas`isDrawingMode, canvas`selection, canvas`order, canvas`store
      ensures canvas.Valid() && Valid(canvas)
      ensures cropRect == None && cropOverlays == [] && cropSizeLabel == None && Scaffolding() == {}
      ensures !canvas.isDrawingMode && !canvas.selection
      ensures canvas.order == Without(old(canvas.order), old(Scaffolding()))
      ensures canvas.store == Mapped(old(canvas.store), canvas.order, Unlock)
      ensures canvas.Objects() == old(ResetView(canvas))
    {
      canvas.isDrawingMode := false;
      canvas.selection := false;
      RemoveScaffolding(canvas);
      canvas.ForEachObject(Unlock);
    }

    /** The removal half of `resetCanvasState` (tools.js:61-75): frame, overlays and label, in that order. */
    method RemoveScaffolding(canvas: Canvas)
      requires canvas.Valid()
      modifies this`cropRect, this`cropOverlays, this`cropSizeLabel, canvas`order
      ensures canvas.Valid() && cropRect == None && cropOverlays == [] && cropSizeLabel == None
      ensures canvas.order == Without(old(canvas.order), old(Scaffolding()))
    {
      ghost var order0, a, b, d := canvas.order, OptSet(cropRect), SetOf(cropOverlays), OptSet(cropSizeLabel);
      WithoutAbsent(order0, {});
      if cropRect.Some? {
        canvas.Remove(cropRect.value);
        cropRect := None;
      }
      assert canvas.order == Without(order0, a);
      var overlays := cropOverlays;
      canvas.RemoveEach(overlays);
      cropOverlays := [];
      WithoutWithout(order0, a, b);
      assert canvas.order == Without(order0, a + b);
      if cropSizeLabel.Some? {
        canvas.Remove(cropSizeLabel.value);
        cropSizeLabel := None;
      }
      WithoutAbsent(Without(order0, a + b), {});
      WithoutWithout(order0, a + b, d);
    }

    /**
     * What `initCrop` leaves behind on a scene with an image (tools.js:93-199),
     * for a canvas that was showing `scene`, listed `order0`, and had next id
     * `n` and history `h0`: every old object locked, then the four overlays,
     * the frame and the label added in that order under the next six ids,
     * the handler capturing the image rectangle and the overlays, and one
     * push per addition.
     */
    ghost predicate CropStarted(c: Canvas, scene: seq<Obj>, order0: seq<nat>, n: nat, h0: History.State<Snapshot>)
      reads this, c, c.history
      requires c.OrderInStore() && FirstImage(scene).Some? && History.Invariant(h0)
    {
      var img := scene[FirstImage(scene).value].Bounds();
      var locked := MapScene(scene, Lock);
      c.Objects() == locked + CropObjects(img) &&
      c.order == order0 + Range(n, 6) &&
      cropOverlays == Range(n, 4) && cropRect == Some(n + 4) && cropSizeLabel == Some(n + 5) &&
      cropHandler == Some(CropHandler(img, n, n + 1, n + 2, n + 3)) &&
      c.history.Model() == History.PushAll(h0, AddedSnapshots(locked, CropObjects(img)))
    }

    /**
     * `initCrop` (tools.js:83-277).  Without an image nothing happens (the
     * alert is not modelled).  Otherwise every object is locked, the four
     * overlays are built around the initial frame and added, then the frame
     * and its size label are added, and the update handler is installed.
     */
    method InitCrop(canvas: Canvas)
      requires canvas.Valid() && cropRect == None && cropOverlays == [] && cropSizeLabel == None
      modifies this`cropRect, this`cropOverlays, this`cropSizeLabel, this`cropHandler
      modifies canvas`store, canvas`order, canvas`nextId, canvas.history
      ensures canvas.Valid() && Valid(canvas)
      ensures FirstImage(old(canvas.Objects())).None? ==>
                canvas.store == old(canvas.store) && canvas.order == old(canvas.order) && canvas.nextId == old(canvas.nextId) &&
                canvas.history.Model() == old(canvas.history.Model()) &&
                cropRect == None && cropOverlays == [] && cropSizeLabel == None && cropHandler == old(cropHandler)
      ensures FirstImage(old(canvas.Objects())).Some? ==>
                CropStarted(canvas, old(canvas.Objects()), old(canvas.order), old(canvas.nextId), old(canvas.history.Model()))
    {
      var objects := canvas.Objects();
      var base := FirstImage(objects);
      if base.None? {
        return;
      }
      var img := objects[base.value].Bounds();
      canvas.ForEachObject(Lock);
      StartCrop(canvas, img);
    }

    /** The additions of `initCrop` once the scene is locked (tools.js:100-199). */
    method StartCrop(canvas: Canvas, img: Box)
      requires canvas.Valid() && cropRect == None && cropOverlays == [] && cropSizeLabel == None
      modifies this`cropRect, this`cropOverlays, this`cropSizeLabel, this`cropHandler
      modifies canvas`store, canvas`order, canvas`nextId, canvas.history
      ensures canvas.Valid() && Valid(canvas)
      ensures canvas.Objects() == old(canvas.Objects()) + CropObjects(img)
      ensures canvas.order == old(canvas.order) + Range(old(canvas.nextId), 6)
      ensures cropOverlays == Range(old(canvas.nextId), 4)
      ensures cropRect == Some(old(canvas.nextId) + 4) && cropSizeLabel == Some(old(canvas.nextId) + 5)
      ensures cropHandler == Some(CropHandler(img, old(canvas.nextId), old(canvas.nextId) + 1, old(canvas.nextId) + 2, old(canvas.nextId) + 3))
      ensures canvas.history.Model() ==
                History.PushAll(old(canvas.history.Model()), AddedSnapshots(old(canvas.Objects()), CropObjects(img)))
    {
      var n := canvas.nextId;
      ghost var order0 := canvas.order;
      RangeSix(n);
      CropSessionIds(img, order0, n);
      var ids := canvas.AddEach(CropObjects(img));
      cropOverlays := ids[..4];
      cropRect := Some(ids[4]);
      cropSizeLabel := Some(ids[5]);
      cropHandler := Some(CropHandler(img, ids[0], ids[1], ids[2], ids[3]));
    }

    /**
     * The `updateCropOverlays` handler (tools.js:203-269): the frame is
     * pulled back inside the image rectangle the handler captured (and only
     * set when that moves it), then the four overlays are set to the bands
     * around the frame's final rectangle and the label is rewritten under it.
     */
    method UpdateCropOverlays(canvas: Canvas)
      requires canvas.Valid() && Valid(canvas) && cropRect.Some?
      modifies canvas`store
      ensures canvas.Valid() && Valid(canvas)
      ensures canvas.store == UpdatedStore(old(canvas.store), cropHandler.value, cropRect.value, cropSizeLabel.value)
    {
      var h := cropHandler.value;
      var fid, lid := cropRect.value, cropSizeLabel.value;
      ghost var store0 := canvas.store;
      ghost var f := Clamped(h.image, store0[fid].Bounds());
      SessionDistinct(store0, h, fid, lid);
      ghost var bands := MaskBands(h.image, f);
      ClampCropFrame(canvas);
      ghost var store1 := canvas.store;
      MovedBounds(store0[fid], f.left, f.top);
      assert store1[fid].Bounds() == f;
      assert store1[h.top] == store0[h.top] && store1[h.bottom] == store0[h.bottom];
      assert store1[h.left] == store0[h.left] && store1[h.right] == store0[h.right];
      PlaceCropOverlays(canvas);
      ghost var store2 := canvas.store;
      assert store2 == store1[h.top := Placed(store0[h.top], bands[0])][h.bottom := Placed(store0[h.bottom], bands[1])]
                             [h.left := Placed(store0[h.left], bands[2])][h.right := Placed(store0[h.right], bands[3])];
      assert store2[fid] == store1[fid] && store2[lid] == store0[lid];
      PlaceCropLabel(canvas);
      assert canvas.store == store2[lid := Relabelled(store0[lid], f)];
      UpdatedStoreSteps(store0, h, fid, lid, store1[fid], bands[0], bands[1], bands[2], bands[3], Relabelled(store0[lid], f));
    }

    /** The clamp of `updateCropOverlays` (tools.js:204-226): the frame is set only when the clamp moves it. */
    method ClampCropFrame(canvas: Canvas)
      requires canvas.Valid() && Valid(canvas) && cropRect.Some?
      modifies canvas`store
      ensures canvas.Valid() && Valid(canvas)
      ensures var rect := old(canvas.store[cropRect.value]);
              var f := Clamped(cropHandler.value.image, rect.Bounds());
              canvas.store == old(canvas.store)[cropRect.value := rect.(left := f.left, top := f.top)]
    {
      var img := cropHandler.value.image;
      var fid := cropRect.value;
      var rect := canvas.store[fid];
      var rectLeft, rectTop := rect.left, rect.top;
      var rectWidth, rectHeight := rect.width * rect.scaleX, rect.height * rect.scaleY;
      var newLeft, newTop := rectLeft, rectTop;
      if rectLeft < img.left { newLeft := img.left; }
      if rectTop < img.top { newTop := img.top; }
      if rectLeft + rectWidth > img.left + img.width { newLeft := img.left + img.width - rectWidth; }
      if rectTop + rectHeight > img.top + img.height { newTop := img.top + img.height - rectHeight; }
      assert rect.Bounds() == Box(rectLeft, rectTop, rectWidth, rectHeight);
      assert newLeft == ClampLeft(img, rectLeft, rectWidth) && newTop == ClampTop(img, rectTop, rectHeight);
      if newLeft != rectLeft || newTop != rectTop {
        canvas.Set(fid, rect.(left := newLeft, top := newTop));
      } else {
        assert canvas.store[fid := rect.(left := newLeft, top := newTop)] == canvas.store;
      }
    }

    /** The overlay part of `updateCropOverlays` (tools.js:228-259): each overlay is set to its band around the frame. */
    method PlaceCropOverlays(canvas: Canvas)
      requires canvas.Valid() && Valid(canvas) && cropRect.Some?
      modifies canvas`store
      ensures canvas.Valid() && Valid(canvas)
      ensures var h, store := cropHandler.value, old(canvas.store);
              var bands := MaskBands(h.image, store[cropRect.value].Bounds());
              canvas.store == store[h.top := Placed(store[h.top], bands[0])][h.bottom := Placed(store[h.bottom], bands[1])]
                                   [h.left := Placed(store[h.left], bands[2])][h.right := Placed(store[h.right], bands[3])]
    {
      var h := cropHandler.value;
      var img := h.image;
      var fid, lid := cropRect.value, cropSizeLabel.value;
      SessionDistinct(canvas.store, h, fid, lid);
      var rect := canvas.store[fid];
      var finalLeft, finalTop := rect.left, rect.top;
      var finalWidth, finalHeight := rect.width * rect.scaleX, rect.height * rect.scaleY;
      var topBand := Box(img.left, img.top, img.width, finalTop - img.top);
      var bottomBand := Box(img.left, finalTop + finalHeight, img.width, img.top + img.height - (finalTop + finalHeight));
      var leftBand := Box(img.left, finalTop, finalLeft - img.left, finalHeight);
      var rightBand := Box(finalLeft + finalWidth, finalTop, img.left + img.width - (finalLeft + finalWidth), finalHeight);
      assert Box(finalLeft, finalTop, finalWidth, finalHeight) == rect.Bounds();
      assert [topBand, bottomBand, leftBand, rightBand] == MaskBands(img, rect.Bounds());
      canvas.Set(h.top, Placed(canvas.store[h.top], topBand));
      canvas.Set(h.bottom, Placed(canvas.store[h.bottom], bottomBand));
      canvas.Set(h.left, Placed(canvas.store[h.left], leftBand));
      canvas.Set(h.right, Placed(canvas.store[h.right], rightBand));
    }

    /** The label part of `updateCropOverlays` (tools.js:262-266): the size text is rewritten and moved under the frame. */
    method PlaceCropLabel(canvas: Canvas)
      requires canvas.Valid() && Valid(canvas) && cropRect.Some?
      modifies canvas`store
      ensures canvas.Valid() && Valid(canvas)
      ensures var store := old(canvas.store);
              canvas.store == store[cropSizeLabel.value := Relabelled(store[cropSizeLabel.value], store[cropRect.value].Bounds())]
    {
      var fid, lid := cropRect.value, cropSizeLabel.value;
      SessionDistinct(canvas.store, cropHandler.value, fid, lid);
      var rect := canvas.store[fid];
      canvas.Set(lid, Relabelled(canvas.store[lid], rect.Bounds()));
    }

    /**
     * fabric's `moving` and `scaling` events on the frame: the library moves
     * or scales the frame, then the handler runs (tools.js:271-272).
     */
    method DragCropFrame(canvas: Canvas, left: real, top: real, scaleX: real, scaleY: real)
      requires canvas.Valid() && Valid(canvas) && cropRect.Some? && scaleY != 0.0
      modifies canvas`store
      ensures canvas.Valid() && Valid(canvas)
      ensures var fid := cropRect.value;
              var dragged := old(canvas.store)[fid := old(canvas.store[fid]).(left := left, top := top, scaleX := scaleX, scaleY := scaleY)];
              SessionIn(dragged, cropHandler.value, fid, cropSizeLabel.value) &&
              canvas.store == UpdatedStore(dragged, cropHandler.value, fid, cropSizeLabel.value)
    {
      var fid := cropRect.value;
      canvas.Set(fid, canvas.store[fid].(left := left, top := top, scaleX := scaleX, scaleY := scaleY));
      UpdateCropOverlays(canvas);
    }

    /**
     * `setCropRatio` (tools.js:317-344): nothing without a frame or for
     * 'free'; otherwise the frame's height is set from its effective width
     * and its vertical scale reset, and the handler runs as for `modified`.
     */
    method SetCropRatio(canvas: Canvas, ratio: Ratio)
      requires canvas.Valid() && Valid(canvas)
      modifies canvas`store
      ensures canvas.Valid() && Valid(canvas)
      ensures cropRect.None? || ratio == Free ==> canvas.store == old(canvas.store)
      ensures cropRect.Some? && ratio != Free ==>
                var fid, rect := cropRect.value, old(canvas.store[cropRect.value]);
                var resized := old(canvas.store)[fid := WithHeight(rect, RatioHeight(ratio, rect.Bounds().width).value)];
                SessionIn(resized, cropHandler.value, fid, cropSizeLabel.value) &&
                canvas.store == UpdatedStore(resized, cropHandler.value, fid, cropSizeLabel.value)
    {
      if cropRect.None? {
        return;
      }
      var fid := cropRect.value;
      var rect := canvas.store[fid];
      var currentWidth := rect.width * rect.scaleX;
      var newHeight: real;
      match ratio {
        case Square => newHeight := currentWidth;
        case FourThree => newHeight := currentWidth * 3.0 / 4.0;
        case SixteenNine => newHeight := currentWidth * 9.0 / 16.0;
        case Free => return;
      }
      assert newHeight == RatioHeight(ratio, rect.Bounds().width).value;
      canvas.Set(fid, rect.(height := newHeight / rect.scaleY, scaleY := 1.0));
      UpdateCropOverlays(canvas);
    }

    /**
     * `applyCrop` up to the export (tools.js:279-301): nothing without a
     * frame; otherwise the overlays, the frame and the label leave the
     * canvas, and the frame's rectangle is the region handed to the export.
     * The frame and label references stay set until the image comes back.
     */
    method ApplyCrop(canvas: Canvas) returns (region: Option<Box>)
      requires canvas.Valid() && Valid(canvas)
      modifies this`cropOverlays, canvas`order
      ensures canvas.Valid() && Valid(canvas)
      ensures cropRect.None? ==> region.None? && canvas.order == old(canvas.order) && cropOverlays == old(cropOverlays)
      ensures cropRect.Some? ==>
                region == Some(canvas.store[cropRect.value].Bounds()) && cropOverlays == [] &&
                canvas.order == Without(old(canvas.order), SetOf(old(cropOverlays)) + {cropRect.value, cropSizeLabel.value})
    {
      if cropRect.None? {
        return None;
      }
      var fid, lid := cropRect.value, cropSizeLabel.value;
      var rect := canvas.store[fid];
      var left, top := rect.left, rect.top;
      var width, height := rect.width * rect.scaleX, rect.height * rect.scaleY;
      ghost var order0 := canvas.order;
      var overlays := cropOverlays;
      canvas.RemoveEach(overlays);
      cropOverlays := [];
      canvas.Remove(fid);
      WithoutWithout(order0, SetOf(overlays), {fid});
      canvas.Remove(lid);
      WithoutWithout(order0, SetOf(overlays) + {fid}, {lid});
      assert SetOf(overlays) + {fid} + {lid} == SetOf(overlays) + {fid, lid};
      region := Some(Box(left, top, width, height));
      assert canvas.store[fid] == rect;
      assert region.value == rect.Bounds();
    }

    /**
     * The `fromURL` callback of `applyCrop` (tools.js:304-314), given the
     * region that was exported: the canvas is cleared and sized to the
     * region, the cut-out image is added (and the `object:added` hook
     * pushes), the frame and label references are dropped, and the history
     * is pushed once more.
     */
    method CroppedImageLoaded(canvas: Canvas, region: Box)
      requires canvas.Valid()
      modifies canvas`store, canvas`order, canvas`nextId, canvas`width, canvas`height, canvas.history
      modifies this`cropRect, this`cropSizeLabel
      ensures canvas.Valid() && Valid(canvas)
      ensures canvas.Objects() == [CroppedImage(region)]
      ensures canvas.width == region.width && canvas.height == region.height
      ensures cropRect == None && cropSizeLabel == None
      ensures canvas.history.Model() ==
                History.PushAll(old(canvas.history.Model()), [[CroppedImage(region)], [CroppedImage(region)]])
    {
      var img := CroppedImage(region);
      ghost var h0 := canvas.history.Model();
      assert Serialize([img]) == [img] by {
        assert [img] == [] + [img];
        SerializeAppend([], img);
      }
      PushTwice(h0, [img]);
      canvas.Clear();
      canvas.SetDimensions(region.width, region.height);
      var _ := canvas.Add(img);
      cropRect := None;
      cropSizeLabel := None;
      canvas.history.Push(Serialize(canvas.Objects()));
    }

    /**
     * `applyGridSlice` up to the archive (tools.js:359-404): rows and
     * columns must both be given and positive (`None` is an input `parseInt`
     * could not read); without an image nothing happens; otherwise the
     * canvas is cut into `rows` x `cols` equal slices, row by row, each named
     * after its 1-based row and column.
     */
    method ApplyGridSlice(canvas: Canvas, rows: Option<int>, cols: Option<int>) returns (r: SliceResult)
      requires canvas.OrderInStore()
      ensures r.InvalidInput? <==> !(rows.Some? && cols.Some? && rows.value > 0 && cols.value > 0)
      ensures r.NoImage? <==> !r.InvalidInput? && FirstImage(canvas.Objects()).None?
      ensures r.Slices? ==>
                r.archive == ArchiveName(rows.value, cols.value) &&
                r.entries == SliceGrid(rows.value, cols.value, canvas.width / cols.value as real, canvas.height / rows.value as real)
    {
      if rows.None? || cols.None? || rows.value <= 0 || cols.value <= 0 {
        return InvalidInput;
      }
      var objects := canvas.Objects();
      if FirstImage(objects).None? {
        return NoImage;
      }
      var rowCount: nat, colCount: nat := rows.value, cols.value;
      var sliceWidth := canvas.width / colCount as real;
      var sliceHeight := canvas.height / rowCount as real;
      var entries: seq<Slice> := [];
      var i := 0;
      while i < rowCount
        invariant 0 <= i <= rowCount && |entries| == i * colCount
        invariant forall k :: 0 <= k < |entries| ==> entries[k] == SliceAt(k, colCount, sliceWidth, sliceHeight)
      {
        entries := AppendSliceRow(entries, i, colCount, sliceWidth, sliceHeight);
        assert i * colCount + colCount == (i + 1) * colCount;
        i := i + 1;
      }
      r := Slices(ArchiveName(rowCount, colCount), entries);
    }

    /**
     * `applyFilters` (tools.js:549-581): without an image nothing happens;
     * otherwise the first image's filter list is rebuilt from empty with one
     * entry per non-zero parameter.  No history entry is made.
     */
    method ApplyFilters(canvas: Canvas, brightness: real, contrast: real, saturation: real)
      requires canvas.Valid() && Valid(canvas)
      modifies canvas`store
      ensures canvas.Valid() && Valid(canvas)
      ensures FirstImage(old(canvas.Objects())).None? ==> canvas.store == old(canvas.store)
      ensures FirstImage(old(canvas.Objects())).Some? ==>
                var id := canvas.order[FirstImage(old(canvas.Objects())).value];
                canvas.store == old(canvas.store)[id := old(canvas.store[id]).(kind := Kind.Image(FilterList(brightness, contrast, saturation)))]
    {
      var base := FirstImage(canvas.Objects());
      if base.None? {
        return;
      }
      var id := canvas.order[base.value];
      var filters: seq<Filter> := [];
      if brightness != 0.0 {
        filters := filters + [Brightness(brightness)];
      }
      if contrast != 0.0 {
        filters := filters + [Contrast(contrast)];
      }
      if saturation != 0.0 {
        filters := filters + [Saturation(saturation)];
      }
      assert filters == FilterList(brightness, contrast, saturation);
      canvas.Set(id, canvas.store[id].(kind := Kind.Image(filters)));
    }

    /** `resetFilters` (tools.js:583-598): the first image's filter list emptied; the sliders are not modelled. */
    method ResetFilters(canvas: Canvas)
      requires canvas.Valid() && Valid(canvas)
      modifies canvas`store
      ensures canvas.Valid() && Valid(canvas)
      ensures FirstImage(old(canvas.Objects())).None? ==> canvas.store == old(canvas.store)
      ensures FirstImage(old(canvas.Objects())).Some? ==>
                var id := canvas.order[FirstImage(old(canvas.Objects())).value];
                canvas.store == old(canvas.store)[id := old(canvas.store[id]).(kind := Kind.Image([]))]
    {
      var base := FirstImage(canvas.Objects());
      if base.None? {
        return;
      }
      var id := canvas.order[base.value];
      canvas.Set(id, canvas.store[id].(kind := Kind.Image([])));
    }

    /**
     * The resize panel's apply handler (tools.js:671-688): the canvas takes
     * the new size, every object is stretched by the two factors, and the
     * history is pushed.  The panel is only shown after `activate('resize')`
     * has reset the crop state.  A canvas of size 0 is the empty one that
     * `resetEditor` leaves: the factors the code computes there are infinite,
     * but there is no object to apply them to.
     */
    method ApplyResize(canvas: Canvas, w: int, h: int)
      requires canvas.Valid() && Valid(canvas) && cropRect.None?
      requires (canvas.width != 0.0 && canvas.height != 0.0) || canvas.order == []
      modifies canvas`store, canvas`width, canvas`height, canvas.history
      ensures canvas.Valid() && Valid(canvas)
      ensures canvas.width == w as real && canvas.height == h as real
      ensures old(canvas.width) != 0.0 && old(canvas.height) != 0.0 ==>
                var sx, sy := w as real / old(canvas.width), h as real / old(canvas.height);
                canvas.store == Mapped(old(canvas.store), canvas.order, Rescaling(sx, sy)) &&
                canvas.Objects() == MapScene(old(canvas.Objects()), Rescaling(sx, sy))
      ensures old(canvas.order) == [] ==> canvas.store == old(canvas.store) && canvas.Objects() == []
      ensures canvas.history.Model() == History.Pushed(old(canvas.history.Model()), Serialize(canvas.Objects()))
    {
      if canvas.width != 0.0 && canvas.height != 0.0 {
        var scaleX := w as real / canvas.width;
        var scaleY := h as real / canvas.height;
        canvas.SetDimensions(w as real, h as real);
        ghost var store0 := canvas.store;
        canvas.ForEachObject(Rescaling(scaleX, scaleY));
        if canvas.order == [] {
          assert canvas.store == store0;
        }
      } else {
        canvas.SetDimensions(w as real, h as real);
      }
      canvas.history.Push(Serialize(canvas.Objects()));
    }

    /**
     * `rotateImage(angle)` (tools.js:463-504), for a turn whose cosine and
     * sine are `cos` and `sin`: every object revolves about the canvas
     * centre, the canvas size swaps for a quarter turn, and the history is
     * pushed.  The rotate panel is only shown after `activate('rotate')`.
     */
    method RotateImage(canvas: Canvas, angle: real, cos: real, sin: real)
      requires canvas.Valid() && Valid(canvas) && cropRect.None?
      modifies canvas`store, canvas`width, canvas`height, canvas.history
      ensures canvas.Valid() && Valid(canvas)
      ensures (canvas.width, canvas.height) == RotatedSize(old(canvas.width), old(canvas.height), angle)
      ensures var (w, h) := (old(canvas.width), old(canvas.height));
              var (w1, h1) := RotatedSize(w, h, angle);
              var f := Revolving(w, h, w1, h1, angle, cos, sin);
              canvas.store == Mapped(old(canvas.store), canvas.order, f) &&
              canvas.Objects() == MapScene(old(canvas.Objects()), f)
      ensures canvas.history.Model() == History.Pushed(old(canvas.history.Model()), Serialize(canvas.Objects()))
    {
      var oldWidth, oldHeight := canvas.width, canvas.height;
      var needSwap := Abs(angle) == 90.0 || Abs(angle) == 270.0;
      var newWidth := if needSwap then oldHeight else oldWidth;
      var newHeight := if needSwap then oldWidth else oldHeight;
      canvas.ForEachObject(Revolving(oldWidth, oldHeight, newWidth, newHeight, angle, cos, sin));
      canvas.SetDimensions(newWidth, newHeight);
      canvas.history.Push(Serialize(canvas.Objects()));
    }

    /** With no crop session and every object interactive, `resetCanvasState` leaves the scene as it is. */
    lemma ResetViewIdle(c: Canvas)
      requires c.OrderInStore() && Scaffolding() == {} && AllInteractive(c.Objects())
      ensures Without(c.order, Scaffolding()) == c.order && ResetView(c) == c.Objects()
    {
      WithoutAbsent(c.order, {});
      UnlockInteractive(c.Objects());
    }

    /**
     * What the tool-specific part of `activate(t)` (tools.js:14-54) leaves
     * behind, for a canvas that was showing `scene` under the ids `order0`,
     * had next id `n`, history `h0` and brush `brush0`.  Grid slicing without
     * an image falls back to the select tool.  Only the mosaic tool draws,
     * only the select tool allows group selection, and the mosaic tool
     * installs its brush.  Crop on a scene with an image starts a crop
     * session; every other tool adds its own object, if it has one, with
     * the push of the `object:added` hook.
     */
    ghost predicate ToolStarted(c: Canvas, t: Tool, scene: seq<Obj>, order0: seq<nat>, n: nat,
                                h0: History.State<Snapshot>, brush0: Option<Brush>)
      reads this, c, c.history
      requires c.OrderInStore() && History.Invariant(h0)
    {
      var noImage := FirstImage(scene).None?;
      var tool := if t.GridSlice? && noImage then Select else t;
      currentTool == tool && c.isDrawingMode == t.Mosaic? && c.selection == tool.Select? &&
      c.brush == (if t.Mosaic? then Some(MosaicBrush) else brush0) &&
      if t.Crop? && !noImage then CropStarted(c, scene, order0, n, h0)
      else
        cropRect == None && cropOverlays == [] && cropSizeLabel == None &&
        c.Objects() == scene + ToolObject(t) && c.order == order0 + Range(n, |ToolObject(t)|) &&
        c.history.Model() == History.PushAll(h0, AddedSnapshots(scene, ToolObject(t)))
    }

    /**
     * `activate(toolName)` (tools.js:14-55): the tool is recorded, the
     * canvas state is reset, and the tool's own start-up runs on the reset
     * scene.
     */
    method Activate(canvas: Canvas, t: Tool)
      requires canvas.Valid()
      modifies this`currentTool, this`cropRect, this`cropOverlays, this`cropSizeLabel, this`cropHandler
      modifies canvas`isDrawingMode, canvas`selection, canvas`order, canvas`store, canvas`nextId, canvas`brush, canvas.history
      ensures canvas.Valid() && Valid(canvas)
      ensures ToolStarted(canvas, t, old(ResetView(canvas)), Without(old(canvas.order), old(Scaffolding())),
                          old(canvas.nextId), old(canvas.history.Model()), old(canvas.brush))
      decreases if t.GridSlice? then 4 else 1
    {
      currentTool := t;
      ResetCanvasState(canvas);
      RunTool(canvas, t);
    }

    /** The `switch` of `activate` (tools.js:17-54), on a canvas `resetCanvasState` has just reset. */
    method RunTool(canvas: Canvas, t: Tool)
      requires canvas.Valid() && Valid(canvas) && currentTool == t
      requires cropRect == None && cropOverlays == [] && cropSizeLabel == None
      requires !canvas.isDrawingMode && !canvas.selection && AllInteractive(canvas.Objects())
      modifies this`currentTool, this`cropRect, this`cropOverlays, this`cropSizeLabel, this`cropHandler
      modifies canvas`isDrawingMode, canvas`selection, canvas`order, canvas`store, canvas`nextId, canvas`brush, canvas.history
      ensures canvas.Valid() && Valid(canvas)
      ensures ToolStarted(canvas, t, old(canvas.Objects()), old(canvas.order), old(canvas.nextId),
                          old(canvas.history.Model()), old(canvas.brush))
      decreases if t.GridSlice? then 3 else 0
    {
      match t {
        case Select =>
          NothingAdded(canvas);
          canvas.isDrawingMode := false;
          canvas.selection := true;
        case Mosaic =>
          NothingAdded(canvas);
          InitMosaic(canvas);
        case GridSlice =>
          InitGridSlice(canvas);
        case Crop =>
          InitCrop(canvas);
        case Text | Rect | Circle | Arrow =>
          AddToolShape(canvas, t);
        case _ =>
          NothingAdded(canvas);
      }
    }

    /** Adding no object leaves the scene, the order and the history as they are. */
    lemma NothingAdded(c: Canvas)
      requires c.Valid()
      ensures c.Objects() + [] == c.Objects() && c.order + Range(c.nextId, 0) == c.order
      ensures History.PushAll(c.history.Model(), AddedSnapshots(c.Objects(), [])) == c.history.Model()
    {
      assert c.Objects() + [] == c.Objects() && c.order + [] == c.order;
    }

    /** The `add*` branches of `activate` (tools.js:27-29 and 45-53): the tool's shape is added, and the hook pushes a snapshot. */
    method AddToolShape(canvas: Canvas, t: Tool)
      requires canvas.Valid() && Valid(canvas) && currentTool == t && (t.Text? || t.Rect? || t.Circle? || t.Arrow?)
      requires cropRect == None && cropOverlays == [] && cropSizeLabel == None
      requires !canvas.isDrawingMode && !canvas.selection
      modifies canvas`order, canvas`store, canvas`nextId, canvas.history
      ensures canvas.Valid() && Valid(canvas)
      ensures ToolStarted(canvas, t, old(canvas.Objects()), old(canvas.order), old(canvas.nextId),
                          old(canvas.history.Model()), old(canvas.brush))
    {
      var _ := canvas.AddEach(ToolObject(t));
    }

    /** `initMosaic` (tools.js:422-430): free drawing on, with a 20-pixel dark grey pencil. */
    method InitMosaic(canvas: Canvas)
      requires canvas.Valid()
      modifies canvas`isDrawingMode, canvas`brush
      ensures canvas.Valid() && canvas.isDrawingMode && canvas.brush == Some(MosaicBrush)
    {
      canvas.isDrawingMode := true;
      canvas.brush := Some(Brush(20, "#333333"));
    }

    /**
     * `initGridSlice` (tools.js:346-357): without an image the select tool
     * is activated instead (the alert is not modelled); otherwise only the
     * property panel changes.
     */
    method InitGridSlice(canvas: Canvas)
      requires canvas.Valid() && Valid(canvas) && currentTool == GridSlice
      requires cropRect == None && cropOverlays == [] && cropSizeLabel == None
      requires !canvas.isDrawingMode && !canvas.selection && AllInteractive(canvas.Objects())
      modifies this`currentTool, this`cropRect, this`cropOverlays, this`cropSizeLabel, this`cropHandler
      modifies canvas`isDrawingMode, canvas`selection, canvas`order, canvas`store, canvas`nextId, canvas`brush, canvas.history
      ensures canvas.Valid() && Valid(canvas)
      ensures ToolStarted(canvas, GridSlice, old(canvas.Objects()), old(canvas.order), old(canvas.nextId),
                          old(canvas.history.Model()), old(canvas.brush))
      decreases 2
    {
      var objects := canvas.Objects();
      ghost var h0 := canvas.history.Model();
      assert objects + [] == objects && canvas.order + Range(canvas.nextId, 0) == canvas.order;
      assert History.PushAll(h0, AddedSnapshots(objects, [])) == h0;
      if FirstImage(objects).None? {
        ResetViewIdle(canvas);
        Activate(canvas, Select);
      }
    }
  }
}
