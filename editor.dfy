/**
 * The page logic of main.js: creating the canvas, loading an image scaled to
 * fit the drop zone with a fresh history, resetting the editor, and the undo
 * and redo buttons wired to the history manager.
 */
module Editor {
  import opened Wrappers
  import opened Geometry
  import opened Scene
  import opened Fabric
  import History
  import Tools

  /**
   * The scale `loadContent` gives an image of natural size `w` x `h`
   * (main.js:82-85): 1 when it fits in `maxW` x `maxH`, otherwise the
   * smaller of the two ratios.
   */
  function FitScale(w: real, h: real, maxW: real, maxH: real): (r: real)
    requires w > 0.0 && h > 0.0
    ensures w <= maxW && h <= maxH ==> r == 1.0
    ensures r == 1.0 || r == maxW / w || r == maxH / h
  {
    var scale := 1.0;
    if w > maxW || h > maxH then Min(maxW / w, maxH / h) else scale
  }

  /** Multiplying by a positive factor keeps the order. */
  lemma MulMono(a: real, x: real, y: real)
    requires a > 0.0 && x <= y
    ensures a * x <= a * y
  {
  }

  /** A scale ratio: `m / d` scales `d` to `m`, and is below 1 exactly when `m < d`. */
  lemma Ratio(m: real, d: real)
    requires d > 0.0
    ensures d * (m / d) == m && (m / d < 1.0 <==> m < d)
  {
    if m / d < 1.0 {
      MulMono(d, m / d, 1.0);
    } else {
      MulMono(d, 1.0, m / d);
    }
  }

  /**
   * The fit scale is at most 1, is 1 exactly when the image already fits,
   * and the scaled image fits on both axes.  With a drop zone of positive
   * size it is positive.
   */
  lemma {:induction false} FitScaleFits(w: real, h: real, maxW: real, maxH: real)
    requires w > 0.0 && h > 0.0
    ensures var s := FitScale(w, h, maxW, maxH);
            s <= 1.0 && w * s <= maxW && h * s <= maxH &&
            (s == 1.0 <==> w <= maxW && h <= maxH) &&
            (maxW > 0.0 && maxH > 0.0 ==> s > 0.0)
  {
    var s := FitScale(w, h, maxW, maxH);
    if w > maxW || h > maxH {
      var sx, sy := maxW / w, maxH / h;
      Ratio(maxW, w);
      Ratio(maxH, h);
      assert sx < 1.0 || sy < 1.0;
      MulMono(w, s, sx);
      MulMono(h, s, sy);
    }
  }

  /**
   * An image that does not fit fills the drop zone on at least one axis, and
   * the same factor on both axes keeps the image's aspect ratio.
   */
  lemma {:induction false} FitScaleFills(w: real, h: real, maxW: real, maxH: real)
    requires w > 0.0 && h > 0.0 && maxW > 0.0 && maxH > 0.0
    ensures var s := FitScale(w, h, maxW, maxH);
            (!(w <= maxW && h <= maxH) ==> w * s == maxW || h * s == maxH) &&
            (w * s) / (h * s) == w / h
  {
    var s := FitScale(w, h, maxW, maxH);
    Ratio(maxW, w);
    Ratio(maxH, h);
    FitScaleFits(w, h, maxW, maxH);
    assert w * s == (w / h) * (h * s);
  }

  /** No larger scale keeps the image inside the zone without enlarging it: the fit scale is the best one. */
  lemma {:induction false} FitScaleLargest(w: real, h: real, maxW: real, maxH: real, t: real)
    requires w > 0.0 && h > 0.0
    requires t <= 1.0 && w * t <= maxW && h * t <= maxH
    ensures t <= FitScale(w, h, maxW, maxH)
  {
    if w > maxW || h > maxH {
      assert t * w <= (maxW / w) * w;
      assert t * h <= (maxH / h) * h;
    }
  }

  /** The image `loadContent` adds: the loaded picture at its natural size, scaled by `s` on both axes. */
  function LoadedImage(w: real, h: real, s: real): (o: Obj)
    ensures o.kind == Image([]) && o.Bounds() == Box(0.0, 0.0, w * s, h * s)
    ensures !o.excludeFromExport && !o.isInternal
  {
    NewObject(Kind.Image([]), 0.0, 0.0, w, h).(scaleX := s, scaleY := s)
  }

  /** The page state of main.js: the canvas, once created, the history manager and the tool manager. */
  class Editor {
    var canvas: Canvas?
    const history: History.HistoryManager<Snapshot>
    const tools: Tools.ToolManager

    ghost predicate Valid()
      reads this, history, canvas
    {
      history.Valid() && (canvas != null ==> canvas.history == history && canvas.Valid())
    }

    /** The page before any image: no canvas yet, an empty history, the select tool. */
    constructor ()
      ensures Valid() && canvas == null && history.Model() == History.Initial()
      ensures tools.currentTool == Tools.Select && tools.cropRect == None
    {
      canvas := null;
      history := new History.HistoryManager<Snapshot>();
      tools := new Tools.ToolManager();
    }

    /**
     * The `fromURL` callback of `loadContent` (main.js:71-105), for a loaded
     * image of natural size `w` x `h` and a drop zone leaving `maxW` x
     * `maxH`: the canvas is created if needed, emptied and sized to the
     * scaled image, the image is added (its `object:added` push is about to
     * be discarded) and centred, and the history is cleared and given the
     * new scene as its only entry.
     */
    method LoadContent(w: real, h: real, maxW: real, maxH: real)
      requires Valid() && w > 0.0 && h > 0.0
      modifies this`canvas, canvas, history
      ensures Valid() && canvas != null
      ensures old(canvas) != null ==> canvas == old(canvas)
      ensures var s := FitScale(w, h, maxW, maxH);
              canvas.width == w * s && canvas.height == h * s &&
              canvas.Objects() == [LoadedImage(w, h, s)]
      ensures history.Model() == History.Pushed(History.Cleared(old(history.Model())), canvas.Objects())
      ensures !old(history.isProcessing) ==>
                history.stack == [canvas.Objects()] && history.index == 0 &&
                !History.CanUndo(history.Model()) && !History.CanRedo(history.Model())
      ensures old(canvas) != null ==>
                canvas.isDrawingMode == old(canvas.isDrawingMode) && canvas.selection == old(canvas.selection) &&
                canvas.brush == old(canvas.brush)
      ensures old(canvas) == null ==> !canvas.isDrawingMode && canvas.selection && canvas.brush == None
    {
      InitCanvas();
      var scale := 1.0;
      if w > maxW || h > maxH {
        scale := Min(maxW / w, maxH / h);
      }
      assert scale == FitScale(w, h, maxW, maxH);
      ShowImage(w, h, scale);
      StartHistory(Serialize(canvas.Objects()));
    }

    /** `if (!canvas) initCanvas();` (main.js:73): the canvas is created on first use, with the history hooks. */
    method InitCanvas()
      requires Valid()
      modifies this`canvas
      ensures Valid() && canvas != null
      ensures old(canvas) != null ==> canvas == old(canvas)
      ensures old(canvas) == null ==> fresh(canvas) && !canvas.isDrawingMode && canvas.selection && canvas.brush == None
    {
      if canvas == null {
        canvas := new Canvas(history);
      }
    }

    /** `historyManager.clear(); historyManager.push(canvas);` (main.js:102-103). */
    method StartHistory(s: Snapshot)
      requires Valid()
      modifies history
      ensures Valid() && history.Model() == History.Pushed(History.Cleared(old(history.Model())), s)
      ensures !old(history.isProcessing) ==>
                history.stack == [s] && history.index == 0 &&
                !History.CanUndo(history.Model()) && !History.CanRedo(history.Model())
    {
      history.Clear();
      history.Push(s);
      if !old(history.isProcessing) {
        History.ClearThenPush(old(history.Model()), s);
      }
    }

    /** The canvas part of `loadContent` (main.js:75-89): emptied, sized to the scaled image, which is added and centred. */
    method ShowImage(w: real, h: real, scale: real)
      requires Valid() && canvas != null
      modifies canvas, history
      ensures Valid() && canvas.width == w * scale && canvas.height == h * scale
      ensures canvas.Objects() == [LoadedImage(w, h, scale)] && Serialize(canvas.Objects()) == canvas.Objects()
      ensures history.isProcessing == old(history.isProcessing)
      ensures canvas.isDrawingMode == old(canvas.isDrawingMode) && canvas.selection == old(canvas.selection) &&
              canvas.brush == old(canvas.brush)
    {
      canvas.Clear();
      canvas.SetDimensions(w * scale, h * scale);
      var img := NewObject(Kind.Image([]), 0.0, 0.0, w, h).(scaleX := scale, scaleY := scale);
      var id := canvas.Add(img);
      assert canvas.Objects() == [img];
      CenterObject(id);
      assert canvas.Objects() == [LoadedImage(w, h, scale)];
      assert Serialize(canvas.Objects()) == canvas.Objects() by {
        SerializeAppend([], LoadedImage(w, h, scale));
        assert [] + [LoadedImage(w, h, scale)] == canvas.Objects();
      }
    }

    /** `canvas.centerObject(o)` on the only object of the canvas, which is as large as the canvas. */
    method CenterObject(id: nat)
      requires Valid() && canvas != null && canvas.order == [id]
      requires canvas.store[id].Bounds().width == canvas.width && canvas.store[id].Bounds().height == canvas.height
      modifies canvas`store
      ensures Valid()
      ensures canvas.store == old(canvas.store)[id := old(canvas.store[id]).(left := 0.0, top := 0.0)]
      ensures canvas.Objects() == [old(canvas.store[id]).(left := 0.0, top := 0.0)]
    {
      var o := canvas.store[id];
      var b := o.Bounds();
      canvas.Set(id, o.(left := (canvas.width - b.width) / 2.0, top := (canvas.height - b.height) / 2.0));
    }

    /**
     * `resetEditor` (main.js:110-132), with the answer of the confirmation
     * dialog as `confirmed`: nothing happens before a canvas exists or when
     * the user declines; otherwise the canvas is emptied and shrunk to 0 x 0,
     * the history is cleared and the select tool is activated.
     */
    method ResetEditor(confirmed: bool)
      requires Valid()
      modifies canvas, history, tools
      ensures Valid() && canvas == old(canvas)
      ensures canvas == null || !confirmed ==>
                unchanged(tools) && (canvas != null ==> unchanged(canvas)) &&
                history.Model() == old(history.Model()) &&
                (canvas != null ==> canvas.order == old(canvas.order) && canvas.width == old(canvas.width) &&
                                    canvas.height == old(canvas.height))
      ensures canvas != null && confirmed ==>
                canvas.Objects() == [] && canvas.width == 0.0 && canvas.height == 0.0 &&
                history.Model() == History.Cleared(old(history.Model())) &&
                tools.currentTool == Tools.Select && tools.cropRect == None && tools.cropOverlays == [] &&
                tools.cropSizeLabel == None && canvas.selection && !canvas.isDrawingMode
    {
      if canvas == null {
        return;
      }
      if confirmed {
        canvas.Clear();
        canvas.SetDimensions(0.0, 0.0);
        history.Clear();
        ghost var h1, n := history.Model(), canvas.nextId;
        assert Without([], tools.Scaffolding()) == [];
        tools.Activate(canvas, Tools.Select);
        assert canvas.order == [] + Range(n, 0);
      }
    }

    /**
     * The undo button (history.js:31-37 with history.js:47-49): the cursor
     * steps back and the canvas is rebuilt from the snapshot it now points
     * at; its completion callback is `HistoryManager.FinishLoad`.
     */
    method Undo()
      requires Valid() && canvas != null
      modifies history, canvas`store, canvas`order, canvas`nextId
      ensures Valid()
      ensures var step := History.Undone(old(history.Model()));
              history.Model() == step.state &&
              (step.restore.Some? ==> canvas.Objects() == step.restore.value) &&
              (step.restore.None? ==> canvas.order == old(canvas.order))
    {
      var restore := history.Undo();
      if restore.Some? {
        canvas.LoadFromJSON(restore.value);
      }
    }

    /** The redo button (history.js:39-49), the mirror image of `Undo`. */
    method Redo()
      requires Valid() && canvas != null
      modifies history, canvas`store, canvas`order, canvas`nextId
      ensures Valid()
      ensures var step := History.Redone(old(history.Model()));
              history.Model() == step.state &&
              (step.restore.Some? ==> canvas.Objects() == step.restore.value) &&
              (step.restore.None? ==> canvas.order == old(canvas.order))
    {
      var restore := history.Redo();
      if restore.Some? {
        canvas.LoadFromJSON(restore.value);
      }
    }
  }
}
