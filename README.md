# Image editor core: history, tools and page logic, in Dafny

This project models the core of a browser-extension image editor built on
the fabric canvas library. It covers three scripts:

- `scripts/history.js`: the undo/redo manager. It keeps a bounded stack of
  canvas snapshots with a cursor, and an `isProcessing` flag that mutes
  pushes while a snapshot is being restored.
- `scripts/tools.js`: the tool manager. It covers tool activation and the
  reset of the canvas state between tools. It also covers the crop session:
  the mask overlays, the frame, the size label, the clamp-and-update handler,
  the aspect-ratio presets, and the commit with its reload of the cut-out
  image. Grid slicing, the image filters, the resize handler, rotation, and
  the tools that add a text, a rectangle, a circle or an arrow are also in
  scope.
- `scripts/main.js`: the page logic. It creates the canvas with its two
  history hooks (`object:added` and `object:modified`). It loads an image
  scaled to fit the drop zone and starts a fresh history. It also resets the
  editor.

Modules, one file each:

| module | file | contents |
|---|---|---|
| `Wrappers` | `wrappers.dfy` | `Option` |
| `Geometry` | `geometry.dfy` | rectangles, the initial crop frame, the four mask bands, the clamp, grid tiles |
| `Strings` | `strings.dfy` | decimal notation of numbers, for the size label and the slice file names |
| `Scene` | `scene.dfy` | fabric objects, snapshots (`toJSON` without objects marked `excludeFromExport`), the first-image lookup |
| `History` | `history.dfy` | the history as a pure state with its transitions and laws, and the `HistoryManager` class proved against them |
| `Fabric` | `canvas.dfy` | the fabric canvas as a class: an id-keyed object store, the z-order, the `object:added` and `object:modified` hooks |
| `Tools` | `tools.dfy` | the `ToolManager` class and the value-level definitions of every tool |
| `Editor` | `editor.dfy` | the page: canvas creation, `loadContent`, `resetEditor`, the undo and redo buttons |

How the pieces fit together:

- Each stateful object of the source is a class whose methods are proved
  against a pure function of the old state:
  - `history.js`'s manager is `History.HistoryManager`;
  - fabric's canvas is `Fabric.Canvas`;
  - the tool manager is `Tools.ToolManager`;
  - the page is `Editor.Editor`.
- Their properties are proved as lemmas about those functions: `Pushed`,
  `Undone`, `Redone`, `UpdatedStore`, `SliceGrid`, `FilterList`, `Rescaled`,
  `Revolved`, `FitScale` and others.
- A snapshot is the serialized scene, as an `Obj` sequence, not text.
- The canvas pushes a snapshot itself whenever it adds an object that is
  not marked `isInternal`, exactly as the `object:added` hook of
  `main.js:32-34` does. Every push count below is therefore the count of the
  code as written.

The model keeps these behaviours of the code as written.

- Entering a crop session pushes six snapshots, one for each of the four
  overlays, the frame and the label. The overlays and the label are left out
  of the JSON, so four pushes repeat the old scene and two hold the scene plus
  the frame. The first undo after entering the session therefore shows the
  same picture (`Tools.CropEntryHistory`).
- Committing a crop pushes twice: once through the `object:added` hook when
  the cut-out image is added, and once explicitly. The first undo after a crop
  does not change the picture (`History.DoublePushUndo`,
  `Tools.ToolManager.CroppedImageLoaded`).
- Undo is offered only when the cursor is above 0, so after loading an image
  (one snapshot) undo is not offered. Undo is offered after at least two
  snapshots (`History.UndoOfferedAfterPushes`).
- `clear()` resets the stack and the cursor but not `isProcessing`.
- The clamp of the crop handler tests left, then right; then top, then
  bottom. For a frame wider than the image the later test wins, and clamping
  again moves the frame back (`Geometry.ClampAlternatesWhenTooWide`).
- `setCropRatio` divides the target height by the frame's old vertical scale
  before resetting that scale to 1. A frame that was stretched vertically
  therefore does not get the chosen proportion (`Tools.RatioResult`).
- Filters change the image's filter list without a history entry.

Three more behaviours of the same code:

- `activate` checks for an image only in the crop and grid-slice start-ups.
  Every other tool starts without one. With no image, grid slicing falls back
  to select and crop does nothing (`Tools.ToolManager.Activate`).
- The teardown between tools makes every remaining object selectable and
  evented, whatever its flags were before (`Tools.ToolManager.ResetView`).
- A crop commit pushes twice and only shows the select panel; `currentTool`
  stays at crop. Neither `Tools.ToolManager.ApplyCrop` nor
  `Tools.ToolManager.CroppedImageLoaded` may modify `currentTool`.

## Model

| member | source | states |
|---|---|---|
| History.Initial | scripts/history.js:5-9 | the empty history satisfies the invariant: cursor -1 on an empty stack, within the limit of 20 |
| History.Pushed | scripts/history.js:11-29 | a push while processing changes nothing; otherwise the snapshot is the newest entry, the cursor is on it, the bound of 20 holds and nothing can be redone |
| History.Undone | scripts/history.js:31-37 | undo keeps the stack and the invariant; when offered it moves the cursor down one, sets the restore flag and restores the entry now under the cursor; otherwise it changes nothing and restores nothing |
| History.Redone | scripts/history.js:39-45 | redo keeps the stack and the invariant; when offered it moves the cursor up one, sets the restore flag and restores the entry now under the cursor; otherwise it changes nothing and restores nothing |
| History.Finished | scripts/history.js:49-53 | the restore's completion clears the processing flag and nothing else |
| History.Cleared | scripts/history.js:56-60 | after clearing, neither undo nor redo is offered |
| History.CanUndo | scripts/history.js:65 | the undo button is enabled iff the cursor has an entry below it |
| History.CanRedo | scripts/history.js:66 | the redo button is enabled iff the cursor has an entry above it |
| History.PushAll | scripts/history.js:11-29 | a sequence of pushes keeps the invariant, changes nothing while processing, and otherwise leaves the cursor on the last snapshot pushed, at the top of the stack |
| History.PushShape | scripts/history.js:11-29 | a push keeps the entries up to the cursor and appends the snapshot; at the limit the oldest entry is dropped and the cursor stays |
| History.PushDiscardsRedoBranch | scripts/history.js:17-21 | pushing in the middle of the history drops every entry after the cursor |
| History.PushEvictsOldest | scripts/history.js:21-26 | pushing onto a full stack evicts the oldest entry and keeps the cursor at 19 |
| History.PushAllFromEmpty | scripts/history.js:11-29 | pushes into a cleared history leave exactly the last 20 snapshots, with the cursor on the newest |
| History.UndoOfferedAfterPushes | scripts/history.js:62-67 | after pushes into a cleared history, undo is offered iff at least two snapshots were pushed, and redo is not offered |
| History.OverflowForgetsOldest | scripts/history.js:22-26 | after more than 20 pushes only the newest 20 remain; undoing 19 times reaches the oldest one kept, and no further undo is offered |
| History.PushAllTop | scripts/history.js:11-29 | after up to 20 pushes from any state, those snapshots are the top of the stack in order, with the cursor on the last |
| History.UndoThenRedo | scripts/history.js:31-45 | undo restores the entry below the cursor; redo after it, with or without the completion, returns to the old cursor and restores its entry |
| History.UndoRedoTimes | scripts/history.js:31-45 | k undos followed by k redos return to the same cursor and stack |
| History.OfferedIffEffective | scripts/history.js:62-67 | each button is enabled exactly when pressing it restores a snapshot and changes the state |
| History.ClearThenPush | scripts/main.js:102-103 | clearing and pushing the loaded scene leaves it as the only entry, with neither undo nor redo offered |
| History.UndoMutesPushes | scripts/history.js:12-53 | after an effective undo the restore flag is set, so a push is ignored until the completion clears the flag, after which it takes effect |
| History.RedoMutesPushes | scripts/history.js:12-53 | after an effective redo the restore flag is set, so a push is ignored until the completion clears the flag, after which it takes effect |
| History.DoublePushUndo | scripts/tools.js:307-312 | after the same snapshot is pushed twice, the first undo restores that same snapshot |
| History.HistoryManager.constructor | scripts/history.js:5-9 | the manager starts in the initial history |
| History.HistoryManager.Push | scripts/history.js:11-29 | the new state is `Pushed` of the old one |
| History.HistoryManager.Undo | scripts/history.js:31-37 | the new state and the snapshot to restore are `Undone` of the old state |
| History.HistoryManager.Redo | scripts/history.js:39-45 | the new state and the snapshot to restore are `Redone` of the old state |
| History.HistoryManager.FinishLoad | scripts/history.js:49-53 | the new state is `Finished` of the old one |
| History.HistoryManager.Clear | scripts/history.js:56-60 | the new state is `Cleared` of the old one |
| History.HistoryManager.CanUndoNow | scripts/history.js:65 | the undo button is enabled iff undo would restore a snapshot |
| History.HistoryManager.CanRedoNow | scripts/history.js:66 | the redo button is enabled iff redo would restore a snapshot |
| Scene.Serialize | scripts/history.js:14 | a snapshot has no more objects than the scene; `Scene.SerializeMembers` states which ones it keeps |
| Scene.SerializeMembers | scripts/history.js:14 | the snapshot holds exactly the scene's objects that are not excluded from export |
| Scene.FirstImage | scripts/tools.js:86 | the result is the position of the first image of the scene; none means the scene has no image |
| Geometry.Round | scripts/tools.js:186 | `Math.round` gives the integer within half a unit, halves rounded up |
| Geometry.InitialFrame | scripts/tools.js:105-109 | the initial frame is 80% of the image's width and height, with equal margins on opposite sides |
| Geometry.MaskBands | scripts/tools.js:113-158 | the four bands: the top one spans the image's width down to the frame, the bottom one from the frame to the image's bottom, the left and right ones fill the frame's height between the image's edges and the frame |
| Geometry.ClampLeft | scripts/tools.js:214-218 | a frame overhanging the right edge is aligned with it; otherwise a frame starting left of the image is moved right to the image's left edge |
| Geometry.ClampTop | scripts/tools.js:215-221 | a frame overhanging the bottom edge is aligned with it; otherwise a frame starting above the image is moved down to the image's top edge |
| Geometry.Clamped | scripts/tools.js:210-225 | the clamp keeps the frame's size and aligns a frame that overhangs the right or the bottom edge with that edge |
| Geometry.InitialFrameCentred | scripts/tools.js:105-109 | the initial frame is 80% of the image on each axis, centred, inside the image |
| Geometry.MaskTilesImage | scripts/tools.js:113-158 | for a frame inside the image, the frame and the four bands cover each point of the image once and nothing outside it |
| Geometry.MaskBandsNonNegative | scripts/tools.js:113-158 | the four bands all have non-negative size iff the frame lies within the image |
| Geometry.ClampedWithin | scripts/tools.js:210-225 | a frame no larger than the image lies within it after the clamp |
| Geometry.ClampKeepsFrameWithin | scripts/tools.js:210-225 | the clamp does not move a frame that is already inside the image |
| Geometry.ClampIsStandardWhenFits | scripts/tools.js:210-225 | for a frame that fits, the clamp is the usual max-of-min on each axis |
| Geometry.ClampIdempotentWhenFits | scripts/tools.js:210-225 | for a frame that fits, clamping twice is clamping once |
| Geometry.ClampAlternatesWhenTooWide | scripts/tools.js:210-225 | a frame wider than the image and overhanging both sides is aligned right by one clamp and left by the next |
| Geometry.TileContains | scripts/tools.js:386-404 | a point lies in tile (i, j) iff i and j are the floors of its coordinates over the slice size |
| Geometry.Tile | scripts/tools.js:388-389 | tile (r, c) is one slice in size, spanning columns c to c + 1 and rows r to r + 1 of slice widths and heights |
| Geometry.GridTiles | scripts/tools.js:374-404 | each point of the canvas lies in exactly one tile of the rows x cols grid |
| Strings.IntToStringShape | scripts/tools.js:186 | the decimal text of an integer is a minus sign for negatives followed by digits |
| Strings.ParseNatToString | scripts/tools.js:402 | the decimal text of a number reads back as that number |
| Strings.NatToStringInjective | scripts/tools.js:402 | distinct numbers have distinct decimal texts |
| Strings.IntToStringInjective | scripts/tools.js:186 | distinct integers have distinct decimal texts |
| Strings.NumberPairInjective | scripts/tools.js:402 | a text made of a fixed prefix, a number, a non-digit separator, a number and a fixed suffix determines both numbers |
| Fabric.Canvas.constructor | scripts/main.js:15-34 | a new canvas is empty, in selection mode, not drawing, and wired to the history; its 0 x 0 size and missing brush are placeholders for fabric's element size and default pencil, which `loadContent` and `initMosaic` set before anything reads them |
| Fabric.Canvas.Add | scripts/main.js:32-34 | the object is appended on top under a fresh id, and the history is pushed unless the object is internal |
| Fabric.Canvas.AddEach | scripts/tools.js:160-161 | the objects are appended in order under consecutive fresh ids, with one push per object of the scene after its addition |
| Fabric.Canvas.AddNext | scripts/main.js:32-34 | one step of the additions: the next object gets the next fresh id on top, and the history grows by the snapshot of the scene with it |
| Fabric.Canvas.Remove | scripts/tools.js:289-292 | the object leaves the z-order and the others keep their order |
| Fabric.Canvas.RemoveEach | scripts/tools.js:289 | the given objects leave the z-order and the others keep their order |
| Fabric.Canvas.Clear | scripts/main.js:76 | the canvas holds no object |
| Fabric.Canvas.SetDimensions | scripts/main.js:87 | the canvas takes the given size |
| Fabric.Canvas.Set | scripts/tools.js:223-225 | only the given object changes, to the given value |
| Fabric.Canvas.ForEachObject | scripts/tools.js:679-685 | every object on the canvas is replaced by the callback's result, in place, and no other entry changes |
| Fabric.Canvas.ObjectModified | scripts/main.js:31 | a finished user edit pushes the serialized scene |
| Fabric.Canvas.LoadFromJSON | scripts/history.js:47-49 | the canvas shows exactly the snapshot and, with pushes muted, the history is unchanged |
| Tools.Unlock | scripts/tools.js:77-80 | the object becomes selectable and evented |
| Tools.UnlockInteractive | scripts/tools.js:77-80 | unlocking a scene that is already interactive changes nothing |
| Tools.Lock | scripts/tools.js:94-97 | the object is neither selectable nor evented |
| Tools.ToolObject | scripts/tools.js:432-547 | a tool adds at most one object, which is interactive, exported and not internal, so it is pushed |
| Tools.Overlay | scripts/tools.js:113-158 | a mask overlay is a rectangle over its band, left out of snapshots, inert and not internal |
| Tools.Frame | scripts/tools.js:164-182 | the crop frame is a rectangle over the frame box, included in snapshots, interactive and not internal |
| Tools.LabelText | scripts/tools.js:185 | the label starts with the rounded width followed by " x " and ends with the rounded height |
| Tools.SizeLabel | scripts/tools.js:184-196 | the size label shows `LabelText` of the frame's size, sits 10 below the frame centred on it, and is left out of snapshots, inert and not internal |
| Tools.NewText | scripts/tools.js:432-442 | the new text reads "输入文字..." at (100, 100), and is interactive, exported and not internal |
| Tools.NewRect | scripts/tools.js:506-519 | the new rectangle covers 100 x 100 at (100, 100), and is interactive, exported and not internal |
| Tools.NewCircle | scripts/tools.js:521-533 | the new circle of radius 50 covers 100 x 100 at (100, 100), and is interactive, exported and not internal |
| Tools.NewArrow | scripts/tools.js:535-547 | the arrow path of 50 x 20 drawn at scale 2 covers 100 x 40 at (100, 100), and is interactive, exported and not internal |
| Tools.CroppedImage | scripts/tools.js:304-307 | the cut-out image sits at the origin with the size of the cropped region |
| Tools.UpdatedEntries | scripts/tools.js:203-269 | the handler moves the frame by the clamp, sets each overlay to its band around the moved frame, rewrites the label, and leaves every other object alone |
| Tools.UpdatedStore | scripts/tools.js:203-269 | the handler keeps the set of ids and leaves every object outside the crop session as it was; `Tools.UpdatedEntries` states the new session objects |
| Tools.CropEntrySnapshots | scripts/tools.js:113-199 | the six additions of the crop start push the old scene four times, then the scene with the frame twice |
| Tools.CropEntryHistory | scripts/tools.js:160-199 | after the crop start the six snapshots top the stack; the first undo restores the scene with the frame, the second the scene without it |
| Tools.CropEntryLayout | scripts/tools.js:100-161 | at the crop start the frame is the centred 80% frame, the overlays are its four bands of non-negative size, and together they cover the image once |
| Tools.ScaffoldingTiles | scripts/tools.js:228-259 | for any frame inside the image, the frame and its four overlays cover each point of the image once and nothing outside it |
| Tools.CropEntryRoles | scripts/tools.js:113-196 | the label shows the frame's rounded size; overlays and label are excluded from export and inert; the frame is interactive; none is internal |
| Tools.UpdatedBoxes | scripts/tools.js:203-269 | after the handler the frame covers the clamped rectangle and each unit-scale overlay covers its band |
| Tools.UpdateMovesFrame | scripts/tools.js:203-269 | the handler changes only the frame's origin, keeps its size, leaves a frame inside the image in place, and relabels with the frame's size |
| Tools.UpdateTilesImage | scripts/tools.js:203-269 | for a frame no larger than the image, after the handler the frame is inside the image and with the overlays covers the image once |
| Tools.LabelTextInjective | scripts/tools.js:262-266 | two labels are equal iff the rounded widths and the rounded heights are equal |
| Tools.LabelTextDetermines | scripts/tools.js:262-266 | equal labels come from equal rounded widths and equal rounded heights |
| Tools.RatioHeight | scripts/tools.js:323-335 | there is no target height exactly for the free ratio |
| Tools.WithHeight | scripts/tools.js:338-339 | the ratio preset changes only the frame's height and vertical scale; the width on screen stays, and the height on screen becomes the target over the old vertical scale |
| Tools.RatioResult | scripts/tools.js:317-344 | the preset keeps origin and width and sets the height to the target over the old vertical scale, which equals the target iff that scale was 1 |
| Tools.ArchiveNameInjective | scripts/tools.js:409 | distinct grid shapes give distinct archive names |
| Tools.SliceName | scripts/tools.js:402 | a slice file name starts with "slice_" and ends with ".png"; `Tools.SliceNameInjective` states it names one cell |
| Tools.ArchiveName | scripts/tools.js:409 | the archive name starts with "sliced_images_" and ends with ".zip"; `Tools.ArchiveNameInjective` states it names one grid shape |
| Tools.SliceAt | scripts/tools.js:386-404 | entry k of the grid is named after row k / cols and column k % cols and covers one slice at that row and column |
| Tools.SliceGrid | scripts/tools.js:386-404 | the slice list has rows x cols entries, entry k being the k-th cell in row-major order |
| Tools.AppendSliceRow | scripts/tools.js:387-403 | the inner loop appends one row of slices in column order |
| Tools.SliceGridRowMajor | scripts/tools.js:386-404 | cell (r, c) is entry r * cols + c, named with the 1-based row and column |
| Tools.SliceNameInjective | scripts/tools.js:402 | two cells get the same file name iff they are the same cell |
| Tools.SliceGridNamesDistinct | scripts/tools.js:386-404 | no two entries of the archive share a file name |
| Tools.SliceAtNamesDistinct | scripts/tools.js:386-404 | distinct positions of the row-major enumeration give distinct file names |
| Tools.SliceGridCovers | scripts/tools.js:374-404 | each point of the canvas lies in the region of exactly one slice |
| Tools.FilterList | scripts/tools.js:555-576 | the list has at most three filters, each with a non-zero amount and each one of the three parameters; `Tools.FilterListSpec` states which and in what order |
| Tools.FilterListSpec | scripts/tools.js:555-576 | the filter list has one entry per non-zero parameter, carrying it, none for zero ones, in the fixed order brightness, contrast, saturation |
| Tools.Rescaled | scripts/tools.js:679-685 | a resized object changes only its origin and scales, and its rectangle is the old one with each coordinate multiplied by the factors |
| Tools.RescaledKeepsLayout | scripts/tools.js:671-688 | a resized object keeps its position and size relative to the canvas |
| Tools.RescaledStaysInside | scripts/tools.js:671-688 | an object inside the old canvas lies inside the resized one |
| Tools.RotatedSize | scripts/tools.js:468-472 | the canvas size is kept or swapped; swapped for a quarter turn either way, kept for none or a half turn |
| Tools.Revolved | scripts/tools.js:475-493 | the rotate callback changes only the object's origin, and adds the turn to its angle |
| Tools.RevolvedKeepsDistance | scripts/tools.js:475-493 | the origin's new offset from the new centre has the old offset's squared length times cos² + sin², so for a true rotation its distance from the centre is kept |
| Tools.RotatedSizeLaws | scripts/tools.js:468-472 | rotating back restores the size; a half turn keeps it; a quarter turn either way swaps it; four quarter turns restore it |
| Tools.RevolvedBack | scripts/tools.js:475-493 | rotating an object and rotating it back returns it exactly, angle included |
| Tools.RevolvedInverse | scripts/tools.js:475-493 | for any pair of canvas sizes, revolving about the centres and revolving back by the opposite turn returns the object exactly |
| Tools.RevolvedCentre | scripts/tools.js:475-493 | an object at the canvas centre stays at the centre, and only origin and angle change |
| Tools.ToolManager.constructor | scripts/tools.js:5-9 | the manager starts on the select tool with no crop session |
| Tools.ToolManager.ResetView | scripts/tools.js:57-81 | the scene after the reset is entirely interactive |
| Tools.ToolManager.ResetViewIdle | scripts/tools.js:57-81 | with no crop session and an interactive scene, the reset leaves the scene as it is |
| Tools.ToolManager.ResetCanvasState | scripts/tools.js:57-81 | drawing and group selection off, the crop objects removed and forgotten, every remaining object unlocked |
| Tools.ToolManager.RemoveScaffolding | scripts/tools.js:61-75 | the frame, the overlays and the label leave the canvas and the references are cleared |
| Tools.ToolManager.InitCrop | scripts/tools.js:83-277 | without an image nothing changes; otherwise the scene is locked and the six crop objects are added under fresh ids, one push each, with the handler capturing the image rectangle |
| Tools.ToolManager.StartCrop | scripts/tools.js:100-199 | the six crop objects are appended, the references and the handler point at them, and the history is pushed once per addition |
| Tools.ToolManager.UpdateCropOverlays | scripts/tools.js:203-269 | the store after the handler is `UpdatedStore` of the old one |
| Tools.ToolManager.ClampCropFrame | scripts/tools.js:204-226 | only the frame's origin changes, to the clamped one |
| Tools.ToolManager.PlaceCropOverlays | scripts/tools.js:228-259 | each overlay is set to its band around the frame, and nothing else changes |
| Tools.ToolManager.PlaceCropLabel | scripts/tools.js:262-266 | the label is rewritten and moved under the frame, and nothing else changes |
| Tools.ToolManager.DragCropFrame | scripts/tools.js:271-272 | after a drag or scale, the store is the handler's result on the dragged frame |
| Tools.ToolManager.SetCropRatio | scripts/tools.js:317-344 | nothing changes without a frame or for free; otherwise the frame takes the target height and the handler runs |
| Tools.ToolManager.ApplyCrop | scripts/tools.js:279-301 | nothing happens without a frame; otherwise the crop objects leave the canvas and the frame's rectangle is the exported region |
| Tools.ToolManager.CroppedImageLoaded | scripts/tools.js:304-314 | the canvas holds only the cut-out image at its size, the references are cleared, and the history receives two pushes of that scene |
| Tools.ToolManager.ApplyGridSlice | scripts/tools.js:359-409 | invalid input iff a count is missing or not positive; no image iff the input is valid and the scene has no image; otherwise the grid of slices and the archive name |
| Tools.ToolManager.ApplyFilters | scripts/tools.js:549-581 | without an image nothing changes; otherwise only the first image's filter list changes, to `FilterList` of the parameters |
| Tools.ToolManager.ResetFilters | scripts/tools.js:583-598 | without an image nothing changes; otherwise only the first image's filter list is emptied |
| Tools.ToolManager.ApplyResize | scripts/tools.js:671-688 | the canvas takes the new size, every object is rescaled by the two factors, and the resized scene is pushed |
| Tools.ToolManager.RotateImage | scripts/tools.js:463-504 | the canvas size follows `RotatedSize`, every object revolves about the centre, and the rotated scene is pushed |
| Tools.ToolManager.Activate | scripts/tools.js:11-55 | after the reset the chosen tool starts on the reset scene, as `ToolStarted` describes |
| Tools.ToolManager.RunTool | scripts/tools.js:15-54 | each tool's start-up: drawing only for mosaic, group selection only for select, the tool's object added with its push, a crop session for crop with an image |
| Tools.ToolManager.AddToolShape | scripts/tools.js:27-53 | the text, rectangle, circle and arrow tools append their object with its push and change nothing else, as `ToolStarted` describes |
| Tools.ToolManager.InitMosaic | scripts/tools.js:422-430 | free drawing is on, with the 20-pixel pencil |
| Tools.ToolManager.InitGridSlice | scripts/tools.js:346-357 | without an image the select tool is activated; otherwise nothing changes |
| Editor.FitScale | scripts/main.js:82-85 | an image that fits keeps scale 1; otherwise the scale is one of the two ratios of the zone to the image |
| Editor.FitScaleFits | scripts/main.js:82-85 | the fit scale is at most 1, equals 1 iff the image fits, fits the scaled image on both axes, and is positive for a zone of positive size |
| Editor.FitScaleFills | scripts/main.js:82-85 | an image that does not fit fills the zone on one axis, and keeps its aspect ratio |
| Editor.FitScaleLargest | scripts/main.js:82-85 | every scale that fits the image without enlarging it is at most the fit scale |
| Editor.LoadedImage | scripts/main.js:87-91 | the loaded image is scaled on both axes by the fit scale |
| Editor.Editor.constructor | scripts/main.js:5 | before any image there is no canvas, the history is empty and the select tool is current |
| Editor.Editor.LoadContent | scripts/main.js:71-105 | the canvas shows only the scaled image at the fitted size, and the history holds only that scene, with neither undo nor redo offered; an existing canvas keeps its drawing mode, group selection and brush, and a new one starts in selection mode without drawing |
| Editor.Editor.InitCanvas | scripts/main.js:73 | the canvas is created on first use, in selection mode and not drawing, and kept afterwards |
| Editor.Editor.StartHistory | scripts/main.js:102-103 | the history is cleared and holds only the given snapshot |
| Editor.Editor.ShowImage | scripts/main.js:75-91 | the canvas is emptied, sized to the scaled image, and shows only that image; its drawing mode, group selection and brush stay as they were |
| Editor.Editor.CenterObject | scripts/main.js:91 | an object as large as the canvas is moved to the origin |
| Editor.Editor.ResetEditor | scripts/main.js:110-132 | without a canvas, or when declined, nothing changes; otherwise the canvas is empty and 0 x 0, the history is cleared, and the select tool is active |
| Editor.Editor.Undo | scripts/history.js:31-49 | the history steps by `Undone`, and the canvas shows the restored snapshot when there is one |
| Editor.Editor.Redo | scripts/history.js:39-49 | the history steps by `Redone`, and the canvas shows the restored snapshot when there is one |

## Left out

- Rendering (`renderAll`, `setCoords`, `setActiveObject`) and the welcome screen and button transitions: they have no effect on the modelled state.
- fabric's `toJSON` format and `toDataURL` pixels: a snapshot is the exported object list, and the cropped image is an object value.
- Fields that fabric's `toJSON` does not export: a snapshot keeps the whole object, including `selectable`, `evented`, `isInternal` and exact coordinates. An undo during a crop session therefore restores the locked scene in the model, where the program's reload makes it interactive again.
- The property panels, `updatePropertyPanel`, the sliders' markup, `alert` and `confirm`: the confirmation answer is a parameter, and the undo/redo button enabling is modelled by `CanUndoNow` and `CanRedoNow`.
- The file input, drag and drop, the clipboard, the download button and the watermark picker: these are browser I/O; the image-watermark tool adds nothing to the canvas until a file is chosen.
- The tail of grid slicing: `toDataURL`, base64 and JSZip, the download link, the button text and the alerts. The model stops at the list of named slice regions and the archive name.
- The pixel effect of the filters: only the filter list on the image is modelled.
- Floating point: coordinates are exact reals, and `Math.round` is the floor of x + 0.5. `Math.cos` and `Math.sin` of the rotation are taken as parameters.
- Asynchronous callbacks (`fromURL`, `loadFromJSON`): each is an explicit method (`CroppedImageLoaded`, `LoadContent`, `HistoryManager.FinishLoad`) that the caller runs when the callback would fire.
- The order in which fabric fires events after a user drag: `object:modified` and the frame's own `modified` handler (tools.js:273) are two separate methods, `Fabric.Canvas.ObjectModified` and `Tools.ToolManager.UpdateCropOverlays`.
- Text metrics and styling (fonts, colours, padding, origin `center`): a text object has size 0 in the model.
- The brush-width slider (tools.js:632-634), `resizeCanvasToFit` (empty) and the keyboard shortcuts, which call the same undo and redo as the buttons.
- `assets/logo_design_code.js` and `background.js`: not part of this model.
- Tools.ToolManager.ApplyResize: `parseInt` returning NaN is not modelled (w and h are integers). It requires a canvas of non-zero size or one with no objects. The empty case never arises in the program, because the resize panel, and with it the apply button, is only built when the canvas has an object (tools.js:656-657); the model allows it and leaves the store as it is. A 0 x 0 canvas that holds objects (a shape added after `resetEditor`, then the resize tool) is excluded, because the code's factors are infinite there and reals have no infinity. It also requires that no crop session is open, which holds because the panel only appears after `activate('resize')`.
- Tools.ToolManager.ApplyGridSlice: an input `parseInt` cannot read is `None`; a count given with a fraction is not modelled.
- Tools.ToolManager.RotateImage: requires that no crop session is open, which holds because the panel only appears after `activate('rotate')`.
- Tools.ToolManager.DragCropFrame: requires the new vertical scale to be non-zero, because `setCropRatio` later divides by it.
- Tools.ToolManager.InitCrop: requires that no crop session is open, which holds because `activate` resets the crop state first.
- Tools.ToolManager.Activate: requires a canvas, because the code dereferences it.
- Editor.FitScaleFits: requires a positive image size, because the code divides by it.
- Editor.Editor.LoadContent: requires a positive image size, because the code divides by it.
- Editor.Editor.Undo: requires a canvas. The history holds two entries only after an image was loaded, which creates the canvas.
- Editor.Editor.Redo: requires a canvas, for the same reason as `Undo`.
- Tools.RevolvedBack: requires cos² + sin² == 1 exactly; floating-point rounding of the trigonometric functions is not modelled.
