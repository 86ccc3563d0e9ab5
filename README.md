# Holy editors: a verified model of the runtime cores

This project models the interactive runtime of three programs of the Holy
editor family, all written in Go on GLFW and OpenGL. Everything that draws
or talks to the window system is left out.

- **holy-engine-base.** The physics sandbox. It holds a list of scene
  objects with a fixed-step integrator and a ground plane, and a
  ray/box slab test for picking. Its hand tool picks, holds, R-rotates,
  releases and throws objects. Its immediate-mode UI has buttons and
  sliders that share one "active element" token, plus an E spawn menu
  and the object factories.
- **holy-mm.** The model maker. It has the `.holym` text format parser,
  which scans `v`, `vt`, `f` and `tex_path` lines and then de-duplicates
  (position, texture coordinate) pairs into an 8-float interleaved vertex
  buffer with an index buffer. It also has its own UI variant (the button
  has no token gate), the object factories and the model import.
- **holy-spinning-models.** The OBJ viewer. Its de-duplication loop keys
  vertices by their (position, uv) value and emits 5 floats per vertex.
  Its processInput has the rising-edge V, R and G toggles, and its cursor
  callback handles right-drag look and left-drag rotation. updateScene
  does the automatic spin.

## Modules

- **Vectors, Outcomes:** shared values, such as Vec3, Box and Option/Result.
- **Text:** strings.Fields, strings.Split, Atoi and `%d` printing. This
  includes what the parser and the object IDs need.
- **Physics:** one physics step of one body, the accumulator, and the
  held-object pose, all as pure functions.
- **Slab:** intersectRayAABB, as a loop proved against its description.
- **Camera:** mouse-look with the pitch clamp, WASD, the debounced key
  toggle and the pixel-to-NDC mapping.
- **Widgets:** isMouseOver, both handleButton variants, handleSlider, and
  UI passes over lists of widgets.
- **Dedup:** the shared specification of a de-duplicating vertex loop.
  Distinct keys in first-use order, each key's number, and the
  concatenated per-key data.
- **Engine:** the holy-engine-base AppCore. It is a class whose callbacks
  and frame methods change its fields.
- **Holym:** the `.holym` parser, as a declarative description
  (HolymScan, Holym) plus the loop-by-loop parser proved to compute it.
- **HolyMm:** the holy-mm AppCore.
- **Spinning:** the holy-spinning-models de-duplication loop and the
  viewer's AppCore.

## Modelling choices

- **Numbers.**
  - float32 values are Dafny `real`.
  - The ray test's `+Inf` upper bound is an explicit "unbounded" case.
  - uint32 indices are `nat`.
- **Foreign math is a parameter.** The callers receive these as function
  fields of the app classes:
  - cos and sin of `updateCameraAndProjection`, as the `frontOf` field,
  - `Normalize`,
  - the inverse-matrix unprojection of getRayFromMouse, as `rayDirection`,
  - `strconv.ParseFloat`,
  - `filepath.Base`,
  - the constant primitive tables,
  - whether a texture file loads.

  Only the pixel-to-NDC mapping of getRayFromMouse is modelled.
- **Callbacks.** The callbacks that `glfw.PollEvents` fires are a sequence
  of events handled in order at the start of a frame. Keys are sampled
  once per frame after the events.
- **The engine's click path.** The engine's release callback empties the
  active-element token before the UI pass. Because of that, no engine
  button can ever be clicked; see Findings. Engine.App uses the corrected
  frame: the release callback keeps the token, and EndFrame frees it after
  the UI pass.
- **The coloured vertex line.** In holy-mm, the coloured form
  `v X Y Z c R G B` is guarded by `len(fields) == 7` but reads
  `fields[7]`, which is a run-time index panic in Go. The parser model
  reports it as the error `ColorIndexPanic`. As a result, every
  successful parse has all-white vertex colours (Holym.VertexDataWhite).
  The scan reads files the way the editor does, so the parser and the
  import follow the code as written. The line scan with the guard
  corrected to eight fields, Holym.CorrectedScanLine, is stated beside it
  (see Findings).
- **Inverted bounding boxes.** On a box with min > max on some axis, the
  code's swap of t1 and t2 makes a non-parallel inverted axis behave like
  the corrected box (Slab.InvertedAxisLikeCorrected). An inverted axis
  that the ray runs parallel to always misses (Slab.InvertedParallelMisses).

## Model

| member | source | states |
|---|---|---|
| Physics.Step | holy-engine-base/main.go:581-617 | A kinematic object is only stopped: zero velocity and angular velocity, position and rotation kept. A dynamic one is grounded exactly when its integrated lowest point is below the plane. Then it rests exactly on it with vertical velocity 0 and x/z velocity and spin multiplied by 0.9; otherwise it moves semi-implicitly (gravity first, then position by the new velocity). Scale, box and kinematic flag never change. |
| Physics.IterateSnoc | holy-engine-base/main.go:557-560 | n + 1 fixed steps are n steps followed by one more. |
| Physics.KinematicIterate | holy-engine-base/main.go:581-587 | Any positive number of steps leaves a kinematic body stopped, where it was, and still kinematic. |
| Physics.RestingStep | holy-engine-base/main.go:590-614 | A dynamic body resting exactly on the plane with no vertical velocity keeps its height and zero vertical velocity over one step, stays grounded and dynamic, and has its x/z velocity damped. |
| Physics.DampedPow | holy-engine-base/main.go:611-614 | n dampings of a velocity component scale it by 0.9 to the n-th power. |
| Physics.RestingStays | holy-engine-base/main.go:590-614 | Over any number of steps a resting body keeps its height, zero vertical velocity and contact with the plane, and its horizontal velocity decays geometrically. |
| Physics.Drain | holy-engine-base/main.go:556-560 | The accumulator loop runs floor(60 · acc) steps and leaves acc - n · step, which lies in [0, PhysicsTimestep). |
| Physics.HoldPose | holy-engine-base/main.go:563-575 | The held object is put at the hold target and made kinematic, and its rotation advances by its angular velocity only while R-rotating. |
| Physics.HeldRotationFrozen | holy-engine-base/main.go:563-575 | On a frame that runs at least one physics step, the rotation integrated for a held object does not move it: each step has zeroed the spin the cursor callback set. |
| Engine.GameObject.constructor | holy-engine-base/main.go:1214-1231 | A new object is at the initial position, unrotated, of unit scale, at rest, dynamic and not grounded. |
| Engine.GameObject.StepPhysics | holy-engine-base/main.go:580-618 | The in-place loop body changes the object's physics fields exactly as Physics.Step says. |
| Slab.IntersectRayAabb | holy-engine-base/main.go:1094-1120 | The slab loop computes Slab.Intersect. A hit has t ≥ 0 and, on every non-parallel axis, the point at t lies between the axis's two planes. A parallel axis with the origin outside its slab misses. An origin inside the box hits at t = 0. A miss returns distance 0. The test is exact: it hits exactly when the ray meets the box at some t0 ≥ 0 (Slab.Reaches), and the distance it returns is the least such t0. |
| Slab.HitReaches | holy-engine-base/main.go:1094-1120 | A hit is a point where the ray meets the box: on each parallel axis the origin is inside the slab, on each other axis the point at the hit distance is. |
| Slab.ReachedHits | holy-engine-base/main.go:1094-1120 | Completeness: if the ray meets the box at some t0 ≥ 0, the test hits, at a distance no greater than t0. |
| Slab.ReachedOpen | holy-engine-base/main.go:1095-1117 | While the ray meets the box at t0, the running interval stays open after every axis and contains t0. |
| Slab.AxisStepKeeps | holy-engine-base/main.go:1099-1116 | One axis keeps an interval containing t0 open and containing t0, when the point at t0 (or, on a parallel axis, the origin) lies in that axis's slab. |
| Slab.ScaleBack | holy-engine-base/main.go:1103-1110 | On a non-parallel axis, t lies between the swapped entry and exit parameters exactly when the point at t lies between the axis's two planes. |
| Slab.OpenAxis | holy-engine-base/main.go:1103-1116 | Once a non-parallel axis has been visited and the interval is still open, the interval is bounded and lies within that axis's entry and exit parameters. |
| Slab.HitAxis | holy-engine-base/main.go:1103-1120 | On each non-parallel axis, the point at the hit distance lies between that axis's two planes. |
| Slab.MissStays | holy-engine-base/main.go:1099-1116 | A miss on one axis is final: the loop returns at once. |
| Slab.OpenBounds | holy-engine-base/main.go:1095-1117 | While the interval is open it is non-empty, starts at or after 0, and lies inside the entry/exit range of every non-parallel axis seen so far. |
| Slab.HitProperties | holy-engine-base/main.go:1094-1120 | A hit's distance is non-negative and lies within every non-parallel slab. |
| Slab.ParallelOutsideMisses | holy-engine-base/main.go:1099-1102 | A near-parallel axis whose origin lies outside the slab makes the test miss. |
| Slab.InsideOpen | holy-engine-base/main.go:1095-1117 | An origin inside the box keeps the interval open with tMin = 0 on every axis. |
| Slab.InsideHitsAtZero | holy-engine-base/main.go:1094-1120 | A ray starting inside the box hits at distance 0. |
| Slab.InvertedAxisLikeCorrected | holy-engine-base/main.go:1107-1109 | On a non-parallel axis, swapping that axis's min and max does not change the result: the swap of t1 and t2 repairs the inverted box. |
| Slab.SameStates | holy-engine-base/main.go:1103-1116 | The loop states of the box and of the box with one non-parallel axis exchanged agree after every axis. |
| Slab.InvertedParallelMisses | holy-engine-base/main.go:1099-1102 | A box inverted on a near-parallel axis always misses. |
| Slab.CentreRayScenario | holy-engine-base/main.go:1094-1120 | A ray from the origin down -Z enters the unit box centred at (0, 0, -5) at distance 4.5. |
| Camera.ClampPitch | holy-engine-base/main.go:268-273 | The pitch ends up in [-89, 89]; an in-range pitch is unchanged, and one out of range goes to the nearer limit. |
| Camera.LookStep | holy-engine-base/main.go:249-273 | Yaw and pitch move by 0.1 degrees per pixel of cursor offset, the pitch clamped to [-89, 89], and moving the mouse up raises the pitch. On a first sample after a reset the cursor is only recorded: the yaw is kept and the pitch only clamped. |
| Camera.FirstSampleStill | holy-engine-base/main.go:250-265 | The first sample after a reset leaves an in-range view where it was. |
| Camera.LookPitchDirection | holy-engine-base/main.go:256-273 | Moving the mouse up never lowers the pitch, moving it down never raises it, and a still mouse leaves the view unchanged. |
| Camera.CurrentSpeed | holy-engine-base/main.go:522-532 | The speed is positive: the base of 5, doubled for Shift, then times 5 for Caps Lock (50 with both). |
| Camera.WalkKeys | holy-engine-base/main.go:534-547 | W, S, A and D, checked one after another, move along the view direction and the normalised right vector by speed times the frame time. |
| Camera.WalkOppositeKeysCancel | holy-engine-base/main.go:534-547 | With W and S both up or both down, and likewise A and D, the camera does not move. |
| Camera.ToggleStep | holy-spinning-models/main.go:521-532 | A debounced key flips its flag exactly on a rising edge (down now, up in the previous frame) and remembers the sample. |
| Camera.ToggleParity | holy-spinning-models/main.go:521-545 | Over any run of frames the flag ends flipped exactly when the number of rising edges is odd, and the last sample is remembered. |
| Camera.HoldFlipsOnce | holy-spinning-models/main.go:521-545 | A key held down for any number of frames has at most one rising edge. |
| Camera.NdcLandmarks | holy-engine-base/main.go:1066-1067 | The top-left corner maps to (-1, 1), the bottom-right to (1, -1) and the centre to (0, 0). |
| Camera.NdcInsideIff | holy-engine-base/main.go:1066-1067 | A cursor is inside the window exactly when its normalised device coordinates are in [-1, 1]. |
| Camera.NdcOrientation | holy-engine-base/main.go:1066-1067 | NDC x grows with screen x; NDC y falls as screen y grows. |
| Widgets.EngineButton | holy-engine-base/main.go:867-889 | A press over the button takes the token whoever held it. A click needs the hover, the released flag and the token. |
| Widgets.MmButton | holy-mm/main.go:575-593 | A click needs a release this frame; no token is read or written. The exact click condition is MmReleaseOverClicks and MmNoReleaseNoClick. |
| Widgets.Clamp | holy-engine-base/main.go:913 | The result is in [lo, hi]; an in-range value is kept, and one out of range goes to the nearer bound. |
| Widgets.Slider | holy-engine-base/main.go:892-922 | The knob stays on the track. The value changes only while the slider holds the token: it follows the cursor, clamped to [min, max]. The token is claimed only when empty, and only on a press over the slider. |
| Widgets.DragValue | holy-engine-base/main.go:911-913 | A dragged value is the cursor's fraction of the track mapped to [min, max]; left of the track it is min, right of it max. |
| Widgets.Pass | holy-engine-base/main.go:642-795 | A UI pass runs the widgets in order, each seeing the token the one before left, and produces one output per widget. |
| Widgets.OnEventsSettled | holy-engine-base/main.go:294-323 | Starting settled, after any sequence of cursor, press and release events a set released flag still means the button is up and, because the release callback empties it, that the token is empty. |
| Widgets.SettledPassNoClick | holy-engine-base/main.go:874-883 | In a settled state, the engine's UI pass keeps the token empty on a release frame and clicks no button. |
| Widgets.AsWrittenEngineNeverClicks | holy-engine-base/main.go:305-314 | As written, a frame that starts with the released flag clear, whatever cursor and button events arrive, runs a UI pass in which no engine button reports a click. |
| Widgets.CorrectedEndFrame | holy-engine-base/main.go:1565-1566 | In the corrected frame end, the released flag is cleared and the token is freed only after a release frame. |
| Widgets.CorrectedPressThenReleaseClicks | holy-engine-base/main.go:874-883 | With the correction, a press over a button in one frame and a release over it in the next clicks it, and the token is free afterwards. |
| Widgets.CorrectedNoDragOnClick | holy-engine-base/main.go:880-883 | With the correction, releasing over a button that another widget was pressed for does not click it. |
| Widgets.ButtonStealsToken | holy-engine-base/main.go:874-878 | A pressed engine button takes the token from a slider being dragged, so a later slider in the pass stops following the cursor. |
| Widgets.FirstSliderWins | holy-engine-base/main.go:918-921 | Sliders never take the token from each other: of two hovered sliders, the first in the pass claims it. |
| Widgets.MmReleaseOverClicks | holy-mm/main.go:588-591 | holy-mm's button clicks on any release over it, even in the release frame and whoever held the token. |
| Widgets.MmNoReleaseNoClick | holy-mm/main.go:588-591 | No holy-mm button clicks in a frame without a release. |
| Widgets.AxisIdsDistinct | holy-engine-base/main.go:721-738 | The three slider IDs of a vector (`pos_x`, `pos_y`, `pos_z`) are non-empty and pairwise different. |
| Widgets.SlidersFrom | holy-engine-base/main.go:721-738 | Only the slider that holds the token when its turn comes moves its component, and always into [min, max]. The token changes only from empty to one of the three IDs. |
| Text.Fields | holy-mm/main.go:781 | strings.Fields yields non-empty fields free of white space. |
| Text.FieldsUnwords | holy-mm/main.go:781 | Fields undoes joining words with single spaces. |
| Text.Split | holy-mm/main.go:814 | strings.Split gives one more part than there are separators, and no part holds one. |
| Text.JoinSplit | holy-mm/main.go:814 | Joining the parts with the separator gives back the split string. |
| Text.SplitTwo | holy-mm/main.go:814-817 | Two separator-free strings joined by `/` split back into exactly those two parts. |
| Text.SplitNone | holy-mm/main.go:814-817 | A token without `/` is one part, so the face format rejects it. |
| Text.Decimal | holy-engine-base/main.go:1307 | `%d` prints a non-empty string of digits. |
| Text.DigitsValueDecimal | holy-engine-base/main.go:1307 | The printed digits have the printed value. |
| Text.AtoiDecimal | holy-mm/main.go:818-819 | Atoi reads back what `%d` printed, with or without a minus sign. |
| Text.AfterLastOf | holy-engine-base/main.go:1307 | The text after the last `_` of prefix + `_` + digits is the digits. |
| Text.AfterLastAbsent | holy-engine-base/main.go:1341-1343 | A string without the character has no text after it. |
| Text.IdNumberOf | holy-engine-base/main.go:1305-1317 | An ID built as prefix + `_` + serial carries that serial. |
| Text.NoSerialWithoutUnderscore | holy-engine-base/main.go:1341-1343 | "GroundPlane" carries no serial, so it never collides with a factory ID. |
| Engine.Best | holy-engine-base/main.go:1129-1154 | The pick is an object that qualifies: eligible, hit, and nearer than PickupRange. |
| Engine.BestIsNearest | holy-engine-base/main.go:1148-1152 | No qualifying object is nearer than the pick, and every qualifying object listed before it is strictly farther, so the earliest wins a tie. |
| Engine.BestNoneIff | holy-engine-base/main.go:1129-1154 | Nothing is picked exactly when no object qualifies. |
| Engine.PickStep | holy-engine-base/main.go:1148-1152 | One turn of the search loop: the running best changes to the new object exactly when that object qualifies and is strictly nearer than the closest distance so far. |
| Engine.ObjectList | holy-engine-base/main.go:681-704 | The object list selects only a listed object, never the ground. |
| Engine.AppendedSerial | holy-engine-base/main.go:1305-1330 | Appending an object named with the next serial keeps "object i is named with serial i", and the new ID is not the ground's. |
| Engine.SpawnItemsExclusive | holy-engine-base/main.go:812-854 | The two spawn-menu items never both click in one pass, so a spawn-menu frame creates at most one object. |
| Engine.ProbesOfAt | holy-engine-base/main.go:1129-1154 | Probe i of the scene is the slab test's answer for object i, or "not pickable" for the ground and the held object. |
| Engine.App.IdsUnique | holy-engine-base/main.go:1298-1337 | In a valid scene, object IDs are unique. |
| Engine.App.PickTargetEligible | holy-engine-base/main.go:1131-1133 | The pick is never the ground and never the object already held. |
| Engine.App.PickTargetNearest | holy-engine-base/main.go:1129-1154 | The pick is hit within PickupRange along the cursor ray, no pickable object is hit nearer, and every pickable object listed before it is hit farther. |
| Engine.App.PickTargetMeetsNearest | holy-engine-base/main.go:1129-1154 | In terms of the boxes: the cursor ray meets the picked box at the reported distance, and meets no other pickable box at a smaller parameter. |
| Engine.App.PickTargetNoneIff | holy-engine-base/main.go:1129-1154 | Nothing is picked exactly when no pickable object is hit within range. |
| Engine.App.Consider | holy-engine-base/main.go:1137-1152 | One object of the loop is taken exactly when its world box is hit nearer than PickupRange and nearer than the best so far. |
| Engine.App.ScanStep | holy-engine-base/main.go:1129-1154 | One turn of the search loop keeps the running best equal to the Best of the objects seen. |
| Engine.App.ScanObjects | holy-engine-base/main.go:1126-1154 | The search loop returns the object Best names, or nil when nothing qualifies. |
| Engine.App.FindPick | holy-engine-base/main.go:1124-1154 | tryPickObject's search along the cursor ray finds exactly PickTarget. |
| Engine.App.Grab | holy-engine-base/main.go:1158-1160 | The picked object becomes kinematic with zero velocity and zero angular velocity; nothing else about it changes. |
| Engine.App.TakeHold | holy-engine-base/main.go:1156-1162 | The picked object becomes the held one, kinematic and with zero velocity and angular velocity, and every other object is unchanged. |
| Engine.App.TryPickObject | holy-engine-base/main.go:1123-1163 | On success, the PickTarget object becomes held, kinematic and still. On failure, the hand and every object are unchanged. |
| Engine.App.ReleaseHeldObject | holy-engine-base/main.go:1166-1183 | With nothing held nothing changes. Otherwise the object becomes dynamic and is thrown at 10 along the normalised view direction, losing its spin unless R-rotating; the hand ends empty and not rotating. |
| Engine.App.OnCursorPos | holy-engine-base/main.go:244-292 | The cursor moves. While grabbed, not R-rotating and with no active widget, the view takes Camera.LookStep and the view direction is recomputed. While R-rotating, the held object's angular velocity becomes 0.1 times the y and x offsets since the last rotation sample. Otherwise the first-sample flag is re-armed. |
| Engine.App.MouseLook | holy-engine-base/main.go:249-274 | The mouse-look branch: yaw and pitch as LookStep says, and the view direction recomputed. |
| Engine.App.SpinHeld | holy-engine-base/main.go:275-288 | The rotation branch: the held object's angular velocity from the offsets since the last rotation sample. |
| Engine.App.OnLeftPress | holy-engine-base/main.go:296-303 | A press sets the pressed flag and clears the released flag. While grabbed with no active widget it tries a pick; otherwise the hand and the objects are unchanged. |
| Engine.App.OnLeftRelease | holy-engine-base/main.go:305-313 | A release sets the released flag, clears pressed, and lets go of the held object as ReleaseHeldObject does. The token is kept: the corrected frame frees it in EndFrame. |
| Engine.App.OnMouseButton | holy-engine-base/main.go:294-323 | Left press and release as above; the right button's state is recorded; other buttons change nothing. |
| Engine.App.OnScroll | holy-engine-base/main.go:325-329 | While holding, the wheel moves the hold distance by 0.1 per step, clamped to [1, 5]; with nothing held nothing changes. |
| Engine.App.OnFramebufferSize | holy-engine-base/main.go:237-242 | The new window size is stored, and the view is left as it was. |
| Engine.App.Dispatch | holy-engine-base/main.go:237-329 | One queued window event, a size, cursor, button or scroll event, goes through its callback, and the app stays valid. |
| Engine.App.PollEvents | holy-engine-base/main.go:461 | The queued events go through their callbacks in order, and the app stays valid. |
| Engine.App.HandleEscape | holy-engine-base/main.go:463-478 | ESC, sampled every frame, toggles the grab and re-arms the first sample. Ungrabbing lets go of the held object. |
| Engine.App.HandleEKey | holy-engine-base/main.go:481-498 | A rising edge of E flips the spawn menu. Opening it frees the cursor and lets go of the held object; closing it grabs the cursor. Without an edge nothing changes. |
| Engine.App.HandleRKey | holy-engine-base/main.go:502-518 | While holding, R down starts rotation and takes the cursor as the reference, and R up stops it. With nothing held nothing changes. |
| Engine.App.MoveCamera | holy-engine-base/main.go:521-550 | WASD moves the camera only while mouse-look is on, by CurrentSpeed times the frame time. |
| Engine.App.ToggleKeys | holy-engine-base/main.go:463-498 | ESC and then E; a frame that opens the menu ends with the hand empty and the cursor free. |
| Engine.App.ProcessInput | holy-engine-base/main.go:460-551 | Events, then ESC, E, R and WASD. The menu follows E's rising edge; opening it always empties the hand and frees the cursor, and closing it grabs the cursor. |
| Engine.App.UpdatePhysics | holy-engine-base/main.go:579-619 | Every object takes one Physics.Step. |
| Engine.App.RunPhysicsSteps | holy-engine-base/main.go:556-560 | The accumulator loop runs Drain's number of steps on every object and leaves Drain's remainder. |
| Engine.App.PlaceHeldObject | holy-engine-base/main.go:563-575 | The held object takes HoldPose at the point holdDistance in front of the camera. |
| Engine.App.UpdateEngine | holy-engine-base/main.go:554-576 | The physics steps first, then the held-object pose. The accumulator is left with Physics.Drain's remainder, so in [0, step). Every object but the held one has taken Drain's number of steps, and the held one takes HoldPose of its stepped state. |
| Engine.App.HandleButton | holy-engine-base/main.go:867-889 | The engine's handleButton, as Widgets.EngineButton says. |
| Engine.App.HandleSlider | holy-engine-base/main.go:892-922 | handleSlider returns the value it writes through `*value`, as Widgets.Slider says. |
| Engine.App.ObjectListPass | holy-engine-base/main.go:681-704 | The object-list loop leaves the token and the selection that ObjectList describes. |
| Engine.App.EditVector | holy-engine-base/main.go:721-738 | Three sliders edit a vector's components as Widgets.VectorSliders says. |
| Engine.App.PropertySliders | holy-engine-base/main.go:721-757 | Position sliders in [-20, 20] and scale sliders in [0.01, 5] edit the selected object, and nothing else about it changes. |
| Engine.App.KinematicToggle | holy-engine-base/main.go:775-788 | The toggle is not offered for the held object, which then changes nothing. Otherwise a click flips the kinematic flag, and an object made dynamic starts with zero velocity and angular velocity; without a click nothing about the object changes. |
| Engine.App.PropertiesPanel | holy-engine-base/main.go:709-792 | The sliders and the toggle together: of the mouse state only the token changes, and the selected object keeps its ID. |
| Engine.App.DrawCustomUI | holy-engine-base/main.go:642-795 | The Import button, the object list and the properties panel keep the app valid, and of the mouse state only the token changes. |
| Engine.App.CreateGameObject | holy-engine-base/main.go:1214-1270 | A fresh object in createGameObject's initial state is appended, and the serial counter moves on. |
| Engine.App.CreatePrimitive | holy-engine-base/main.go:1298-1337 | "cube", "plane" or "sphere" appends a fresh selected object named Shape_serial, with the sphere as a cube stand-in and the plane static and massless. Any other shape changes nothing. |
| Engine.App.CreateGroundPlane | holy-engine-base/main.go:1340-1355 | The static "GroundPlane": a unit plane at the ground height, scaled 100 x 1 x 100. |
| Engine.App.SpawnAndGrab | holy-engine-base/main.go:826-834 | A spawn click puts a new primitive InitialHoldDistance in front of the camera straight into the hand, closes the menu and grabs the cursor. |
| Engine.App.DrawEGUI | holy-engine-base/main.go:798-857 | Without a click nothing changes but the token. A click on either item appends exactly one object, holds it, closes the menu and grabs the cursor. |
| Engine.App.constructor | holy-engine-base/main.go:152-213 | initApp: a 1280 x 720 window, the camera at (0, 2, 5) looking down -Z with the cursor grabbed, the menu closed, the hand empty, and a scene holding only the ground. |
| Engine.App.EndFrame | holy-engine-base/main.go:1565-1566 | The corrected frame end: the released flag lasts one frame, and the token is freed after a release frame's UI pass. |
| Engine.App.DrawUI | holy-engine-base/main.go:633-636 | The tool panels, then the spawn menu when open; objects are only ever added. |
| Engine.App.Frame | holy-engine-base/main.go:1550-1566 | One pass of the main loop keeps the app valid, ends with the released flag clear, and only adds objects at the end of the list. |
| Dedup.Distinct | holy-mm/main.go:845-883 | Every distinct key comes from the sequence, every key of the sequence is among them, they are pairwise different, and there are no more of them than keys. |
| Dedup.Numbering | holy-mm/main.go:865-883 | There is one vertex number per corner. |
| Dedup.NumberingSnoc | holy-mm/main.go:865-883 | A seen key reuses its number and a new key gets the next one: the step of either loop. |
| Dedup.NumberingBounded | holy-mm/main.go:865-883 | Every number names a vertex. |
| Dedup.NumberingSharesIff | holy-mm/main.go:865-883 | Two corners share a vertex exactly when their keys are equal. |
| Dedup.NumberingOnto | holy-mm/main.go:865-883 | Every vertex is used by some corner. |
| Dedup.NumberingFirstOccurrence | holy-mm/main.go:869-881 | A key's first occurrence gets the count of distinct keys before it, so numbers are issued from 0 without gaps. |
| Dedup.NumberingPrefix | holy-mm/main.go:865-883 | The numbering of a prefix is a prefix of the numbering. |
| Dedup.ConcatLength | holy-mm/main.go:875-877 | w floats per key. |
| Dedup.ConcatBlock | holy-mm/main.go:875-877 | Key j's data is the block of w floats starting at w · j. |
| Dedup.NumberedBlock | holy-mm/main.go:865-883 | The block of the vertex numbered for a corner holds that corner's data. |
| Dedup.BuiltEmpty | holy-mm/main.go:834-845 | Before the first corner nothing is built. |
| Dedup.BuiltHit | holy-mm/main.go:867-868 | A key in vertexMap appends its number and adds no vertex. |
| Dedup.BuiltMiss | holy-mm/main.go:869-881 | A new key appends its floats and is numbered with the count of vertices so far. |
| Holym.ParseCorners | holy-mm/main.go:812-821 | Successful parsing gives one corner per token. |
| Holym.ScanLine | holy-mm/main.go:780-827 | One line keeps one colour per position. Only an `f` line adds a face, and it adds exactly one. |
| Holym.VertexData | holy-mm/main.go:873-877 | A vertex is 8 floats. |
| Holym.ParseFaceTokens | holy-mm/main.go:811-822 | The face loop over three `V/VT` tokens computes ParseCorners. |
| Holym.ScanHolym | holy-mm/main.go:778-828 | The scanning loop computes HolymScan. |
| Holym.FlattenAt | holy-mm/main.go:848-849 | Corner i of face f is corner 3f + i. |
| Holym.AddCorner | holy-mm/main.go:850-882 | One corner: an out-of-range position index, then an out-of-range texture index, is its error. Otherwise the de-duplication state is extended by that corner. |
| Holym.AddFace | holy-mm/main.go:849-884 | A face's three corners: the first bad one ends the build with its error; otherwise the state covers the face. |
| Holym.BuildHolym | holy-mm/main.go:834-885 | The de-duplicating loop computes BuildMesh. |
| Holym.ParseHolym | holy-mm/main.go:765-889 | parseHolym computes Holym on the file's lines. |
| Holym.ScanLineWellFormed | holy-mm/main.go:787-828 | A line keeps triangles-only faces, one colour per position, and every colour white. |
| Holym.ScanLinesWellFormed | holy-mm/main.go:778-828 | Scanning keeps that, so the de-duplicating loop's needs always hold. |
| Holym.ScanLinesCounts | holy-mm/main.go:787-822 | A successful scan has one position per `v` line, one texture coordinate per `vt` line and one face per `f` line. |
| Holym.ScanLinesTexPath | holy-mm/main.go:824-826 | The texture path is that of the last `tex_path` line. |
| Holym.ParseCornersFails | holy-mm/main.go:813-817 | Face tokens fail exactly when one is not two parts around one `/`, and the first such token is reported. |
| Holym.FaceTokenRoundTrip | holy-mm/main.go:818-821 | A token printed as `V/VT` from 1-based indices reads back as the 0-based pair. |
| Holym.ScanLineError | holy-mm/main.go:787-822 | A line fails exactly when LineError says so, whatever was read before. |
| Holym.ScanLinesError | holy-mm/main.go:778-831 | Scanning fails exactly when some line raises an error, and with the first such line's error. |
| Holym.FirstBadCornerIff | holy-mm/main.go:853-858 | There is no bad corner exactly when every corner is in range. A bad corner is the first corner out of range, with its 1-based index. |
| Holym.HolymFails | holy-mm/main.go:765-889 | Parsing fails with the first line error. Without one, it succeeds exactly when every face corner indexes an existing position and texture coordinate. |
| Holym.LastTexPathNonEmpty | holy-mm/main.go:824-826 | A `tex_path` value is never empty. |
| Holym.MeshBuffers | holy-mm/main.go:848-887 | The buffers hold whole 8-float vertices and three indices per face. Every index names a vertex, every vertex is named, and hasTexture holds exactly when there is a path. |
| Holym.HolymBuffers | holy-mm/main.go:765-889 | In terms of the file: three indices per `f` line, whole vertices, and every index naming a vertex. |
| Holym.HolymTexture | holy-mm/main.go:824-826 | The texture is that of the last `tex_path` line; with none, the mesh has no texture. |
| Holym.MeshCorner | holy-mm/main.go:864-881 | Corner k's index names the vertex built from its own position, colour and texture coordinate. |
| Holym.CornerBlock | holy-mm/main.go:869-877 | The block numbered for a corner is that corner's 8 floats. |
| Holym.BuiltInRange | holy-mm/main.go:853-858 | Every face corner of a successfully built mesh indexes an existing position and texture coordinate. |
| Holym.MeshOf | holy-mm/main.go:848-887 | A built mesh has no bad corner, and its buffers are the corners' distinct data and their numbering. |
| Holym.VertexDataWhite | holy-mm/main.go:800-802 | In a well-formed scan a vertex is its position, white, and its texture coordinate. |
| Holym.AsWrittenColourDropped | holy-mm/main.go:795-802 | As written, a complete coloured line `v X Y Z c R G B` (eight fields) misses the `len(fields) == 7` guard and gets white. |
| Holym.IntendedColour | holy-mm/main.go:794-802 | The colour the coloured form means: white unless the line has the eight fields of `v X Y Z c R G B`. |
| Holym.CorrectedScanLine | holy-mm/main.go:787-802 | The line scan with the guard counting eight fields: a vertex line never fails and adds one position and one colour. |
| Holym.CorrectedColourKept | holy-mm/main.go:794-802 | With the corrected guard, a complete coloured line adds its position and its own colour. |
| Holym.CorrectedAgreesElsewhere | holy-mm/main.go:780-827 | The correction changes only the two coloured forms; every other line scans as written. |
| Holym.HolymCorner | holy-mm/main.go:864-881 | Face corner k of the file names the vertex (pos, white, uv) of its own indices. |
| Holym.HolymSharing | holy-mm/main.go:864-868 | Two corners share a vertex exactly when their (V, VT) pairs are equal, and a pair's first corner gets the next number. |
| HolyMm.GameObject.constructor | holy-mm/main.go:926-936 | A new object holds the given buffers, at the origin, unrotated, of unit scale. |
| HolyMm.AppendedSerial | holy-mm/main.go:973-975 | Appending an object named with the next serial keeps "object i is named with serial i". |
| HolyMm.MmObjectList | holy-mm/main.go:494-504 | The list selects a listed object, and only in a frame with a release. |
| HolyMm.MmObjectListMissed | holy-mm/main.go:494-504 | With no row under the cursor, the selection stays. |
| HolyMm.LaterRowsMissed | holy-mm/main.go:500-503 | Rows are 35 apart and 30 high, so a cursor on one row is on no later row. |
| HolyMm.MmObjectListPick | holy-mm/main.go:494-504 | A release over row k selects row k's object, whatever was selected before. |
| HolyMm.ToolButtonsExclusive | holy-mm/main.go:448-484 | The Import, Cube and Plane buttons never overlap, so at most one clicks per frame. |
| HolyMm.App.IdsUnique | holy-mm/main.go:925-1010 | Object IDs are unique. |
| HolyMm.App.OnCursorPos | holy-mm/main.go:194-228 | The cursor moves. While the right button is down and no widget is active, the view takes the LookStep; otherwise the first-sample flag is re-armed. |
| HolyMm.App.OnMouseButton | holy-mm/main.go:230-248 | The left button's flags, with a release emptying the token; the right button's state recorded; other buttons change nothing. |
| HolyMm.App.OnFramebufferSize | holy-mm/main.go:187-192 | The new window size is stored, and the view is left as it was. |
| HolyMm.App.Dispatch | holy-mm/main.go:187-248 | One queued window event goes through its callback, and the app stays valid. |
| HolyMm.App.PollEvents | holy-mm/main.go:380 | The queued events go through their callbacks in order, and the app stays valid. |
| HolyMm.App.HandleKeys | holy-mm/main.go:383-405 | ESC stops the editor. WASD moves the camera by 5 times the frame time, but only while no widget is active. |
| HolyMm.App.ProcessInput | holy-mm/main.go:379-406 | Events, then the keys: ESC stops the editor, and nothing else touches the running flag. |
| HolyMm.App.HandleButton | holy-mm/main.go:575-593 | holy-mm's handleButton, as Widgets.MmButton says. |
| HolyMm.App.HandleSlider | holy-mm/main.go:596-626 | handleSlider returns the value it writes, as Widgets.Slider says. |
| HolyMm.App.ObjectListPass | holy-mm/main.go:494-504 | The object-list loop leaves the selection MmObjectList describes. |
| HolyMm.App.EditVector | holy-mm/main.go:522-539 | Three sliders edit a vector as Widgets.VectorSliders says. |
| HolyMm.App.PropertiesPanel | holy-mm/main.go:511-563 | Position sliders in [-10, 10] and scale sliders in [0.01, 5] edit the selected object; its rotation and texture are unchanged. |
| HolyMm.App.DrawCustomUI | holy-mm/main.go:431-566 | A frame adds at most one object at the end of the list. A Cube or Plane click adds that primitive with the next serial. An Import click with a typed path adds the parsed model when the file opens and parses. When the file does not open or parse, nothing is added; a ColorIndexPanic failure stands for the editor's crash. With no such click the scene is unchanged. The selection after the frame is what the object list picks, starting from the new object if one was made. Without a release, neither the objects nor the selection change. |
| HolyMm.App.SelectionPanels | holy-mm/main.go:489-563 | The selection is what the object list picks (HolyMm.MmObjectList). The properties panel then edits the position and scale of the selected object through its six sliders, and leaves every other object unchanged. Without a release the selection is unchanged. |
| HolyMm.App.ToolButtons | holy-mm/main.go:448-484 | A Cube or Plane click appends that primitive, selected, at rest, with the next serial, as createPrimitive does. An Import click with a typed path has loadHolymModel's effect: a new selected model when the file opens and parses. Otherwise the error and no change, where a ColorIndexPanic error stands for the editor's crash. With no such click nothing changes. At most one fresh object is added, and only on a release frame. |
| HolyMm.App.CreateGameObject | holy-mm/main.go:925-976 | A fresh object at the origin is appended. A texture that cannot be loaded falls back to vertex colours. The serial counter moves on. |
| HolyMm.App.CreatePrimitive | holy-mm/main.go:991-1010 | "cube" or "plane" appends a fresh, untextured, selected object named Shape_serial. Any other shape changes nothing. |
| HolyMm.App.LoadHolymModel | holy-mm/main.go:979-988 | A file that cannot be opened or parsed leaves the scene unchanged and reports the error. The ColorIndexPanic error stands for the crash of the editor at holy-mm/main.go:798, which the model runs past. Otherwise the parsed buffers become a new selected object named base_serial. |
| HolyMm.App.constructor | holy-mm/main.go:116-165 | initApp: a 1280 x 720 window, running, an empty scene, and the camera at (0, 2, 5) looking down -Z. |
| HolyMm.App.Frame | holy-mm/main.go:1199-1216 | One pass of the main loop ends with the released flag clear, stops on ESC, and adds at most one object at the end. |
| Spinning.Triangles | holy-spinning-models/main.go:207-211 | Only triangle faces are kept. |
| Spinning.AddVertex | holy-spinning-models/main.go:232-240 | A value seen before reuses its index; a new one is numbered currentIdx and its five floats are appended. |
| Spinning.ReadCorner | holy-spinning-models/main.go:213-225 | A corner is its position and its uv, or (0, 0) when the texture-coordinate index is out of range. |
| Spinning.AddTriangle | holy-spinning-models/main.go:212-241 | The three corners of a triangle extend the loop state in order. |
| Spinning.BuildBuffers | holy-spinning-models/main.go:201-246 | The loop computes ModelBuffers, and currentIdx ends as the number of distinct corner values. |
| Spinning.KeysLength | holy-spinning-models/main.go:207-212 | There are three corners per triangle. |
| Spinning.BuffersShape | holy-spinning-models/main.go:201-246 | len(vertices) is 5 · currentIdx, there are three indices per triangle, every index is below currentIdx, and every vertex is used. |
| Spinning.SkipNonTriangles | holy-spinning-models/main.go:208-211 | Faces other than triangles contribute nothing: the buffers are those of the triangles alone. |
| Spinning.TrianglesKeys | holy-spinning-models/main.go:207-211 | Dropping the faces that are not triangles leaves the sequence of corner keys unchanged. |
| Spinning.CornerData | holy-spinning-models/main.go:217-238 | The vertex a triangle corner's index names holds its position and uv, with (0, 0) for a missing uv. |
| Spinning.ValueSharing | holy-spinning-models/main.go:203-240 | Two triangle corners share an index exactly when their positions and uvs are equal, whatever their position indices. |
| Spinning.KeysSameData | holy-spinning-models/main.go:213-230 | The corner keys depend only on the positions and texture coordinates, not on the rest of the model. |
| Spinning.ModelMeshShape | holy-spinning-models/main.go:201-246 | Every index of the buffers names a 5-float vertex. |
| Spinning.Viewer.constructor | holy-spinning-models/main.go:112-154 | initApp with the default model: an 800 x 600 window with vsync on, the model's buffers, the camera at (0, 0, 5) looking down -Z, zoom 5, and the model unrotated and spinning. |
| Spinning.Viewer.OnCursorPos | holy-spinning-models/main.go:379-427 | With the automatic spin off and the left button down, the model turns by the sensitivity-scaled offsets, in radians. Else, with the right button down, the camera takes Camera.LookStep, using "right button not yet recorded" as its first-sample flag, and the flag is then set. Else the first-sample flag is re-armed and the right-button flag cleared. |
| Spinning.Viewer.OnScroll | holy-spinning-models/main.go:373-377 | The zoom level moves by half the wheel offset; the view is unchanged. |
| Spinning.Viewer.OnFramebufferSize | holy-spinning-models/main.go:365-371 | The new window size is stored. |
| Spinning.Viewer.Dispatch | holy-spinning-models/main.go:365-427 | One queued window event goes through its callback, and the viewer stays valid. |
| Spinning.Viewer.PollEvents | holy-spinning-models/main.go:514 | The queued events go through their callbacks in order, and the viewer stays valid. |
| Spinning.Viewer.HandleVKey | holy-spinning-models/main.go:521-532 | V flips vsync exactly on a rising edge. |
| Spinning.Viewer.HandleRKey | holy-spinning-models/main.go:535-545 | R flips the automatic spin exactly on a rising edge; switching it off re-arms the manual first sample. |
| Spinning.Viewer.LoadAndSetupModel | holy-spinning-models/main.go:165-314 | A model that could not be opened or parsed changes nothing; otherwise its buffers replace the current ones. |
| Spinning.Viewer.HandleGKey | holy-spinning-models/main.go:548-573 | On a rising edge with a typed directory and a parsed model, the buffers are replaced and both rotation angles reset to 0; otherwise the buffers and angles stay. |
| Spinning.Viewer.MoveCamera | holy-spinning-models/main.go:576-590 | WASD moves the camera by 250 times the time since the last frame; the view direction is unchanged. |
| Spinning.Viewer.HandleKeys | holy-spinning-models/main.go:516-573 | ESC stops the viewer; V, R and G toggle on their rising edges; G's debounce flag follows the key. |
| Spinning.Viewer.ProcessInput | holy-spinning-models/main.go:513-593 | Events, then ESC, V, R, G and WASD, with the toggles and the reload as above. |
| Spinning.Viewer.UpdateScene | holy-spinning-models/main.go:596-601 | While the spin is on, the angles grow by 50 and 25 degrees a second, in radians; otherwise they stay. They never decrease for a non-negative frame time. |
| Spinning.Viewer.Frame | holy-spinning-models/main.go:737-747 | One pass of the main loop: input, then the scene update; both toggles follow their rising edges. |

## Left out

- Rendering is not modelled: OpenGL, GLFW windows, shaders, GPU buffers, textures, drawRect, drawTextOverlay, buffer swaps and viewports. This is foreign I/O. GameObjects keep no VAO, VBO, EBO or texture handle.
- The trigonometry, normalisation and matrix inversion of updateCameraAndProjection and getRayFromMouse are parameters. So are strconv.ParseFloat, filepath.Base, image loading and the constant tables of generateCubeData and generatePlaneData. This is foreign math and foreign data.
- float32 rounding, infinities and NaN are not modelled; numbers are reals. The uint32 index type has no wrap-around; indices are nat.
- Text.Atoi: it models an optional sign and digits, and 0 for anything else. It does not model saturation on overflow.
- Time is not modelled: the frame times are inputs, assumed non-negative in the engine and the viewer. FPS counting, window titles and `log` output are left out.
- Engine.App.Dispatch: window-size events are assumed to be positive. The NDC mapping divides by the size, and a minimised window (size 0) is not modelled. HolyMm.App.Dispatch and Spinning.Viewer.Dispatch assume the same.
- Engine.App.Dispatch: its contract states only that the app stays valid. The effect of each event is in the contract of its callback (OnFramebufferSize, OnCursorPos, OnMouseButton, OnScroll).
- Engine.App.PollEvents: its contract states only that the app stays valid; each event's effect is in its callback's contract.
- HolyMm.App.Dispatch: its contract states only that the app stays valid; each event's effect is in its callback's contract.
- HolyMm.App.PollEvents: as HolyMm.App.Dispatch, its contract is only validity.
- Spinning.Viewer.Dispatch: its contract states only that the viewer stays valid; each event's effect is in its callback's contract.
- Spinning.Viewer.PollEvents: as Spinning.Viewer.Dispatch, its contract is only validity.
- Engine.App.OnCursorPos, Engine.App.HandleRKey: the source re-reads the cursor with GetCursorPos on a first rotation sample and when R starts a rotation (holy-engine-base/main.go:506-507). The model uses the last position a cursor event reported instead.
- Spinning.Viewer.OnCursorPos: GetMouseButton is read as fields of the cursor event.
- HolyMm.App.OnCursorPos: the right button's state is the last one the mouse callback recorded.
- Holym.ParseHolym: a scanner read error (bufio.Scanner.Err, holy-mm/main.go:829-831) is not modelled, because the lines are given. The colour repair at holy-mm/main.go:859-862 is unreachable, since every position has a colour, and it is not modelled.
- HolyMm.App.DrawCustomUI: the stdin prompt, strings.TrimSpace and os.Open are inputs. The typed path and the file's lines (None when the file cannot be opened) are parameters.
- HolyMm.App.Frame: updateScene is empty in holy-mm, so it is the identity.
- HolyMm.App.LoadHolymModel, HolyMm.App.ToolButtons, HolyMm.App.DrawCustomUI: the error ParseFailed(ColorIndexPanic) stands for a crash. A 7-field line `v X Y Z c R G` makes holy-mm/main.go:798 read `fields[7]`, a Go index panic that no code recovers from, so the editor ends. The model runs past it: the scene is left as it was and the frame goes on.
- Spinning.Viewer.HandleGKey: the directory-separator append, the model-name and path construction, and the OBJ parser are not modelled. The parser's result is a parameter.
- Spinning.Viewer.LoadAndSetupModel: texture lookup and loading (textureID) and GPU buffer deletion are not modelled.
- Spinning.BuildBuffers: requires every triangle's position indices to be in range and three texture-coordinate entries per triangle. The source indexes these unchecked and panics otherwise (holy-spinning-models/main.go:213-217).
- Spinning.Viewer.constructor: a failure of initApp (the default model cannot be loaded or the window cannot be created) is not modelled. The viewer starts from the parsed default model. As written, initApp calls loadAndSetupModel (holy-spinning-models/main.go:131) before the window and GL context exist (:135, :353-359) and before gl.Init (:139, :434). That is, the GL buffer calls at :287-310 and newTexture at :319 run before go-gl has loaded its function pointers, so initApp most likely never succeeds. The model starts from the state a successful initApp would reach.
- Spinning.Viewer.HandleVKey: glfw.SwapInterval is a side effect on the driver; only the flag is modelled.
- Spinning.Viewer.OnScroll: its updateCameraPosition recomputes the view direction from yaw and pitch, which leaves it unchanged. zoomLevel is stored but read nowhere else.
- Engine.App.CreatePrimitive: the mesh data only selects the GPU buffers, so the vertex and index lists are not stored. holy-mm's objects do store them.
- Engine.App.DrawCustomUI: the Import button's click only logs; the model keeps its token effect. Its contract states only validity and that the mouse state changes in its token alone; what the object list and the panel do is in ObjectListPass, PropertySliders and KinematicToggle.
- Engine.App.PropertiesPanel: its contract states only that the mouse state changes in its token alone and that the selected object keeps its ID; the slider and toggle effects are in PropertySliders and KinematicToggle.
- Engine.App.CreateGameObject: the texture branch of createGameObject (holy-engine-base/main.go:1233-1242) is not modelled, because every engine caller passes no texture.
- Widgets.MmButton: its own contract states only that a click needs a release; the exact condition is proved in Widgets.MmReleaseOverClicks and Widgets.MmNoReleaseNoClick.
- Widgets.Pass: its own contract states only the number of outputs; the token rules are proved in SettledPassNoClick, ButtonStealsToken and FirstSliderWins.
- Engine.App.HandleButton: the engine app uses the corrected frame, in which the release callback keeps the token (the source empties it at holy-engine-base/main.go:308) and EndFrame frees it after the UI pass. The callback as written is Widgets.OnEvent, and Findings describes its effect.
- Engine.App.OnLeftRelease: keeps the active-element token, where the source empties it at holy-engine-base/main.go:308. This is the corrected half of the engine finding; the code as written is Widgets.OnEvent. Until the token is freed at the frame's end, the rest of the release frame is affected by a held token:
  - the remaining events of the batch and processInput see it, so mouse-look (:249) and WASD (:522) stay off;
  - a press after the release in the same batch tries no pick (:301);
  - a slider that held the token follows the cursor for one more UI pass.

  In the source, from :308 on, all of these see an empty token.
- Engine.App.EndFrame: frees the token after a release frame's UI pass, where the source (holy-engine-base/main.go:1566) only clears mouseLeftReleased. The token is thus held through the release frame's events, input and UI pass; what that changes is on the Engine.App.OnLeftRelease line.
- Engine.App.Frame: runs the corrected release callback and the corrected EndFrame, not the code at holy-engine-base/main.go:308 and :1566. The frame as written is Widgets.AsWrittenEngineNeverClicks.
- holy-gojo/main.go, toxicengine/main.go, toxicengine/core/core.go and toxicengine/core.go are not part of this model. They wrap constant cube tables in window and GL code; their only logic, a constant-rate rotation and a debounced V key, is the same as in holy-spinning-models.

## Findings

| source | as written | input that shows it | evidently intended | confidence | as-written member | corrected member |
|---|---|---|---|---|---|---|
| holy-engine-base/main.go:305-314 | The left-release callback sets `mouseLeftReleased` and empties `activeUIElement` (line 308) before the frame's UI pass. So in the release frame no button holds the token, and the click test at line 881 (`activeUIElement == label`) never holds. | Press the left button over "Import Model" in one frame; the button takes the token. Release over it in the next frame; the callback empties the token first, and no click is reported. | A press then a release over the same button clicks it: the token is freed after the UI pass, at the end of the frame. | not executed | Widgets.AsWrittenEngineNeverClicks | Widgets.CorrectedPressThenReleaseClicks |
| holy-mm/main.go:795-798 | The colour branch of a `v` line is guarded by `len(fields) == 7 && fields[4] == "c"` but reads `fields[5]`, `fields[6]` and `fields[7]`. The form named by the comments at :787 and :794 has eight fields. | `v 0 0 0 c 1 0 0` (eight fields) misses the guard and the vertex is white. `v 0 0 0 c 1 0` (seven fields) reads `fields[7]` and panics. | The guard counts eight fields, and a complete coloured line keeps its colour. | not executed | Holym.AsWrittenColourDropped | Holym.CorrectedColourKept |
