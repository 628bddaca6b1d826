# Map flythrough and walking-figure pages, modelled in Dafny

The repository renders two browser pages over a Google map with a three.js overlay.
Almost all of it is wiring between React, the map library and the 3D library. This
project models the three pieces of logic that sit inside that wiring and proves what
they promise.

- **Camera ramp** (`pages/intro.js`). The module-level `mapOptions` record holds tilt,
  zoom and heading. The renderer's animation-loop callback first moves the map camera to
  the current values. It then raises exactly one of them by a fixed step: tilt until 60,
  else zoom until 20, else heading until 125. When none can rise, it uninstalls itself.
  - `CameraRamp` is the step as a pure function, `Advance`, with its schedule and trace.
  - `Intro.FlyThrough` is the mutable record plus the loop. Its `Tick` is one call of
    the callback and is proved equal to `Advance`. `RunLoop` is the renderer calling
    `Tick` until the loop is cancelled.
  - `Intro.MapMount` is the mount effect. Its overlay guard makes the map and the
    overlay at most once.
- **Walk-clip selection** (`pages/human.js`). `loadModel` scans the model's clip names.
  Each clip whose lower-cased name contains `"walk"` overwrites the choice made before
  it, so the last match wins. The chosen clip is played. If nothing matched, a message
  is logged and nothing plays. This is module `ClipSelection`.
- **Path animation** (`pages/human.js`).
  - `PathAnimation` has the looping progress `(now mod 50000) / 50000` and the pose a
    frame gives the figure. The pose is built from the route's curve and two rotations.
  - `Human` has the scene and the `Animate` component (`Human.RouteAnimation`). The
    component holds one track slot and one figure slot. On a new route, the previous
    run's cleanup takes the track and the figure out of the scene. The effect then adds
    a new track and starts a model load. Every completed load swaps the figure; the
    last completion wins.
  - The frame update (`Update`) rebuilds the figure's position and orientation from
    the clock and the curve alone. Two frames at the same time therefore give the
    same pose.

Units and abstractions:
- Ramp values are whole numbers of steps. Tilt and heading count half-degrees, so the
  ceilings are 120 and 250. Zoom counts twentieths of a level, so its ceiling is 400.
  The shipped start (25, 20, 25) is `Ramp(50, 400, 50)`.
- `performance.now()` is a whole number of milliseconds, passed in.
- The curve (`getPointAt`, `getTangentAt`) enters as functions passed in.
- So does the rotation arithmetic (`setFromUnitVectors` and the quarter turn
  `rotateX(π/2)`).
- `map.moveCamera` is an observer. It appends the values it receives to `camera`.

The code mutates the shared options record in place. The model gives both the in-place
`Tick` and a pure `Advance`, and proves them equal. In the component:
- on a route change the previous run's cleanup takes the track and the figure out. The
  effect then adds a new track and starts a load, so no figure shows until a load
  completes;
- the figure is swapped whenever a load completes, so a stale load can win until the
  next completion;
- the cleanup leaves both references set, and a load that completes after the cleanup
  puts a figure back into the scene.

## Model

| member | source | states |
|---|---|---|
| CameraRamp.Advance | pages/intro.js:87-95 | A tick moves tilt if tilt < 60. Otherwise it moves zoom if zoom < 20. Otherwise it moves heading if heading < 125. Otherwise it cancels. Only the moved field changes, and it rises by exactly one step. No field falls. The tick cancels exactly when all three values are at their ceilings, and a cancelling tick changes nothing. The remaining-steps measure falls by one on every tick that does not cancel. |
| CameraRamp.ScheduleShape | pages/intro.js:87-95 | From any start, the loop takes every missing tilt step, then every missing zoom step, then every missing heading step, then cancels once. |
| CameraRamp.TickCount | pages/intro.js:80-96 | The loop always ends. It runs exactly the remaining steps to the three ceilings plus one cancelling tick. |
| CameraRamp.ShownTrace | pages/intro.js:80-96 | The camera first receives the start values. Each later value is one `Advance` of the value before it. The last value has every field raised to its ceiling and none lowered, and it is at all three ceilings. |
| CameraRamp.ShownMonotone | pages/intro.js:81-92 | No value handed to the camera is lower, in any field, than one handed to it earlier. |
| CameraRamp.InitialRun | pages/intro.js:15-18 | From the shipped tilt 25, zoom 20 and heading 25, the loop does 70 tilt steps, no zoom step and 200 heading steps. It cancels on tick 271, holding tilt 60, zoom 20 and heading 125. |
| Intro.FlyThrough.constructor | pages/intro.js:12-19 | The page starts with the shipped options, no animation loop and no camera move. |
| Intro.FlyThrough.StartLoop | pages/intro.js:79-80 | When the loader's manager reports all assets loaded, the ramp is installed as the animation loop. |
| Intro.FlyThrough.Tick | pages/intro.js:80-96 | The camera receives the values held at the start of the tick. The options then become `Advance` of those values. The loop stays installed exactly when that tick moved a field. |
| Intro.FlyThrough.RunLoop | pages/intro.js:80-96 | The loop stops after exactly the remaining steps plus one ticks. The camera has then received the whole trace, and the options rest at the saturated values. |
| Intro.MapMount.constructor | pages/intro.js:31 | The component mounts with no overlay, no map and nothing created. |
| Intro.MapMount.MountEffect | pages/intro.js:35-41 | However often the effect runs, one map and one overlay exist afterwards. A run that finds an overlay already set creates nothing. |
| ClipSelection.LowerChar | pages/human.js:61 | An upper-case ASCII letter becomes its lower-case letter. Every other character is unchanged. |
| ClipSelection.Lower | pages/human.js:61 | The lower-cased name has the same length, and each character is lower-cased in place. |
| ClipSelection.IncludesAt | pages/human.js:61 | The substring test holds exactly when the piece occurs at some position of the name, in both directions. |
| ClipSelection.SelectWalkClip | pages/human.js:59-64 | The chosen clip is one whose lower-cased name contains "walk", and no later clip matches. The choice is absent exactly when no clip matches. |
| ClipSelection.PlayWalkClip | pages/human.js:66-70 | If some clip matches, exactly the last matching clip plays and nothing is logged. Otherwise nothing plays and exactly the page's message is logged. |
| PathAnimation.Progress | pages/human.js:134 | Progress lies in [0, 1). Within the first cycle it equals the elapsed time divided by 50000 ms. |
| PathAnimation.ProgressRepeats | pages/human.js:134 | Progress is unchanged when the time moves by any whole number of 50000 ms cycles. |
| PathAnimation.PoseRepeats | pages/human.js:133-140 | The figure's pose, position and orientation both, is the same at any two times a whole number of cycles apart. |
| PathAnimation.PoseAtCycleStart | pages/human.js:134-135 | At the start of each cycle the figure is at the curve's start. Half a cycle later it is at the curve's midpoint. |
| Human.WithoutMembers | pages/human.js:98 | Removing an object from the scene keeps every other child and drops that object. It never makes a child appear twice. |
| Human.Scene.Add | pages/human.js:101 | Adding an object first detaches it, then appends it as the last child. |
| Human.Scene.Remove | pages/human.js:98 | Removing takes the object out. Removing an absent object, or nothing, changes nothing. |
| Human.SlotReplace | pages/human.js:97-101 | Taking the held object out and appending a new one leaves the new one as the only member of its slot in the scene. Nothing appears twice, and the other slot keeps exactly what it showed. |
| Human.SlotRemove | pages/human.js:146-149 | Removing an object takes it, and only it, out of every slot's view of the scene. |
| Human.SlotAppend | pages/human.js:101 | Appending an object adds it, and only it, to the slots it belongs to. |
| Human.TrackReplaced | pages/human.js:97-101 | A new track replacing the held one keeps the slot discipline. It is then the only track shown, and the figures shown do not change. |
| Human.HumanReplaced | pages/human.js:105-109 | A newly loaded figure replacing the held one keeps the slot discipline. It is then the only figure shown, and the tracks shown do not change. |
| Human.RouteAnimation.constructor | pages/human.js:80-82 | The component starts with empty track and figure references, no overlay and no curve. |
| Human.RouteAnimation.EnsureOverlay | pages/human.js:87-90 | The overlay is made on the first effect run only. Exactly one exists afterwards. |
| Human.RouteAnimation.RouteEffect | pages/human.js:87-104 | The held track is removed and a new track is appended, so exactly one track of the component is in the scene. The figure slot is unchanged. The frame update reads the new route's curve, and one more model load is pending. |
| Human.RouteAnimation.RouteChanged | pages/human.js:84-150 | A route change runs the previous cleanup, then the effect. Afterwards the new track is the only track of the component in the scene, and no figure of it is there until a load completes. The overlay still exists and was made once, and no redraw is requested. The frame update reads the new curve, and one more load is pending. |
| Human.RouteAnimation.ModelLoaded | pages/human.js:104-109 | A completed load removes the held figure and appends its own. Exactly one figure of the component is then in the scene, whichever load completed last, and the track slot is unchanged. |
| Human.RouteAnimation.Update | pages/human.js:127-144 | The update runs only once an effect has set a curve. With a figure loaded, its position and orientation become the pose for the current time and curve, whatever they were before. Without one, no object changes. Either way, one redraw is requested. |
| Human.RouteAnimation.Cleanup | pages/human.js:146-149 | No track and no figure of the component is left in the scene. Both references stay as they were. |
| Human.RepeatedFrame | pages/human.js:133-140 | With a figure loaded, the first frame puts it in the pose for the timestamp and the curve, and the second frame, at the same timestamp, leaves it in that same pose. Without a figure neither frame reports a pose. Only the redraw count and the figure change, and each frame requests one redraw. |

## Left out

- React wiring is not modelled: `App`, `Wrapper`, `useState`, the rendered elements and the `Directions` component. None of it has behaviour to state.
- `fetchDirections` is not part of this model. It is a network call, and its source is not available. A route enters only through the curve passed to `RouteEffect`.
- The Google Maps calls are not modelled: constructing `Map` and `WebGLOverlayView`, `setMap`, `setCenter`, `transformer.fromLatLngAltitude` and `requestRedraw`. They are foreign library calls. `moveCamera` is kept as the `camera` log, and `requestRedraw` from the frame update as the `redraws` count.
- The three.js numerics are not modelled: `CatmullRomCurve3`, `getPointAt`, `getTangentAt`, `setFromUnitVectors`, `rotateX`, `Line2`/`LineGeometry`/`LineMaterial` (`createTrackFromCurve`), `Matrix4` and the renderer. They are floating-point library code. The curve and the two rotations are functions passed in, and a track is a new scene object.
- The scene's own objects are not modelled beyond the scene's initial children: lights, camera, and the intro page's `onAdd`/`onDraw` setup (pages/intro.js:51-66, 103-113).
- The `GLTFLoader` load and the `AnimationMixer` updates are not modelled. Nor is the `requestAnimationFrame` loop that calls `mixer.update` (pages/human.js:112-123), or the model's scale, rotation and offset (pages/human.js:55, pages/intro.js:62-64). These are asset I/O and host scheduling. A load completion is a call to `ModelLoaded`, and loading yields the clip names for `PlayWalkClip`.
- The frame update's copy of the viewport size into the track material (pages/human.js:128-130) is not modelled. It is rendering state.
- Float arithmetic is not modelled. Ramp values are exact step counts. From the shipped start this is exact: the 0.5 steps are exact in binary, and the inexact 0.05 zoom step never fires because zoom starts at its ceiling. From other starts the model is the idealised ramp. Ramp values that are not whole numbers of steps are not represented.
- `performance.now()` is not modelled as a fractional double. It is a whole number of milliseconds.
- ClipSelection.LowerChar: lower-cases only the ASCII letters A to Z. JavaScript's `toLowerCase` also maps the other Unicode upper-case letters, and that full case mapping is not modelled. Two consequences follow for `Lower` and `IsWalkClip`:
  - `Lower` keeps the length of a name, but JavaScript's full lower-casing can change it: "İ" (U+0130) becomes two code units.
  - `IsWalkClip` can disagree with the page: "WAL" followed by the Kelvin sign (U+212A) contains "walk" after JavaScript lower-cases it, but is not a walk clip here.
