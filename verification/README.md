# multitargetManager, modelled in Dafny

`multitargetManager` is a Unity component for an augmented-reality multi-target (a cube).
When the AR SDK reports a new tracking status for the cube, the component does three things:

- it switches off every configured "animal";
- if the status is TRACKED, EXTENDED_TRACKED or LIMITED, it picks the cube face best aligned with the camera-to-cube direction;
- it switches on the animal of that face and plays one of three random animations: vibrate, bounce or rotate.

This project models the sequential logic of that component and proves its properties:

- `geometry.dfy` (module `Geometry`): vectors with real components, plus dot product, negation and scaling.
- `face_selection.dfy` (module `FaceSelection`): `GetVisibleFaceIndex`.
  - The loop is a recursive first-maximum scan over six dot products.
  - It starts from `maxDot = -1` with index `-1` as the sentinel, and it compares with strict `>`.
  - The six faces are ±right, ±up and ±forward.
- `activation.dfy` (module `Activation`): `Start`'s initial deactivation, `DeactivateAnimals` and `OnTargetStatusChanged`.
  - The animals are a `seq<bool>` of active flags.
  - The handler also reports which animal's animation it started.
- `animation.dfy` (module `Animation`): `AnimateAnimal` and its variants `VibrateAnimal`, `BounceAnimal` and `RotateAnimal`.
  - These are reduced to the local positions they write and the rotation they add.
  - The random draws and the per-frame values are inputs.
- `wrappers.dfy` (module `Wrappers`): the `Option` type.

Floats are modelled as reals. `Normalize` is modelled as a caller-supplied scale factor, `View.normFactor`. It is `1/|d|`, or `0` when Unity zeroes a too-short vector, so it is never negative (`FaceSelection.ValidView`). The selector itself accepts any factor; a negative one, which `Normalize` never produces, would flip the selection. `NormalizationKeepsFace` proves that any positive factor selects the same face as the raw direction. `ZeroDirectionSelectsRightFace` covers the zero case.

A literal consequence of the comparison is kept. Line 66 takes the direction from the camera towards the cube, `cube - camera`, and line 84 compares each face normal with that direction. The comment at line 59 says the method looks for the most visible face. Yet with the camera placed out along the cube's +right axis, the direction points along −right, so the −right face (index 1) wins, not the +right face that faces the camera. `CameraOnRightSideSelectsLeftFace` proves that the model selects index 1 in this case.

## Model

| member | source | states |
|---|---|---|
| Geometry.DotNeg | assets/scripts/multitargetManager.cs:71-76 | A negated face normal gives the negated dot product, so opposite faces have opposite dots |
| FaceSelection.Scan | assets/scripts/multitargetManager.cs:82-91 | From any loop state that holds the first maximum of the prefix seen so far, the loop ends with the first maximum above -1 of the whole sequence, or with the sentinel -1 when no dot exceeds -1 |
| FaceSelection.FirstMaxIndex | assets/scripts/multitargetManager.cs:78-93 | The scan from maxDot = -1 and index -1 returns -1 or an index in range. A non-negative result r has dots[r] > -1, dots[r] >= every dot and dots[j] < dots[r] for every j < r. The result -1 means that every dot is <= -1 |
| FaceSelection.SelectionIsUnique | assets/scripts/multitargetManager.cs:86-90 | At most one index satisfies the first-maximum description, so ties resolve deterministically |
| FaceSelection.FirstMaxIndexCharacterized | assets/scripts/multitargetManager.cs:78-93 | The scan returns r if and only if r satisfies the first-maximum description |
| FaceSelection.TieGoesToLowerIndex | assets/scripts/multitargetManager.cs:86-90 | If index i holds a maximal dot above -1, the selected index is at most i and holds the same dot: ties go to the earliest face |
| FaceSelection.OppositePairsNeverSentinel | assets/scripts/multitargetManager.cs:71-79 | When dots come in opposite pairs, the selected index is in [0, 5] and its dot is at least 0, so the -1 sentinel is never returned |
| FaceSelection.FaceDirections | assets/scripts/multitargetManager.cs:70-76 | Six candidate normals, each odd-indexed one the negation of the one before it |
| FaceSelection.FaceDots | assets/scripts/multitargetManager.cs:70-84 | Six dots, the k-th being the direction's dot with candidate k, in opposite pairs |
| FaceSelection.GetVisibleFaceIndex | assets/scripts/multitargetManager.cs:60-94 | The selector always returns a face index in [0, 5]. It is the first face whose normal best aligns with the normalised camera-to-cube direction, and its dot is non-negative |
| FaceSelection.ZeroDirectionSelectsRightFace | assets/scripts/multitargetManager.cs:66-93 | A camera at the cube's position, or a direction normalised to zero, makes all dots 0 and selects face 0 |
| FaceSelection.ScaledFirstMax | assets/scripts/multitargetManager.cs:67-90 | Multiplying opposite-paired dots by a positive factor does not change the selected index |
| FaceSelection.NormalizationKeepsFace | assets/scripts/multitargetManager.cs:66-67 | Normalising by any positive factor selects the same face as the raw camera-to-cube direction |
| FaceSelection.CameraOnRightSideSelectsLeftFace | assets/scripts/multitargetManager.cs:66-72 | A camera displaced from the cube along +right, with right a unit vector orthogonal to up and forward, selects index 1 (−right) |
| Activation.DeactivateAnimals | assets/scripts/multitargetManager.cs:51-57 | Every flag is cleared and the number of animals is unchanged |
| Activation.Start | assets/scripts/multitargetManager.cs:14-15 | After Start no animal is active and the number of animals is unchanged |
| Activation.OnTargetStatusChanged | assets/scripts/multitargetManager.cs:31-49 | Same number of animals and at most one active. Animal i is active iff the status is TRACKED, EXTENDED_TRACKED or LIMITED and i is the visible face. An animation starts iff exactly one animal is active, and then for that animal |
| Activation.HiddenTargetShowsNothing | assets/scripts/multitargetManager.cs:34-37 | A status other than the three showing ones leaves every animal inactive and starts no animation, whatever was active before |
| Activation.VisibleFaceActivatesItsAnimal | assets/scripts/multitargetManager.cs:40-46 | A showing status whose face index names a configured animal leaves exactly that animal active and starts its animation |
| Activation.OutOfRangeFaceShowsNothing | assets/scripts/multitargetManager.cs:43-45 | When fewer animals are configured than the face index needs, the bounds check leaves none active and starts no animation |
| Activation.ReactionForgetsHistory | assets/scripts/multitargetManager.cs:33-34 | The reaction to an event depends only on the number of animals, not on which were active before |
| Activation.AtMostOneActiveAlways | assets/scripts/multitargetManager.cs:15-57 | From Start on, after any sequence of status events the animal count is unchanged and at most one animal is active |
| Activation.LastEventDecides | assets/scripts/multitargetManager.cs:31-49 | After a sequence of events the flags are exactly those the last event alone produces |
| Animation.RandomRange | assets/scripts/multitargetManager.cs:108 | The integer Random.Range excludes its upper bound: the drawn type is in [0, 3) |
| Animation.RandomRangeReachesAll | assets/scripts/multitargetManager.cs:108 | Every value in [lo, hi) can be drawn |
| Animation.VariantOf | assets/scripts/multitargetManager.cs:110-121 | The switch picks a variant exactly for types 0, 1 and 2 |
| Animation.JitterFrom | assets/scripts/multitargetManager.cs:129-133 | The remaining iterations of the jitter loop write one position per step, each offset from the original by 0.1 times that step's sphere point |
| Animation.VibrateAnimal | assets/scripts/multitargetManager.cs:127-135 | Exactly 10 jittered writes, then an eleventh write that puts back the original position. No rotation |
| Animation.BounceAnimal | assets/scripts/multitargetManager.cs:137-144 | One write per frame, each keeping x and z and moving only y, by that frame's offset. No rotation |
| Animation.RotateAnimal | assets/scripts/multitargetManager.cs:146-153 | Frame by frame, no position is ever written and the turns add up to the sum of the frame steps |
| Animation.AnimateAnimal | assets/scripts/multitargetManager.cs:105-124 | A variant is always chosen. Whichever it is, the final local position equals the position recorded before the animation, also when all the writes are replayed in order. The rotation changes only for the spin variant |
| Animation.EveryVariantCanBeDrawn | assets/scripts/multitargetManager.cs:108-121 | Each of the three variants is reachable by some draw |
| Animation.VibrateRestoresByItself | assets/scripts/multitargetManager.cs:129-134 | The vibrate variant alone already ends at the original position |
| Animation.VibrateStaysNear | assets/scripts/multitargetManager.cs:131 | For a point inside the unit sphere, the jittered position lies within 0.1 of the original |
| Animation.BounceAloneMayEndDisplaced | assets/scripts/multitargetManager.cs:139-143 | The bounce variant does not restore by itself: whenever its last frame's offset is non-zero, the animal ends displaced from the original, so the final restore matters |
| Animation.RotateKeepsPosition | assets/scripts/multitargetManager.cs:148-152 | The spin variant leaves the local position unchanged |
| Animation.RotateTurnsAdd | assets/scripts/multitargetManager.cs:148-151 | A spin whose frames are split into two runs turns by the sum of the two runs' turns and still writes no position |

## Left out

- The SDK event subscription in `Start` and the unsubscription in `OnDestroy`: lifecycle plumbing over an SDK whose code is not part of this model.
- Reads of `Camera.main` and of the cube's `transform`: the positions and the basis are inputs (`View`).
- FaceSelection.GetVisibleFaceIndex: `Normalize` is a caller-supplied factor, and single-precision float rounding is not modelled (dots are reals). The factor stands for `1/|d|`, which needs a square root.
- Coroutine scheduling, `WaitForSeconds`, `Time.deltaTime` and the frame-driven termination of the bounce and spin loops: engine timing. The number of frames is the length of the per-frame input.
- A new status event arriving while an earlier animation coroutine is still running: cooperative concurrency. Each animation run is modelled as completing on its own.
- `Random.Range` and `Random.insideUnitSphere` distributions: they are modelled as arbitrary draws, not as probabilities.
- Audio playback at the start of `AnimateAnimal`: a call into the engine with no observable effect on the modelled state.
- Animation.BounceAnimal: the per-frame offset is an arbitrary input instead of `0.05 * sin(t * π)`, a floating-point and trigonometric numeric. The model also admits runs the code cannot make: zero frames (the code always runs the first frame, at t = 0) and a first offset other than 0 (sin 0 = 0).
- Animation.RotateAnimal: the per-frame turn is an arbitrary input instead of `30 * Time.deltaTime` degrees. Rotation is a single angle about the local vertical axis, which is the only axis the code rotates about.
- Animation.VibrateAnimal: the sphere points are arbitrary. `VibrateStaysNear` assumes they lie inside the unit sphere, as `insideUnitSphere` guarantees.
- Activation.OnTargetStatusChanged: the configured animals are assumed to be distinct objects, one flag each. In the code two slots of `animals` may hold the same object; switching one on at line 45 then switches the other on too, and the per-slot statements and the at-most-one count no longer describe it.
- Activation.OnTargetStatusChanged: a missing main camera (`Camera.main` null) is not modelled. For a showing status, line 62 would then throw after line 34 has cleared every flag, leaving every animal inactive and no animation started; the model always has a camera position as an input.
- A null `animals` array or a null element: these surface as engine faults in the code and are not modelled. An empty array is modelled.
- The SDK's own `Status` type is not part of this model. `Activation.Status` mirrors its values NO_POSE, LIMITED, DETECTED, TRACKED and EXTENDED_TRACKED.
