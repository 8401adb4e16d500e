# First-person portfolio walkthrough: player and interaction logic

This project models the per-frame logic of a first-person browser walkthrough
(`js/main.js`). The player walks around a 20 m by 20 m room and approaches a 3D
model at the centre. Near the model a "Press E" prompt appears, and E opens an
information overlay. The state is a handful of module-level variables:

- four movement intents, set and cleared by key edges;
- a horizontal velocity that accelerates, is capped and decelerates;
- the head-bob speed and phase;
- the camera position, clamped inside the walls;
- the loaded model with its prompt, or nothing until it has loaded;
- `isCloseEnough` and `overlayVisible`.

Modules:

- `Wrappers` (wrappers.dfy): `Option`.
- `Keys` (keys.dfy): the intents, which key codes drive them, and key-down and key-up edges as functions.
- `Kinematics` (kinematics.dfy): the speed constants, per-axis acceleration with clamping, deceleration without overshoot, and coasting over many frames.
- `Rules` (rules.dfy): the whole state as a `Snapshot` value. Every event is a function on it: key edges, overlay toggle, model load and one frame. It also holds the invariant `Inv` and the lemmas about single events and about any run of events from page load.
- `Game` (game.dfy): class `Walkthrough`, whose fields are the JavaScript module variables. Its methods mirror `onKeyDown`, `onKeyUp`, `toggleOverlay`, the loader callback and `animate`. They update the fields in place and are proved to match the `Rules` functions. All of them except `ToggleOverlay` are also proved to keep `Inv`. `toggleOverlay` is unguarded in the source: it keeps the invariant only because its two callers, the E key and the far branch of the proximity check, call it under their guards.

Numbers are exact `real`s, using the source's constants:

- acceleration 0.002, deceleration 0.01 and maximum speed 0.1;
- camera height 1.8 and walls at ±9.9;
- near threshold 10, head-bob frequency 0.1, with scale 10 and amplitude 0.1.

Each frame also takes values that the source computes with square roots, sines or camera orientation. These are frame inputs (`Rules.FrameInput`):

- whether the pointer is locked;
- the normalised direction;
- the length of the new velocity;
- `sin(bobbingPhase)`;
- the displacement the pointer-lock controls apply;
- the distance to the model.

`Rules.Admissible` states what the page guarantees about these inputs:

- the direction is the raw key direction normalised: the zero vector stays zero, any other becomes a unit vector with the same signs;
- while a key is held, the speed input is the Euclidean length of the new velocity; with no key held the source never reads it and only `speed >= 0` is required;
- the sine lies in [-1, 1];
- the distance is the Euclidean length of the camera position, because the model sits at the origin (js/main.js:100).

Facts about the page that shape the model:

- There is one model with one prompt, and `overlayVisible` is a single global flag shared by the E key and the proximity check.
- The wall clamp runs only inside the pointer-locked branch of `animate`. The spawn point (0, 1.8, 10) therefore lies outside the clamp range until the first locked frame.

## Model

| member | source | states |
|---|---|---|
| `Keys.IntentOf` | js/main.js:137-153 | a key code drives an intent exactly when it is that intent's letter key or arrow key (W/ArrowUp forward, S/ArrowDown backward, A/ArrowLeft left, D/ArrowRight right); every other code, E included, drives none |
| `Keys.Press` | js/main.js:136-153 | after a key-down edge an intent is held exactly when it was held before or is the key's own intent |
| `Keys.Release` | js/main.js:162-181 | after a key-up edge an intent is held exactly when it was held before and is not the key's own intent |
| `Keys.OtherKeysIgnored` | js/main.js:136-181 | a code that is not a movement key leaves all four intents unchanged on press and release |
| `Keys.ReleaseUndoesPress` | js/main.js:136-181 | releasing a key whose intent was clear restores the intents from before the press |
| `Keys.PressIdempotent` | js/main.js:136-153 | a repeated key-down edge changes nothing more |
| `Keys.IndependentKeysCommute` | js/main.js:136-181 | edges of keys driving different intents can be applied in either order: two presses, two releases, or a press and a release |
| `Kinematics.Clamp` | js/main.js:250-251 | the clamped value lies in [lo, hi], equals x when x is in range, and is the nearer bound otherwise |
| `Kinematics.Accelerate` | js/main.js:245-251 | a held-key frame leaves the component in [-0.1, 0.1]. It is v - 0.002d when that is in range and exactly ±0.1 when that overshoots. From a velocity already within ±0.1, it changes by at most 0.002 for a direction component in [-1, 1] and is held for a zero direction. At ±maxSpeed it stays there when the direction pushes outward or is zero |
| `Kinematics.Decelerate` | js/main.js:255-266 | a coasting frame keeps a positive component in [0, v] and a non-positive one in [v, 0]. The magnitude never grows, drops by exactly 0.01 when above 0.01, and becomes 0 otherwise |
| `Kinematics.FramesToRest` | js/main.js:188 | ceil(abs(v)/0.01): the number of 0.01 steps that covers abs(v), one fewer does not |
| `Kinematics.Glide` | js/main.js:255-266 | n coasting frames never move a component across zero and never increase its magnitude |
| `Kinematics.GlideClosedForm` | js/main.js:255-266 | after n coasting frames the component is max(v - 0.01n, 0) if it was positive and min(v + 0.01n, 0) otherwise |
| `Kinematics.GlideStopsExactly` | js/main.js:255-266 | after n coasting frames the component is zero if and only if 0.01n >= abs(v) |
| `Kinematics.GlideRestsAfterFramesToRest` | js/main.js:255-266 | the component is exactly zero after ceil(abs(v)/0.01) coasting frames and non-zero after any fewer |
| `Kinematics.GlideStaysAtRest` | js/main.js:255-266 | once at rest, further coasting frames keep the component at zero |
| `Kinematics.UnitComponents` | js/main.js:240-242 | each component of the normalised direction lies in [-1, 1] |
| `Rules.Toggle` | js/main.js:230-233 | toggling flips `overlayVisible` and changes nothing else |
| `Rules.Interact` | js/main.js:154-158 | E flips `overlayVisible` exactly when `isCloseEnough` holds and the model with its prompt exists, and changes nothing else |
| `Rules.OnKeyDown` | js/main.js:136-160 | a key-down edge sets the key's own intent and keeps the others. It flips the overlay exactly for E near a loaded model, and changes nothing else |
| `Rules.OnKeyUp` | js/main.js:162-181 | a key-up edge clears the key's own intent, keeps the others and changes nothing else |
| `Rules.Load` | js/main.js:98-113 | the model becomes present with its prompt hidden, nothing else changes, and the invariant is kept |
| `Rules.MoveStep` | js/main.js:239-287 | the locked part of a frame leaves x and z in [-9.9, 9.9]. It applies the displacement unclamped when it stays inside, and stops at exactly ±9.9 when it overshoots. It resets bob speed and camera height when no key is held, and leaves intents, model and flags alone |
| `Rules.Sense` | js/main.js:289-302 | with the model loaded, `isCloseEnough` is `distance < 10` and the prompt shows exactly then. Near leaves the overlay as it was; far closes it. The check never opens the overlay and changes only these flags; without the model it changes nothing |
| `Rules.Frame` | js/main.js:236-302 | a frame, whatever its inputs, keeps the speed cap, "overlay open only when near" and "near only with a loaded model"; it never changes the intents and never opens the overlay |
| `Rules.KeyDownSetsOnlyItsIntent` | js/main.js:136-153 | a movement key-down edge sets its own intent and changes nothing else in the state |
| `Rules.KeyUpClearsOnlyItsIntent` | js/main.js:162-181 | a movement key-up edge clears its own intent and changes nothing else in the state |
| `Rules.OtherKeysChangeNothing` | js/main.js:136-181 | any key other than the eight movement keys and E changes no state on press or release |
| `Rules.InteractFlipsIffNear` | js/main.js:154-158 | E down flips `overlayVisible` if and only if `isCloseEnough` holds and the model with its prompt exists; nothing else changes |
| `Rules.InteractTwiceRestores` | js/main.js:230-233 | two toggles, and two presses of E, restore the original state |
| `Rules.InteractKeyUpChangesNothing` | js/main.js:162-181 | releasing E changes nothing |
| `Rules.MovingFrameCapsSpeed` | js/main.js:245-251 | after a locked frame with a key held, both components lie in [-0.1, 0.1] from any prior velocity |
| `Rules.MovingFrameAccelerates` | js/main.js:245-251 | a locked frame with a key held sets each component to one acceleration step along the direction, capped at ±0.1 |
| `Rules.MovingFrameStepsGently` | js/main.js:240-251 | with a key held, each component changes by at most 0.002 per frame |
| `Rules.OpposedKeysHoldVelocity` | js/main.js:240-251 | keys held only in opposite pairs (W with S, A with D, or both) give a zero direction. The moving branch then holds the velocity instead of decelerating it |
| `Rules.IdleFrameDecelerates` | js/main.js:255-266 | a locked frame with no key held decelerates each component by one step |
| `Rules.IdleFrameResetsHeight` | js/main.js:268-279 | a locked frame with no key held sets bob speed to 0 and the camera height to exactly 1.8 |
| `Rules.LockedFrameStaysInside` | js/main.js:281-286 | after a locked frame x and z lie in [-9.9, 9.9], whatever displacement the controls applied |
| `Rules.UnlockedFrameOnlySenses` | js/main.js:239-302 | without pointer lock, velocity, bob state, camera position and intents are unchanged |
| `Rules.FrameProximity` | js/main.js:289-297 | after a frame with the model loaded, near holds exactly when the camera is strictly inside radius 10 of the model, so distance exactly 10 is far. The prompt shows exactly when near |
| `Rules.NearFrameKeepsOverlay` | js/main.js:292-294 | a frame with the model loaded and distance below 10 makes the player near and leaves the overlay as it was, so an overlay opened with E stays open |
| `Rules.FarFrameClosesOverlay` | js/main.js:295-300 | a frame with the model loaded and distance >= 10 leaves the player far, the prompt hidden and the overlay closed |
| `Rules.SpawnPointIsFar` | js/main.js:41-43 | from any state that keeps the invariant (every reachable state does) with the camera at the spawn point (0, 1.8, 10), whatever keys were pressed and whether the model has loaded, an unlocked frame leaves the player far and the overlay closed, because the spawn point is farther than 10 from the model |
| `Rules.HeadBobIsSmall` | js/main.js:253-279 | after a locked frame the camera height lies within 0.15 of 1.8 |
| `Rules.ApplyKeepsInv` | js/main.js:136-302 | every key edge, model load and frame keeps the invariant |
| `Rules.RunKeepsInv` | js/main.js:136-302 | any sequence of events keeps the invariant |
| `Rules.ReachableStatesAreSafe` | js/main.js:190-201 | from the page's initial state, after any events, the velocity is within ±0.1 per axis and the overlay is open only while near |
| `Rules.CoastingFollowsGlide` | js/main.js:255-266 | with no key held, n locked frames coast each component exactly n deceleration steps |
| `Rules.CoastingComesToRest` | js/main.js:255-266 | with no key held, the velocity is exactly zero after ceil(abs(v)/0.01) locked frames per component |
| `Game.Walkthrough.constructor` | js/main.js:190-201 | the module variables start with no intent, zero velocity, the camera at the spawn point, no model and both flags false |
| `Game.Walkthrough.ToggleOverlay` | js/main.js:230-233 | flips `overlayVisible` in place and nothing else; being unguarded, it does not by itself keep the invariant |
| `Game.Walkthrough.KeyDown` | js/main.js:136-160 | updates the fields exactly as `Rules.OnKeyDown` says and keeps the invariant |
| `Game.Walkthrough.KeyUp` | js/main.js:162-181 | updates the fields exactly as `Rules.OnKeyUp` says and keeps the invariant |
| `Game.Walkthrough.ModelLoaded` | js/main.js:98-113 | the model becomes present with its prompt hidden; the invariant is kept |
| `Game.Walkthrough.Step` | js/main.js:236-302 | one frame updates the fields exactly as `Rules.Frame` says and keeps the invariant |
| `Game.Walkthrough.Move` | js/main.js:239-287 | the locked branch updates velocity, bob, height and position in place as `Rules.MoveStep` says, and keeps the invariant |
| `Game.Walkthrough.UpdateVelocity` | js/main.js:244-269 | while a key is held each axis accelerates and is clamped to ±0.1 and the bob speed follows; otherwise each axis decelerates toward zero and the bob speed is 0. Nothing else changes and the invariant is kept |
| `Game.Walkthrough.CheckProximity` | js/main.js:289-302 | the distance check updates the prompt, `isCloseEnough` and the overlay in place as `Rules.Sense` says, and keeps the invariant |
| `Game.InteractTwice` | js/main.js:154-158 | pressing E twice on the object leaves its whole state as it was |

## Left out

- Scene, skybox, walls, lights, ground plane and rendering (js/main.js:6-91, 304): no logic.
- GLTF loading, `createTextTexture` and the load-error callback (js/main.js:97-127): asynchronous I/O and canvas drawing. The model is modelled only as `Unloaded` or `Loaded(promptVisible)`, and a failed load is a run with no `ModelLoaded` event. The callback attaches the prompt in the same synchronous step that sets the model, so a loaded model always has its prompt, and the E key's `model.userData.prompt` test coincides with the model test.
- Overlay DOM construction and styling, including `overlay.style.display` (js/main.js:203-226, 232): only the `overlayVisible` flag is modelled.
- Fullscreen toggle, click-to-lock and resize handlers (js/main.js:9-25, 132-134, 311-315): browser plumbing. The pointer-lock state is the `locked` input of each frame.
- `direction.normalize()`, `distanceTo`, the square root in `bobbingSpeed` and `Math.sin` (js/main.js:242, 254, 275, 291): transcendental arithmetic. Their results are frame inputs constrained by `Rules.Admissible`.
- `Rules.MoveStep`: the displacement applied by the pointer-lock controls is unconstrained. In the source it is the negated velocity turned by the camera's yaw, so its length equals the length of the velocity. The yaw depends on mouse input, and the model does not keep the length constraint either.
- Floating-point rounding: all quantities are exact reals.
- `requestAnimationFrame` scheduling: one `Step` call or one `Tick` event per frame.
- `moveSpeed` (js/main.js:186) and `bobbingAmount` (js/main.js:197): the first is never read; the second is folded into the camera height.
