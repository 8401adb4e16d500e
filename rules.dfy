/**
 * The walkthrough's module state as one value, and what each event does to
 * it: a key edge, the overlay toggle, the model finishing loading, and one
 * frame of `animate`. These functions specify the methods of
 * Game.Walkthrough; the lemmas here state what the page promises.
 */
module Rules {
  import opened Wrappers
  import opened Keys
  import opened Kinematics

  const CameraHeight: real := 1.8
  const SpawnZ: real := 10.0
  /** The camera is kept inside [-WallLimit, WallLimit] on x and on z. */
  const WallLimit: real := 9.9
  /** The player is near the model when strictly closer than this. */
  const NearDistance: real := 10.0
  const BobbingFrequency: real := 0.1
  /** bobbingSpeed = |velocity| * BobbingScale */
  const BobbingScale: real := 10.0
  /** camera height = base + sin(phase) * BobbingAmplitude * bobbingSpeed */
  const BobbingAmplitude: real := 0.1

  /**
   * The loaded 3D model: `undefined` until the loader's callback runs, then
   * an object carrying its "Press E" prompt sprite, given here by that
   * sprite's `visible` flag. The callback attaches the prompt in the same
   * synchronous step that sets the model, so a loaded model always has one.
   */
  datatype Model = Unloaded | Loaded(promptVisible: bool)

  /** Every module-level variable the event handlers and the frame loop touch. */
  datatype Snapshot = Snapshot(
    intents: Intents,
    velocityX: real, velocityZ: real,
    bobbingSpeed: real, bobbingPhase: real,
    cameraX: real, cameraY: real, cameraZ: real,
    model: Model,
    isCloseEnough: bool,
    overlayVisible: bool)

  /**
   * What one frame reads from outside the modelled state: whether the
   * pointer is locked, the normalised direction, the length of the new
   * velocity (a square root), sin(bobbingPhase), the displacement the
   * pointer-lock controls apply (it depends on where the camera looks),
   * and the camera's distance to the model.
   */
  datatype FrameInput = FrameInput(
    locked: bool,
    directionX: real, directionZ: real,
    speed: real,
    sine: real,
    displacementX: real, displacementZ: real,
    distance: real)

  /** The page as loaded: no key held, at rest, at the spawn point, model not yet loaded. */
  const Initial := Snapshot(NoIntents, 0.0, 0.0, 0.0, 0.0, 0.0, CameraHeight, SpawnZ,
                            Unloaded, false, false)

  /** The invariant the handlers and the frame keep: the speed cap and "the overlay is open only when near". */
  predicate Inv(s: Snapshot)
  {
    -MaxSpeed <= s.velocityX <= MaxSpeed && -MaxSpeed <= s.velocityZ <= MaxSpeed &&
    (s.overlayVisible ==> s.isCloseEnough) &&
    (s.isCloseEnough ==> s.model.Loaded?)
  }

  function RawX(i: Intents): int { Axis(i.right, i.left) }
  function RawZ(i: Intents): int { Axis(i.forward, i.backward) }

  function Sq(x: real): real { x * x }

  /** The squared distance from the camera to the model, which sits at the origin. */
  function DistanceSquared(s: Snapshot): real
  {
    Sq(s.cameraX) + Sq(s.cameraY) + Sq(s.cameraZ)
  }

  /** `toggleOverlay`: flip the overlay. */
  function Toggle(s: Snapshot): (r: Snapshot)
    ensures r.overlayVisible != s.overlayVisible
    ensures r.(overlayVisible := s.overlayVisible) == s
  {
    s.(overlayVisible := !s.overlayVisible)
  }

  /** The E key: toggle the overlay only when near a loaded model that has its prompt. */
  function Interact(s: Snapshot): (r: Snapshot)
    ensures r.overlayVisible != s.overlayVisible <==> s.isCloseEnough && s.model.Loaded?
    ensures r.(overlayVisible := s.overlayVisible) == s
  {
    if s.isCloseEnough && s.model.Loaded? then Toggle(s) else s
  }

  /**
   * `onKeyDown`: a movement key sets its own intent; E flips the overlay
   * exactly when near a loaded model; nothing else changes.
   */
  function OnKeyDown(s: Snapshot, code: string): (r: Snapshot)
    ensures forall k :: r.intents.Has(k) == (s.intents.Has(k) || IntentOf(code) == Some(k))
    ensures r.overlayVisible != s.overlayVisible <==>
              code == "KeyE" && s.isCloseEnough && s.model.Loaded?
    ensures r.(intents := s.intents, overlayVisible := s.overlayVisible) == s
  {
    if code == "KeyE" then Interact(s) else s.(intents := Press(s.intents, code))
  }

  /** `onKeyUp`: a movement key clears its own intent; nothing else changes. */
  function OnKeyUp(s: Snapshot, code: string): (r: Snapshot)
    ensures forall k :: r.intents.Has(k) == (s.intents.Has(k) && IntentOf(code) != Some(k))
    ensures r.(intents := s.intents) == s
  {
    s.(intents := Release(s.intents, code))
  }

  /** The loader's callback: the model appears with its prompt hidden; the invariant is kept. */
  function Load(s: Snapshot): (r: Snapshot)
    ensures r.model == Loaded(false)
    ensures r.(model := s.model) == s
    ensures Inv(s) ==> Inv(r)
  {
    s.(model := Loaded(false))
  }

  /** The locked part of a frame: velocity, head bob, controls displacement, wall clamp. */
  function MoveStep(s: Snapshot, f: FrameInput): (r: Snapshot)
    ensures -WallLimit <= r.cameraX <= WallLimit && -WallLimit <= r.cameraZ <= WallLimit
    ensures -WallLimit <= s.cameraX + f.displacementX <= WallLimit ==> r.cameraX == s.cameraX + f.displacementX
    ensures -WallLimit <= s.cameraZ + f.displacementZ <= WallLimit ==> r.cameraZ == s.cameraZ + f.displacementZ
    ensures s.cameraX + f.displacementX > WallLimit ==> r.cameraX == WallLimit
    ensures s.cameraX + f.displacementX < -WallLimit ==> r.cameraX == -WallLimit
    ensures s.cameraZ + f.displacementZ > WallLimit ==> r.cameraZ == WallLimit
    ensures s.cameraZ + f.displacementZ < -WallLimit ==> r.cameraZ == -WallLimit
    ensures !s.intents.Any() ==> r.bobbingSpeed == 0.0 && r.cameraY == CameraHeight
    ensures r.intents == s.intents && r.model == s.model
    ensures r.isCloseEnough == s.isCloseEnough && r.overlayVisible == s.overlayVisible
    ensures Inv(s) ==> Inv(r)
  {
    var moving := s.intents.Any();
    var vx := if moving then Accelerate(s.velocityX, f.directionX) else Decelerate(s.velocityX);
    var vz := if moving then Accelerate(s.velocityZ, f.directionZ) else Decelerate(s.velocityZ);
    var bobbing := if moving then f.speed * BobbingScale else 0.0;
    s.(velocityX := vx, velocityZ := vz,
       bobbingSpeed := bobbing,
       bobbingPhase := if bobbing > 0.0 then s.bobbingPhase + BobbingFrequency else s.bobbingPhase,
       cameraY := if bobbing > 0.0 then CameraHeight + f.sine * BobbingAmplitude * bobbing else CameraHeight,
       cameraX := Clamp(s.cameraX + f.displacementX, -WallLimit, WallLimit),
       cameraZ := Clamp(s.cameraZ + f.displacementZ, -WallLimit, WallLimit))
  }

  /**
   * The proximity check: with the model loaded, near means strictly closer
   * than NearDistance; the prompt shows exactly when near, and being far
   * closes an open overlay. Without the model nothing changes.
   */
  function Sense(s: Snapshot, distance: real): (r: Snapshot)
    ensures s.model.Unloaded? ==> r == s
    ensures s.model.Loaded? ==> r.isCloseEnough == (distance < NearDistance)
    ensures s.model.Loaded? ==> r.model == Loaded(r.isCloseEnough)
    ensures s.model.Loaded? && distance >= NearDistance ==> !r.overlayVisible
    ensures s.model.Loaded? && distance < NearDistance ==> r.overlayVisible == s.overlayVisible
    ensures r.overlayVisible ==> s.overlayVisible
    ensures r.overlayVisible ==> r.isCloseEnough || r == s
    ensures r.(model := s.model, isCloseEnough := s.isCloseEnough, overlayVisible := s.overlayVisible) == s
  {
    if s.model.Unloaded? then s
    else if distance < NearDistance then s.(model := Loaded(true), isCloseEnough := true)
    else
      var far := s.(model := Loaded(false), isCloseEnough := false);
      if far.overlayVisible then Toggle(far) else far
  }

  /**
   * One call of `animate`: move only while the pointer is locked, then check
   * proximity. Whatever the inputs, a frame keeps the invariant, never changes
   * the intents and never opens the overlay.
   */
  function Frame(s: Snapshot, f: FrameInput): (r: Snapshot)
    ensures Inv(s) ==> Inv(r)
    ensures r.intents == s.intents
    ensures r.overlayVisible ==> s.overlayVisible
  {
    Sense(if f.locked then MoveStep(s, f) else s, f.distance)
  }

  /**
   * What the environment guarantees about a frame's inputs in state s: the
   * direction is the normalised raw direction of the held keys; while a key
   * is held, `speed` is the length of the new velocity; the sine lies in [-1, 1]; `distance` is
   * the length of the camera's position once moved.
   */
  predicate Admissible(s: Snapshot, f: FrameInput)
  {
    Normalised(RawX(s.intents), RawZ(s.intents), f.directionX, f.directionZ) &&
    -1.0 <= f.sine <= 1.0 &&
    f.speed >= 0.0 &&
    (s.intents.Any() ==>
      f.speed * f.speed == Sq(Accelerate(s.velocityX, f.directionX)) + Sq(Accelerate(s.velocityZ, f.directionZ))) &&
    f.distance >= 0.0 &&
    f.distance * f.distance == DistanceSquared(if f.locked then MoveStep(s, f) else s)
  }

  // ---------------------------------------------------------------------
  // Key events

  /** A movement key's down edge sets its own intent and touches nothing else. */
  lemma KeyDownSetsOnlyItsIntent(s: Snapshot, code: string, k: Intent)
    requires IntentOf(code) == Some(k)
    ensures OnKeyDown(s, code).intents.Has(k)
    ensures forall j :: j != k ==> OnKeyDown(s, code).intents.Has(j) == s.intents.Has(j)
    ensures OnKeyDown(s, code).(intents := s.intents) == s
  {
  }

  /** A movement key's up edge clears its own intent and touches nothing else. */
  lemma KeyUpClearsOnlyItsIntent(s: Snapshot, code: string, k: Intent)
    requires IntentOf(code) == Some(k)
    ensures !OnKeyUp(s, code).intents.Has(k)
    ensures forall j :: j != k ==> OnKeyUp(s, code).intents.Has(j) == s.intents.Has(j)
    ensures OnKeyUp(s, code).(intents := s.intents) == s
  {
  }

  /** Any key that is neither a movement key nor E changes nothing, down or up. */
  lemma OtherKeysChangeNothing(s: Snapshot, code: string)
    requires IntentOf(code) == None && code != "KeyE"
    ensures OnKeyDown(s, code) == s && OnKeyUp(s, code) == s
  {
  }

  /** E flips the overlay if and only if the player is near a loaded model; otherwise nothing changes. */
  lemma InteractFlipsIffNear(s: Snapshot)
    ensures var r := OnKeyDown(s, "KeyE");
      (r.overlayVisible != s.overlayVisible <==> s.isCloseEnough && s.model.Loaded?) &&
      r.(overlayVisible := s.overlayVisible) == s
  {
  }

  /** Two toggles in a row restore the overlay, and so do two presses of E. */
  lemma InteractTwiceRestores(s: Snapshot)
    ensures Toggle(Toggle(s)) == s
    ensures OnKeyDown(OnKeyDown(s, "KeyE"), "KeyE") == s
  {
  }

  /** E up changes nothing; only its down edge interacts. */
  lemma InteractKeyUpChangesNothing(s: Snapshot)
    ensures OnKeyUp(s, "KeyE") == s
  {
  }

  // ---------------------------------------------------------------------
  // One frame

  /** With a key held, each velocity component ends the frame in [-maxSpeed, maxSpeed], from any velocity. */
  lemma MovingFrameCapsSpeed(s: Snapshot, f: FrameInput)
    requires f.locked && s.intents.Any()
    ensures -MaxSpeed <= Frame(s, f).velocityX <= MaxSpeed
    ensures -MaxSpeed <= Frame(s, f).velocityZ <= MaxSpeed
  {
  }

  /** With a key held, each component takes one acceleration step along the direction, then is capped. */
  lemma MovingFrameAccelerates(s: Snapshot, f: FrameInput)
    requires f.locked && s.intents.Any()
    ensures Frame(s, f).velocityX == Accelerate(s.velocityX, f.directionX)
    ensures Frame(s, f).velocityZ == Accelerate(s.velocityZ, f.directionZ)
  {
  }

  /** While moving, a component changes by at most one acceleration step per frame. */
  lemma {:induction false} MovingFrameStepsGently(s: Snapshot, f: FrameInput)
    requires Inv(s) && Admissible(s, f) && f.locked && s.intents.Any()
    ensures Abs(Frame(s, f).velocityX - s.velocityX) <= Acceleration
    ensures Abs(Frame(s, f).velocityZ - s.velocityZ) <= Acceleration
  {
    UnitComponents(RawX(s.intents), RawZ(s.intents), f.directionX, f.directionZ);
  }

  /**
   * Keys held only in opposite pairs (W with S, A with D, or both pairs) give
   * a zero direction: the moving branch is taken and the velocity is held,
   * not decelerated.
   */
  lemma OpposedKeysHoldVelocity(s: Snapshot, f: FrameInput)
    requires Inv(s) && Admissible(s, f) && f.locked
    requires RawX(s.intents) == 0 && RawZ(s.intents) == 0 && s.intents.Any()
    ensures Frame(s, f).velocityX == s.velocityX && Frame(s, f).velocityZ == s.velocityZ
  {
  }

  /** With no key held, each component coasts one deceleration step toward zero. */
  lemma IdleFrameDecelerates(s: Snapshot, f: FrameInput)
    requires f.locked && !s.intents.Any()
    ensures Frame(s, f).velocityX == Decelerate(s.velocityX)
    ensures Frame(s, f).velocityZ == Decelerate(s.velocityZ)
  {
  }

  /** A locked frame with no key held stops the bob and puts the camera at exactly its base height. */
  lemma IdleFrameResetsHeight(s: Snapshot, f: FrameInput)
    requires f.locked && !s.intents.Any()
    ensures Frame(s, f).bobbingSpeed == 0.0 && Frame(s, f).cameraY == CameraHeight
  {
  }

  /** A locked frame leaves the camera inside the walls on x and z, whatever the controls moved it by. */
  lemma LockedFrameStaysInside(s: Snapshot, f: FrameInput)
    requires f.locked
    ensures -WallLimit <= Frame(s, f).cameraX <= WallLimit
    ensures -WallLimit <= Frame(s, f).cameraZ <= WallLimit
  {
  }

  /** Without pointer lock only the proximity check runs: velocity, bob and camera are untouched. */
  lemma UnlockedFrameOnlySenses(s: Snapshot, f: FrameInput)
    requires !f.locked
    ensures var r := Frame(s, f);
      r.velocityX == s.velocityX && r.velocityZ == s.velocityZ &&
      r.bobbingSpeed == s.bobbingSpeed && r.bobbingPhase == s.bobbingPhase &&
      r.cameraX == s.cameraX && r.cameraY == s.cameraY && r.cameraZ == s.cameraZ &&
      r.intents == s.intents
  {
  }

  /** 0 <= d: d < bound exactly when d * d < bound * bound. */
  lemma SquareMonotone(d: real, bound: real)
    requires d >= 0.0 && bound >= 0.0
    ensures d < bound <==> d * d < bound * bound
  {
    if d < bound {
      calc {
        d * d;
      <= d * bound;
      <  bound * bound;
      }
    } else {
      assert d * d >= bound * d;
      assert bound * d >= bound * bound;
      assert d * d >= bound * bound;
    }
  }

  /** A component within the speed cap has a square of at most maxSpeed squared. */
  lemma SquareOfCapped(v: real)
    requires -MaxSpeed <= v <= MaxSpeed
    ensures Sq(v) <= MaxSpeed * MaxSpeed
  {
    assert MaxSpeed * MaxSpeed == 0.01;
    if v >= 0.0 {
      assert v * v <= v * 0.1;
    } else {
      assert v * v <= -v * 0.1;
    }
  }

  /**
   * After a frame with the model loaded the player is near exactly when the
   * camera is strictly inside the sphere of radius 10 around the model, and
   * the prompt shows exactly then; distance exactly 10 counts as far.
   */
  lemma {:induction false} FrameProximity(s: Snapshot, f: FrameInput)
    requires Admissible(s, f) && s.model.Loaded?
    ensures var r := Frame(s, f);
      r.isCloseEnough == (DistanceSquared(r) < NearDistance * NearDistance) &&
      r.model == Loaded(r.isCloseEnough)
  {
    var moved := if f.locked then MoveStep(s, f) else s;
    SquareMonotone(f.distance, NearDistance);
    assert Frame(s, f).(model := moved.model, isCloseEnough := moved.isCloseEnough,
                        overlayVisible := moved.overlayVisible) == moved;
  }

  /** A frame with the model loaded and the player nearer than 10 leaves the overlay as it was. */
  lemma NearFrameKeepsOverlay(s: Snapshot, f: FrameInput)
    requires s.model.Loaded? && f.distance < NearDistance
    ensures Frame(s, f).isCloseEnough && Frame(s, f).overlayVisible == s.overlayVisible
  {
  }

  /** A frame with the model loaded and the player at distance 10 or more leaves the overlay closed. */
  lemma FarFrameClosesOverlay(s: Snapshot, f: FrameInput)
    requires s.model.Loaded? && f.distance >= NearDistance
    ensures !Frame(s, f).isCloseEnough && !Frame(s, f).overlayVisible
    ensures Frame(s, f).model == Loaded(false)
  {
  }

  /**
   * Until the pointer is first locked the camera stands at the spawn point
   * (0, 1.8, 10), just over 10 from the model: an unlocked frame there never
   * makes the player near, whatever keys were pressed and whether or not the
   * model has loaded.
   */
  lemma {:induction false} SpawnPointIsFar(s: Snapshot, f: FrameInput)
    requires Inv(s) && s.cameraX == 0.0 && s.cameraY == CameraHeight && s.cameraZ == SpawnZ
    requires Admissible(s, f) && !f.locked
    ensures !Frame(s, f).isCloseEnough && !Frame(s, f).overlayVisible
  {
    assert DistanceSquared(s) == 103.24;
    SquareMonotone(f.distance, NearDistance);
  }

  /** The camera's height never leaves [1.65, 1.95] after a locked frame: the bob is at most 15 cm. */
  lemma {:induction false} HeadBobIsSmall(s: Snapshot, f: FrameInput)
    requires Inv(s) && Admissible(s, f) && f.locked
    ensures CameraHeight - 0.15 <= Frame(s, f).cameraY <= CameraHeight + 0.15
  {
    if s.intents.Any() {
      var vx := Accelerate(s.velocityX, f.directionX);
      var vz := Accelerate(s.velocityZ, f.directionZ);
      SquareOfCapped(vx);
      SquareOfCapped(vz);
      assert f.speed * f.speed <= 0.02;
      SquareMonotone(f.speed, 0.15);
      assert f.speed < 0.15;
      var y := Frame(s, f).cameraY;
      assert y == CameraHeight || y == CameraHeight + f.sine * BobbingAmplitude * (f.speed * BobbingScale);
      assert f.sine * BobbingAmplitude * (f.speed * BobbingScale) == f.sine * f.speed;
      assert -f.speed <= f.sine * f.speed <= f.speed;
    }
  }

  // ---------------------------------------------------------------------
  // Runs of events from the page's start

  /** Anything that can happen between two observations of the state. */
  datatype Event =
    | KeyDown(code: string)
    | KeyUp(code: string)
    | ModelLoaded
    | Tick(input: FrameInput)

  function Apply(s: Snapshot, e: Event): Snapshot
  {
    match e
    case KeyDown(code) => OnKeyDown(s, code)
    case KeyUp(code) => OnKeyUp(s, code)
    case ModelLoaded => Load(s)
    case Tick(f) => Frame(s, f)
  }

  function Run(s: Snapshot, es: seq<Event>): Snapshot
    decreases |es|
  {
    if es == [] then s else Run(Apply(s, es[0]), es[1..])
  }

  /** Every event keeps the invariant. */
  lemma ApplyKeepsInv(s: Snapshot, e: Event)
    requires Inv(s)
    ensures Inv(Apply(s, e))
  {
  }

  /** Any run of events keeps the invariant. */
  lemma {:induction false} RunKeepsInv(s: Snapshot, es: seq<Event>)
    requires Inv(s)
    ensures Inv(Run(s, es))
    decreases |es|
  {
    if es != [] {
      ApplyKeepsInv(s, es[0]);
      RunKeepsInv(Apply(s, es[0]), es[1..]);
    }
  }

  /**
   * From the page's start, after any sequence of key edges, loads and frames,
   * the velocity is within the cap and the overlay is open only while the
   * player is near the model.
   */
  lemma {:induction false} ReachableStatesAreSafe(es: seq<Event>)
    ensures var r := Run(Initial, es);
      -MaxSpeed <= r.velocityX <= MaxSpeed && -MaxSpeed <= r.velocityZ <= MaxSpeed &&
      (r.overlayVisible ==> r.isCloseEnough)
  {
    RunKeepsInv(Initial, es);
  }

  predicate LockedTicks(es: seq<Event>)
  {
    forall i :: 0 <= i < |es| ==> es[i].Tick? && es[i].input.locked
  }

  /** With no key held, n locked frames coast each component n deceleration steps. */
  lemma {:induction false} CoastingFollowsGlide(s: Snapshot, es: seq<Event>)
    requires !s.intents.Any() && LockedTicks(es)
    ensures Run(s, es).velocityX == Glide(s.velocityX, |es|)
    ensures Run(s, es).velocityZ == Glide(s.velocityZ, |es|)
    decreases |es|
  {
    if es != [] {
      var next := Apply(s, es[0]);
      assert next.velocityX == Decelerate(s.velocityX) && next.velocityZ == Decelerate(s.velocityZ);
      assert next.intents == s.intents;
      assert LockedTicks(es[1..]) by {
        forall i | 0 <= i < |es[1..]| ensures es[1..][i].Tick? && es[1..][i].input.locked {
          assert es[1..][i] == es[i + 1];
        }
      }
      CoastingFollowsGlide(next, es[1..]);
    }
  }

  /**
   * With no key held the player comes to rest: after at least
   * ceil(|v| / deceleration) locked frames for both components, the velocity
   * is exactly zero.
   */
  lemma {:induction false} CoastingComesToRest(s: Snapshot, es: seq<Event>)
    requires !s.intents.Any() && LockedTicks(es)
    requires |es| >= FramesToRest(s.velocityX) && |es| >= FramesToRest(s.velocityZ)
    ensures Run(s, es).velocityX == 0.0 && Run(s, es).velocityZ == 0.0
  {
    CoastingFollowsGlide(s, es);
    GlideStaysAtRest(s.velocityX, |es|);
    GlideStaysAtRest(s.velocityZ, |es|);
  }
}
