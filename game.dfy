/**
 * The walkthrough's module-level variables and the handlers that update
 * them in place (js/main.js): key edges, the overlay toggle, the model's
 * load callback, and one frame of `animate`. KeyDown, KeyUp, ModelLoaded,
 * Step, Move and CheckProximity are proved equal to their Rules function and
 * to keep Rules.Inv. ToggleOverlay matches Rules.Toggle but is unguarded, as
 * in the source, so it does not keep Inv by itself. UpdateVelocity is stated
 * with Kinematics.Accelerate and Decelerate.
 */
module Game {
  import opened Keys
  import opened Kinematics
  import opened Rules

  class Walkthrough {
    var moveForward: bool
    var moveBackward: bool
    var moveLeft: bool
    var moveRight: bool
    var velocityX: real
    var velocityZ: real
    var bobbingSpeed: real
    var bobbingPhase: real
    var cameraX: real
    var cameraY: real
    var cameraZ: real
    var model: Model
    var isCloseEnough: bool
    var overlayVisible: bool

    /** The variables as one value. */
    function State(): Snapshot
      reads this
    {
      Snapshot(Intents(moveForward, moveBackward, moveLeft, moveRight),
               velocityX, velocityZ, bobbingSpeed, bobbingPhase,
               cameraX, cameraY, cameraZ, model, isCloseEnough, overlayVisible)
    }

    ghost predicate Valid()
      reads this
    {
      Inv(State())
    }

    /** The page loads: every variable at its declared initial value. */
    constructor ()
      ensures Valid() && State() == Initial
    {
      moveForward, moveBackward, moveLeft, moveRight := false, false, false, false;
      velocityX, velocityZ := 0.0, 0.0;
      bobbingSpeed, bobbingPhase := 0.0, 0.0;
      cameraX, cameraY, cameraZ := 0.0, CameraHeight, SpawnZ;
      model := Unloaded;
      isCloseEnough, overlayVisible := false, false;
    }

    /**
     * `toggleOverlay`: flips the overlay and nothing else. It is unguarded, so
     * it does not keep Valid() by itself; its two callers, the E key and the
     * far branch of the proximity check, call it only when that is safe.
     */
    method ToggleOverlay()
      modifies this
      ensures State() == Toggle(old(State()))
    {
      overlayVisible := !overlayVisible;
    }

    /** `onKeyDown` */
    method KeyDown(code: string)
      requires Valid()
      modifies this
      ensures Valid() && State() == OnKeyDown(old(State()), code)
    {
      if code == "ArrowUp" || code == "KeyW" {
        moveForward := true;
      } else if code == "ArrowLeft" || code == "KeyA" {
        moveLeft := true;
      } else if code == "ArrowDown" || code == "KeyS" {
        moveBackward := true;
      } else if code == "ArrowRight" || code == "KeyD" {
        moveRight := true;
      } else if code == "KeyE" {
        if isCloseEnough && model.Loaded? {
          ToggleOverlay();
        }
      }
    }

    /** `onKeyUp` */
    method KeyUp(code: string)
      requires Valid()
      modifies this
      ensures Valid() && State() == OnKeyUp(old(State()), code)
    {
      if code == "ArrowUp" || code == "KeyW" {
        moveForward := false;
      } else if code == "ArrowLeft" || code == "KeyA" {
        moveLeft := false;
      } else if code == "ArrowDown" || code == "KeyS" {
        moveBackward := false;
      } else if code == "ArrowRight" || code == "KeyD" {
        moveRight := false;
      }
    }

    /** The loader's success callback: the model is set and its prompt starts hidden. */
    method ModelLoaded()
      requires Valid()
      modifies this
      ensures Valid() && State() == Load(old(State()))
    {
      model := Loaded(false);
    }

    /** One call of `animate`, on the inputs of this frame. */
    method Step(f: FrameInput)
      requires Valid() && Admissible(State(), f)
      modifies this
      ensures Valid() && State() == Frame(old(State()), f)
    {
      if f.locked {
        Move(f);
      }
      CheckProximity(f.distance);
    }

    /** The part of `animate` that runs under pointer lock. */
    method Move(f: FrameInput)
      requires Valid()
      modifies this
      ensures State() == MoveStep(old(State()), f)
      ensures Valid()
    {
      UpdateVelocity(f);

      if bobbingSpeed > 0.0 {
        bobbingPhase := bobbingPhase + BobbingFrequency;
        cameraY := CameraHeight + f.sine * BobbingAmplitude * bobbingSpeed;
      } else {
        cameraY := CameraHeight;
      }

      // the pointer-lock controls move the camera by this frame's displacement
      cameraX := cameraX + f.displacementX;
      cameraZ := cameraZ + f.displacementZ;

      cameraX := Clamp(cameraX, -WallLimit, WallLimit);
      cameraZ := Clamp(cameraZ, -WallLimit, WallLimit);
    }

    /**
     * The start of the locked branch: accelerate while a key is held, coast
     * otherwise, and set the bob speed. Only the velocity and the bob speed
     * change, and the speed cap is kept.
     */
    method UpdateVelocity(f: FrameInput)
      requires Valid()
      modifies this
      ensures Valid()
      ensures var moving := old(State()).intents.Any();
        velocityX == (if moving then Accelerate(old(velocityX), f.directionX) else Decelerate(old(velocityX))) &&
        velocityZ == (if moving then Accelerate(old(velocityZ), f.directionZ) else Decelerate(old(velocityZ))) &&
        bobbingSpeed == (if moving then f.speed * BobbingScale else 0.0)
      ensures State() == old(State()).(velocityX := velocityX, velocityZ := velocityZ, bobbingSpeed := bobbingSpeed)
    {
      if moveForward || moveBackward || moveLeft || moveRight {
        velocityZ := velocityZ - f.directionZ * Acceleration;
        velocityX := velocityX - f.directionX * Acceleration;
        velocityZ := Clamp(velocityZ, -MaxSpeed, MaxSpeed);
        velocityX := Clamp(velocityX, -MaxSpeed, MaxSpeed);
        bobbingSpeed := f.speed * BobbingScale;
      } else {
        if velocityZ > 0.0 {
          velocityZ := Max(velocityZ - Deceleration, 0.0);
        } else {
          velocityZ := Min(velocityZ + Deceleration, 0.0);
        }
        if velocityX > 0.0 {
          velocityX := Max(velocityX - Deceleration, 0.0);
        } else {
          velocityX := Min(velocityX + Deceleration, 0.0);
        }
        bobbingSpeed := 0.0;
      }
    }

    /** The distance check at the end of `animate`. */
    method CheckProximity(distance: real)
      requires Valid()
      modifies this
      ensures Valid() && State() == Sense(old(State()), distance)
    {
      if model.Loaded? {
        if distance < NearDistance {
          model := Loaded(true);
          isCloseEnough := true;
        } else {
          model := Loaded(false);
          isCloseEnough := false;
          if overlayVisible {
            ToggleOverlay();
          }
        }
      }
    }
  }

  /** Two presses of E in a row, on the object itself, leave the overlay as it was. */
  method InteractTwice(w: Walkthrough)
    requires w.Valid()
    modifies w
    ensures w.Valid() && w.State() == old(w.State())
  {
    w.KeyDown("KeyE");
    w.KeyDown("KeyE");
    InteractTwiceRestores(old(w.State()));
  }
}
