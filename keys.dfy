/**
 * The four movement intents of the walkthrough and how keyboard edges
 * set and clear them (js/main.js, onKeyDown and onKeyUp).
 */
module Keys {
  import opened Wrappers

  /** One direction the player can ask to move in. */
  datatype Intent = Forward | Backward | Left | Right

  /** The four intent flags `moveForward`, `moveBackward`, `moveLeft`, `moveRight`. */
  datatype Intents = Intents(forward: bool, backward: bool, left: bool, right: bool)
  {
    predicate Has(k: Intent)
    {
      match k
      case Forward => forward
      case Backward => backward
      case Left => left
      case Right => right
    }

    /** True when at least one movement key is held. */
    predicate Any()
    {
      forward || backward || left || right
    }

    /** The same flags with the flag of `k` set to `b`. */
    function With(k: Intent, b: bool): (r: Intents)
      ensures r.Has(k) == b
      ensures forall j :: j != k ==> r.Has(j) == Has(j)
    {
      match k
      case Forward => this.(forward := b)
      case Backward => this.(backward := b)
      case Left => this.(left := b)
      case Right => this.(right := b)
    }
  }

  /** No key held: the state the page starts in. */
  const NoIntents := Intents(false, false, false, false)

  /** The `event.code` values that drive each intent: a letter key and an arrow key. */
  function KeyCodes(k: Intent): set<string>
  {
    match k
    case Forward => {"KeyW", "ArrowUp"}
    case Backward => {"KeyS", "ArrowDown"}
    case Left => {"KeyA", "ArrowLeft"}
    case Right => {"KeyD", "ArrowRight"}
  }

  /**
   * The intent a key code drives, in the order the `switch` tests them; None
   * for any other key. A code drives an intent exactly when it is one of that
   * intent's two keys.
   */
  function IntentOf(code: string): (r: Option<Intent>)
    ensures forall k :: r == Some(k) <==> code in KeyCodes(k)
  {
    if code == "ArrowUp" || code == "KeyW" then Some(Forward)
    else if code == "ArrowLeft" || code == "KeyA" then Some(Left)
    else if code == "ArrowDown" || code == "KeyS" then Some(Backward)
    else if code == "ArrowRight" || code == "KeyD" then Some(Right)
    else None
  }

  /** Key-down edge: the key's own intent becomes set, every other intent is kept. */
  function Press(i: Intents, code: string): (r: Intents)
    ensures forall k :: r.Has(k) == (i.Has(k) || IntentOf(code) == Some(k))
  {
    match IntentOf(code)
    case Some(k) => i.With(k, true)
    case None => i
  }

  /** Key-up edge: the key's own intent becomes clear, every other intent is kept. */
  function Release(i: Intents, code: string): (r: Intents)
    ensures forall k :: r.Has(k) == (i.Has(k) && IntentOf(code) != Some(k))
  {
    match IntentOf(code)
    case Some(k) => i.With(k, false)
    case None => i
  }

  /** A key that is not a movement key leaves all four intents as they were, on press and on release. */
  lemma OtherKeysIgnored(i: Intents, code: string)
    requires IntentOf(code) == None
    ensures Press(i, code) == i && Release(i, code) == i
  {
  }

  /** Releasing a key undoes pressing it when its intent was clear before. */
  lemma ReleaseUndoesPress(i: Intents, code: string)
    requires IntentOf(code).Some? && !i.Has(IntentOf(code).value)
    ensures Release(Press(i, code), code) == i
  {
  }

  /** Pressing a key twice is the same as pressing it once (key repeat changes nothing). */
  lemma PressIdempotent(i: Intents, code: string)
    ensures Press(Press(i, code), code) == Press(i, code)
  {
  }

  /** Edges of keys that drive different intents commute: two presses, two releases, or one of each. */
  lemma IndependentKeysCommute(i: Intents, a: string, b: string)
    requires IntentOf(a) != IntentOf(b)
    ensures Press(Press(i, b), a) == Press(Press(i, a), b)
    ensures Release(Release(i, b), a) == Release(Release(i, a), b)
    ensures Press(Release(i, b), a) == Release(Press(i, a), b)
  {
    match IntentOf(a)
    case None =>
    case Some(ka) =>
      match IntentOf(b)
      case None =>
      case Some(kb) =>
        assert ka != kb;
  }
}
