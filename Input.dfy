/**
 * The control-flag store `useControls` and its keyboard binding (input.ts): six booleans, a
 * setter that changes one of them, and keydown/keyup listeners that set a mapped key's flag.
 */
module Input {
  import opened Wrappers

  datatype Control = Forward | Backward | Left | Right | Brake | Reset

  class Controls {
    var forward: bool
    var backward: bool
    var left: bool
    var right: bool
    var brake: bool
    var reset: bool

    function Get(c: Control): bool
      reads this
    {
      match c
      case Forward => forward
      case Backward => backward
      case Left => left
      case Right => right
      case Brake => brake
      case Reset => reset
    }

    /** Every control starts released. */
    constructor ()
      ensures forall c :: !Get(c)
    {
      forward, backward, left, right, brake, reset := false, false, false, false, false, false;
    }

    /** `setControl(control, value)`: that flag becomes `value`, the other five keep theirs. */
    method SetControl(c: Control, v: bool)
      modifies this
      ensures Get(c) == v
      ensures forall d :: d != c ==> Get(d) == old(Get(d))
    {
      match c
      case Forward => forward := v;
      case Backward => backward := v;
      case Left => left := v;
      case Right => right := v;
      case Brake => brake := v;
      case Reset => reset := v;
    }
  }

  /** The `keys` table: `KeyboardEvent.key` values, matched exactly (case-sensitively). */
  function KeyControl(key: string): Option<Control>
  {
    if key == "ArrowUp" || key == "w" then Some(Forward)
    else if key == "ArrowDown" || key == "s" then Some(Backward)
    else if key == "ArrowLeft" || key == "a" then Some(Left)
    else if key == "ArrowRight" || key == "d" then Some(Right)
    else if key == " " then Some(Brake)
    else if key == "r" then Some(Reset)
    else None
  }

  /** The keydown listener: a mapped key presses its control; any other key changes nothing. */
  method KeyDown(controls: Controls, key: string)
    modifies controls
    ensures KeyControl(key).Some? ==> controls.Get(KeyControl(key).value)
    ensures forall d :: KeyControl(key) != Some(d) ==> controls.Get(d) == old(controls.Get(d))
  {
    var c := KeyControl(key);
    if c.Some? {
      controls.SetControl(c.value, true);
    }
  }

  /** The keyup listener: a mapped key releases its control; any other key changes nothing. */
  method KeyUp(controls: Controls, key: string)
    modifies controls
    ensures KeyControl(key).Some? ==> !controls.Get(KeyControl(key).value)
    ensures forall d :: KeyControl(key) != Some(d) ==> controls.Get(d) == old(controls.Get(d))
  {
    var c := KeyControl(key);
    if c.Some? {
      controls.SetControl(c.value, false);
    }
  }

  /** Arrow keys and w/s/a/d steer, space brakes and r resets. */
  lemma KeyBindings()
    ensures KeyControl("ArrowUp") == Some(Forward) && KeyControl("w") == Some(Forward)
    ensures KeyControl("ArrowDown") == Some(Backward) && KeyControl("s") == Some(Backward)
    ensures KeyControl("ArrowLeft") == Some(Left) && KeyControl("a") == Some(Left)
    ensures KeyControl("ArrowRight") == Some(Right) && KeyControl("d") == Some(Right)
    ensures KeyControl(" ") == Some(Brake) && KeyControl("r") == Some(Reset)
  {
    assert "ArrowDown" != "ArrowUp" && "ArrowDown"[5] == 'D';
    assert "ArrowLeft" != "ArrowUp" && "ArrowLeft" != "ArrowDown";
    assert "ArrowRight" != "ArrowUp" && "ArrowRight" != "ArrowDown" && "ArrowRight" != "ArrowLeft";
  }

  /** Matching is case-sensitive: upper-case letters and other keys are unbound. */
  lemma UnboundKeys()
    ensures KeyControl("W") == None && KeyControl("R") == None && KeyControl("Shift") == None
  {
  }

  /** Every control has at least one key. */
  lemma EveryControlHasKey(c: Control)
    ensures exists k :: KeyControl(k) == Some(c)
  {
    KeyBindings();
    match c
    case Forward => assert KeyControl("w") == Some(c);
    case Backward => assert KeyControl("s") == Some(c);
    case Left => assert KeyControl("a") == Some(c);
    case Right => assert KeyControl("d") == Some(c);
    case Brake => assert KeyControl(" ") == Some(c);
    case Reset => assert KeyControl("r") == Some(c);
  }
}
