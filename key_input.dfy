/**
 * The keystroke filter used on name-like input fields: Space, Tab and Enter
 * have their default handling suppressed, every other key passes.
 */
module KeyInput {

  const SPACE: int := 32
  const TAB: int := 9
  const ENTER: int := 13

  /** A keyboard event: its key code and whether default handling is prevented. */
  class KeyEvent {
    const keyCode: int
    var defaultPrevented: bool

    constructor (keyCode: int)
      ensures this.keyCode == keyCode && !defaultPrevented
    {
      this.keyCode := keyCode;
      defaultPrevented := false;
    }

    /** `event.preventDefault()`. */
    method PreventDefault()
      modifies this
      ensures defaultPrevented
    {
      defaultPrevented := true;
    }
  }

  /** The keys the filter blocks. */
  predicate IsBlockedKey(keyCode: int) {
    keyCode == SPACE || keyCode == TAB || keyCode == ENTER
  }

  /**
   * preventSpaceInput: prevents default handling exactly for a blocked key;
   * for any other key the event is left as it was.
   */
  method PreventSpaceInput(event: KeyEvent)
    modifies event
    ensures IsBlockedKey(event.keyCode) ==> event.defaultPrevented
    ensures !IsBlockedKey(event.keyCode) ==> event.defaultPrevented == old(event.defaultPrevented)
  {
    if event.keyCode == SPACE || event.keyCode == TAB || event.keyCode == ENTER {
      event.PreventDefault();
    }
  }
}
