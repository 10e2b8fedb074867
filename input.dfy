/**
 * Keyboard bindings: the two-state press machine of `KeyBind` and the
 * digit lookup of `Joystick`.
 *
 * A keyboard event is reduced to its key code.  `once()` is the
 * consume-once read: it answers true at most once per press.
 */
module Input {

  datatype PressState = Await | Pressed

  /** The observable state of one binding. */
  datatype KeyState = KeyState(state: PressState, triggered: bool, processed: bool)

  /** A fresh binding: released, not triggered, nothing left to consume. */
  const Initial := KeyState(Await, false, true)

  /** What can happen to a binding. */
  datatype Event = KeyDown(eventCode: string) | KeyUp(eventCode: string) | Once | Reset

  /**
   * One event applied to a binding whose key is `code`: the new state and
   * the answer of `once()` (false for every other event).
   */
  function Step(s: KeyState, code: string, e: Event): (r: (KeyState, bool))
    ensures r.1 <==> e == Once && !s.processed
    ensures r.1 ==> r.0.processed
    ensures (e.KeyDown? || e.KeyUp?) && e.eventCode != code ==> r == (s, false)
  {
    match e
    case KeyDown(c) =>
      if c == code && s.state == Await then (KeyState(Pressed, true, false), false) else (s, false)
    case KeyUp(c) =>
      if c == code && s.state == Pressed then (KeyState(Await, false, s.processed), false) else (s, false)
    case Once =>
      if !s.processed then (s.(processed := true), true) else (s, false)
    case Reset =>
      (s.(triggered := false, processed := true), false)
  }

  /** A key press: the event that moves the binding from `Await` to `Pressed`. */
  predicate IsPress(s: KeyState, code: string, e: Event) {
    e.KeyDown? && e.eventCode == code && s.state == Await
  }

  /** Where a sequence of events leads, with the count of presses and of `once()` answers that were true. */
  datatype Outcome = Outcome(last: KeyState, presses: nat, wins: nat)

  /** Runs `evs` from `s`; every event adds at most one press or one true answer. */
  function Run(s: KeyState, code: string, evs: seq<Event>): (r: Outcome)
    ensures r.presses + r.wins <= |evs|
    decreases |evs|
  {
    if |evs| == 0 then Outcome(s, 0, 0)
    else
      var (s1, won) := Step(s, code, evs[0]);
      var rest := Run(s1, code, evs[1..]);
      Outcome(rest.last,
              rest.presses + (if IsPress(s, code, evs[0]) then 1 else 0),
              rest.wins + (if won then 1 else 0))
  }

  /** Unconsumed presses: one while `processed` is false. */
  function Pending(s: KeyState): nat {
    if s.processed then 0 else 1
  }

  /**
   * `once()` answers true at most once per press: over any run, the true
   * answers plus a press still pending at the end never exceed the presses
   * plus a press already pending at the start.
   */
  lemma {:induction false} OncePerPress(s: KeyState, code: string, evs: seq<Event>)
    ensures var r := Run(s, code, evs);
      r.wins + Pending(r.last) <= r.presses + Pending(s)
    decreases |evs|
  {
    if |evs| > 0 {
      var (s1, won) := Step(s, code, evs[0]);
      OncePerPress(s1, code, evs[1..]);
    }
  }

  /**
   * Once consumed, a binding stays consumed until the next press: with no
   * press in between, `once()` answers false throughout.
   */
  lemma Consumed(s: KeyState, code: string, evs: seq<Event>)
    requires s.processed
    ensures Run(s, code, evs).presses == 0 ==>
      Run(s, code, evs).wins == 0 && Run(s, code, evs).last.processed
  {
    OncePerPress(s, code, evs);
  }

  /**
   * From a fresh binding, `once()` answers true no more often than the key
   * was pressed, and never before the first press.
   */
  lemma FreshOnce(code: string, evs: seq<Event>)
    ensures Run(Initial, code, evs).wins <= Run(Initial, code, evs).presses
    ensures Run(Initial, code, evs).presses == 0 ==> Run(Initial, code, evs).wins == 0
  {
    OncePerPress(Initial, code, evs);
  }

  /** Events carrying another key's code. */
  predicate Foreign(code: string, evs: seq<Event>) {
    forall i | 0 <= i < |evs| :: (evs[i].KeyDown? || evs[i].KeyUp?) && evs[i].eventCode != code
  }

  /** Key events for other keys change nothing. */
  lemma {:induction false} ForeignIgnored(s: KeyState, code: string, evs: seq<Event>)
    requires Foreign(code, evs)
    ensures Run(s, code, evs) == Outcome(s, 0, 0)
    decreases |evs|
  {
    if |evs| > 0 {
      assert Foreign(code, evs[1..]) by {
        forall i | 0 <= i < |evs[1..]|
          ensures (evs[1..][i].KeyDown? || evs[1..][i].KeyUp?) && evs[1..][i].eventCode != code
        {
          assert evs[1..][i] == evs[i + 1];
        }
      }
      ForeignIgnored(s, code, evs[1..]);
    }
  }

  /** Whether `evs` releases the key `code`. */
  predicate Releases(code: string, evs: seq<Event>) {
    exists i | 0 <= i < |evs| :: evs[i] == KeyUp(code)
  }

  /**
   * `reset` while the key is held: until the key is released, repeated
   * key-down events do not retrigger it and `once()` answers false.
   */
  lemma {:induction false} HeldAfterReset(s: KeyState, code: string, evs: seq<Event>)
    requires s.state == Pressed
    requires !Releases(code, evs)
    ensures var r := Run(Step(s, code, Reset).0, code, evs);
      r.wins == 0 && r.presses == 0 && r.last.state == Pressed && !r.last.triggered && r.last.processed
  {
    HeldQuiet(Step(s, code, Reset).0, code, evs);
  }

  /** A held, triggered-off and consumed binding stays so until the key is released. */
  lemma {:induction false} HeldQuiet(s: KeyState, code: string, evs: seq<Event>)
    requires s.state == Pressed && !s.triggered && s.processed
    requires !Releases(code, evs)
    ensures Run(s, code, evs) == Outcome(s, 0, 0)
    decreases |evs|
  {
    if |evs| > 0 {
      assert evs[0] != KeyUp(code);
      assert !Releases(code, evs[1..]) by {
        forall i | 0 <= i < |evs[1..]|
          ensures evs[1..][i] != KeyUp(code)
        {
          assert evs[1..][i] == evs[i + 1];
        }
      }
      HeldQuiet(s, code, evs[1..]);
    }
  }

  /** `KeyBind`: one key's binding, updated in place by the event handlers. */
  class KeyBind {
    const code: string
    var state: PressState
    var triggered: bool
    var processed: bool

    function Current(): KeyState
      reads this
    {
      KeyState(state, triggered, processed)
    }

    constructor(code: string)
      ensures this.code == code && Current() == Initial
    {
      this.code := code;
      state := Await;
      triggered := false;
      processed := true;
    }

    /** `once`: consumes the pending press, if there is one. */
    method Once() returns (r: bool)
      modifies this
      ensures (Current(), r) == Step(old(Current()), code, Event.Once)
      ensures r <==> !old(processed)
      ensures processed
    {
      if !processed {
        processed := true;
        r := true;
      } else {
        r := false;
      }
    }

    /** `keydown`: a press of this key latches it until the key is released. */
    method Keydown(eventCode: string)
      modifies this
      ensures Current() == Step(old(Current()), code, KeyDown(eventCode)).0
    {
      if eventCode == code {
        if state == Await {
          triggered := true;
          processed := false;
          state := Pressed;
        }
      }
    }

    /** `keyup`: releasing this key clears `triggered` but not a pending press. */
    method Keyup(eventCode: string)
      modifies this
      ensures Current() == Step(old(Current()), code, KeyUp(eventCode)).0
      ensures processed == old(processed)
    {
      if eventCode == code {
        if state == Pressed {
          triggered := false;
          state := Await;
        }
      }
    }

    /** `reset`: drops the trigger and any pending press, but not the key's position. */
    method Reset()
      modifies this
      ensures Current() == Step(old(Current()), code, Event.Reset).0
      ensures state == old(state) && !triggered && processed
    {
      triggered := false;
      processed := true;
    }
  }

  /** The key code of digit key `n`. */
  function DigitCode(n: int): (r: string)
    requires 0 <= n <= 9
    ensures |r| == 6 && r[..5] == "Digit" && r[5] as int == '0' as int + n
  {
    "Digit" + [('0' as int + n) as char]
  }

  /** `Joystick`: the game's key bindings. */
  class Joystick {
    const moveUp: KeyBind
    const moveLeft: KeyBind
    const moveDown: KeyBind
    const moveRight: KeyBind
    const hit: KeyBind
    const drop: KeyBind
    const inventory: KeyBind
    const digit1: KeyBind
    const digit2: KeyBind
    const digit3: KeyBind
    const digit4: KeyBind
    const digit5: KeyBind
    const digit6: KeyBind
    const digit7: KeyBind
    const digit8: KeyBind
    const digit9: KeyBind
    const digit0: KeyBind

    /** Each digit binding listens to its own digit key. */
    predicate Valid() {
      digit1.code == "Digit1" && digit2.code == "Digit2" && digit3.code == "Digit3" &&
      digit4.code == "Digit4" && digit5.code == "Digit5" && digit6.code == "Digit6" &&
      digit7.code == "Digit7" && digit8.code == "Digit8" && digit9.code == "Digit9" &&
      digit0.code == "Digit0"
    }

    constructor()
      ensures Valid()
      ensures moveUp.code == "KeyW" && moveLeft.code == "KeyA" && moveDown.code == "KeyS" &&
        moveRight.code == "KeyD" && hit.code == "KeyF" && drop.code == "KeyQ" && inventory.code == "KeyI"
      ensures moveUp.Current() == Initial && moveLeft.Current() == Initial &&
        moveDown.Current() == Initial && moveRight.Current() == Initial &&
        hit.Current() == Initial && drop.Current() == Initial && inventory.Current() == Initial &&
        digit1.Current() == Initial && digit2.Current() == Initial && digit3.Current() == Initial &&
        digit4.Current() == Initial && digit5.Current() == Initial && digit6.Current() == Initial &&
        digit7.Current() == Initial && digit8.Current() == Initial && digit9.Current() == Initial &&
        digit0.Current() == Initial
    {
      moveUp := new KeyBind("KeyW");
      moveLeft := new KeyBind("KeyA");
      moveDown := new KeyBind("KeyS");
      moveRight := new KeyBind("KeyD");
      hit := new KeyBind("KeyF");
      drop := new KeyBind("KeyQ");
      inventory := new KeyBind("KeyI");
      digit1 := new KeyBind("Digit1");
      digit2 := new KeyBind("Digit2");
      digit3 := new KeyBind("Digit3");
      digit4 := new KeyBind("Digit4");
      digit5 := new KeyBind("Digit5");
      digit6 := new KeyBind("Digit6");
      digit7 := new KeyBind("Digit7");
      digit8 := new KeyBind("Digit8");
      digit9 := new KeyBind("Digit9");
      digit0 := new KeyBind("Digit0");
    }

    /** `digit`: the binding of digit key `n`. */
    function Digit(n: int): (k: KeyBind)
      requires Valid() && 0 <= n <= 9
      ensures k.code == DigitCode(n)
    {
      match n
      case 1 => digit1
      case 2 => digit2
      case 3 => digit3
      case 4 => digit4
      case 5 => digit5
      case 6 => digit6
      case 7 => digit7
      case 8 => digit8
      case 9 => digit9
      case _ => digit0
    }
  }
}
