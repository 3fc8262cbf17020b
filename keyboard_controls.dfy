/** The keyboard hook (src/hooks/use-keyboard-controls.ts): four movement
    flags, set by `keydown` and cleared by `keyup` of the twelve movement
    keys. Each handler copies the previous state and changes at most one
    flag; the switch has no default branch. */
module KeyboardControls {
  import opened Options

  datatype KeyboardState = KeyboardState(forward: bool, backward: bool, left: bool, right: bool)

  const Initial: KeyboardState := KeyboardState(false, false, false, false)

  /** The four flags, to speak about "the flag a key controls". */
  datatype Flag = Forward | Backward | Left | Right

  const AllFlags: set<Flag> := {Forward, Backward, Left, Right}

  /** The keys whose default action `handleKeyDown` prevents. */
  const PreventedKeys: seq<string> :=
    ["ArrowUp", "ArrowDown", "ArrowLeft", "ArrowRight", "w", "a", "s", "d", "W", "A", "S", "D"]

  function Get(s: KeyboardState, f: Flag): bool {
    match f
    case Forward => s.forward
    case Backward => s.backward
    case Left => s.left
    case Right => s.right
  }

  /** The flag a key controls: arrows, WASD in either case. */
  function FlagOf(key: string): Option<Flag> {
    if key == "ArrowUp" || key == "w" || key == "W" then Some(Forward)
    else if key == "ArrowDown" || key == "s" || key == "S" then Some(Backward)
    else if key == "ArrowLeft" || key == "a" || key == "A" then Some(Left)
    else if key == "ArrowRight" || key == "d" || key == "D" then Some(Right)
    else None
  }

  /** The state with flag `f` set to `v` and the other flags copied. */
  function Set(s: KeyboardState, f: Flag, v: bool): (r: KeyboardState)
    ensures Get(r, f) == v
    ensures forall g :: g != f ==> Get(r, g) == Get(s, g)
  {
    match f
    case Forward => s.(forward := v)
    case Backward => s.(backward := v)
    case Left => s.(left := v)
    case Right => s.(right := v)
  }

  /** The `setKeys` updater of `handleKeyDown`: the key's flag becomes true,
      the other flags are copied, and any other key changes nothing. */
  function KeyDown(s: KeyboardState, key: string): (r: KeyboardState)
    ensures FlagOf(key).Some? ==> Get(r, FlagOf(key).value)
    ensures forall f :: FlagOf(key) != Some(f) ==> Get(r, f) == Get(s, f)
  {
    match FlagOf(key)
    case None => s
    case Some(f) => Set(s, f, true)
  }

  /** The `setKeys` updater of `handleKeyUp`: the key's flag becomes false,
      the other flags are copied, and any other key changes nothing. */
  function KeyUp(s: KeyboardState, key: string): (r: KeyboardState)
    ensures FlagOf(key).Some? ==> !Get(r, FlagOf(key).value)
    ensures forall f :: FlagOf(key) != Some(f) ==> Get(r, f) == Get(s, f)
  {
    match FlagOf(key)
    case None => s
    case Some(f) => Set(s, f, false)
  }

  /** A state is determined by its four flags. */
  lemma FlagsDetermineState(s: KeyboardState, t: KeyboardState)
    requires forall f :: Get(s, f) == Get(t, f)
    ensures s == t
  {
    assert Get(s, Forward) == Get(t, Forward) && Get(s, Backward) == Get(t, Backward);
    assert Get(s, Left) == Get(t, Left) && Get(s, Right) == Get(t, Right);
  }

  /** The flags on which two states differ. */
  function Changed(s: KeyboardState, t: KeyboardState): set<Flag> {
    set f | f in AllFlags && Get(s, f) != Get(t, f)
  }

  /** Every event changes at most one flag, and a key outside the twelve
      changes none. */
  lemma AtMostOneFlagChanges(s: KeyboardState, key: string)
    ensures |Changed(s, KeyDown(s, key))| <= 1 && |Changed(s, KeyUp(s, key))| <= 1
    ensures FlagOf(key).None? ==> KeyDown(s, key) == s && KeyUp(s, key) == s
  {
    match FlagOf(key)
    case None =>
      assert Changed(s, KeyDown(s, key)) == {} && Changed(s, KeyUp(s, key)) == {};
    case Some(f) =>
      var down := Changed(s, KeyDown(s, key));
      var up := Changed(s, KeyUp(s, key));
      if f in down { assert down == {f}; } else { assert down == {}; }
      if f in up { assert up == {f}; } else { assert up == {}; }
  }

  /** Pressing twice is pressing once; a press followed by a release of the
      same key leaves its flag false and equals the release alone; releasing
      twice is releasing once. */
  lemma KeyDownUpLaws(s: KeyboardState, key: string)
    ensures KeyDown(KeyDown(s, key), key) == KeyDown(s, key)
    ensures KeyUp(KeyDown(s, key), key) == KeyUp(s, key)
    ensures KeyUp(KeyUp(s, key), key) == KeyUp(s, key)
    ensures FlagOf(key).Some? ==> !Get(KeyUp(KeyDown(s, key), key), FlagOf(key).value)
  {
    FlagsDetermineState(KeyDown(KeyDown(s, key), key), KeyDown(s, key));
    FlagsDetermineState(KeyUp(KeyDown(s, key), key), KeyUp(s, key));
    FlagsDetermineState(KeyUp(KeyUp(s, key), key), KeyUp(s, key));
  }

  /** Events on keys of different flags commute. */
  lemma EventsOnDifferentFlagsCommute(s: KeyboardState, a: string, b: string)
    requires FlagOf(a) != FlagOf(b)
    ensures KeyDown(KeyUp(s, a), b) == KeyUp(KeyDown(s, b), a)
  {
    FlagsDetermineState(KeyDown(KeyUp(s, a), b), KeyUp(KeyDown(s, b), a));
  }

  /** The initial state holds no flag. */
  lemma InitialAllReleased()
    ensures forall f :: !Get(Initial, f)
  {
  }

  /** The keys whose default is prevented are exactly the keys that drive a
      flag. */
  lemma PreventedKeysAreMovementKeys(key: string)
    ensures (exists j :: 0 <= j < |PreventedKeys| && PreventedKeys[j] == key) <==> FlagOf(key).Some?
  {
    if FlagOf(key).Some? {
      var j :=
        if key == "ArrowUp" then 0 else if key == "ArrowDown" then 1
        else if key == "ArrowLeft" then 2 else if key == "ArrowRight" then 3
        else if key == "w" then 4 else if key == "a" then 5 else if key == "s" then 6
        else if key == "d" then 7 else if key == "W" then 8 else if key == "A" then 9
        else if key == "S" then 10 else 11;
      assert PreventedKeys[j] == key;
    }
  }
}
