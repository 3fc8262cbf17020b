/** The hybrid orbit-and-walk controller (src/app/components/hybrid-controls.tsx):
    WASD, QE and the arrows mark themselves held on the document body; each
    frame moves the viewpoint along the held direction, with `e` up and `q`
    down, and clamps it to the cabin box and a height band; a click selects
    the first available seat under the pointer. The orbit target's `lerp`,
    the camera quaternion and normalisation stay outside: the frame receives
    the flattened unit vectors and the factor `speed / |direction|`. */
module HybridControls {
  import opened Options
  import opened Text
  import opened Types
  import opened Movement
  import opened SeatPicking

  /** The keys `handleKeyDown` and `handleKeyUp` accept, lower-cased. */
  const HybridKeys: set<string> :=
    {"arrowup", "arrowdown", "arrowleft", "arrowright", "w", "a", "s", "d", "q", "e"}

  /** The attributes the unmount cleanup removes. */
  const CleanupKeys: seq<string> :=
    ["w", "a", "s", "d", "q", "e", "arrowup", "arrowdown", "arrowleft", "arrowright"]

  const MinHeight: real := 0.5
  const MaxHeight: real := 3.0

  const Up: Vec3 := Vec3(0.0, 1.0, 0.0)

  /** The cabin box plus the height band. */
  predicate InBounds(p: Vec3, cabinWidth: real, cabinLength: real) {
    InCabin(p, cabinWidth, cabinLength) && MinHeight <= p.y <= MaxHeight
  }

  /** The boundary constraints on x, z and then y. */
  function ClampXYZ(p: Vec3, cabinWidth: real, cabinLength: real): (q: Vec3)
    ensures CabinFits(cabinWidth, cabinLength) ==> InBounds(q, cabinWidth, cabinLength)
    ensures InBounds(p, cabinWidth, cabinLength) ==> q == p
  {
    var xz := ClampXZ(p, cabinWidth, cabinLength);
    Vec3(xz.x, Clamp(xz.y, MinHeight, MaxHeight), xz.z)
  }

  lemma ClampXYZIdempotent(p: Vec3, cabinWidth: real, cabinLength: real)
    ensures ClampXYZ(ClampXYZ(p, cabinWidth, cabinLength), cabinWidth, cabinLength) ==
      ClampXYZ(p, cabinWidth, cabinLength)
  {
    ClampXZIdempotent(p, cabinWidth, cabinLength);
    ClampIdempotent(p.y, MinHeight, MaxHeight);
  }

  /** The planar direction, then `+Up` for `e` and `-Up` for `q`. */
  function Direction(keys: HeldKeys, forward: Vec3, right: Vec3): (d: Vec3)
    ensures keys.up == keys.down ==> d == PlanarDirection(keys, forward, right)
  {
    var planar := PlanarDirection(keys, forward, right);
    var lifted := if keys.up then Add(planar, Up) else planar;
    if keys.down then Sub(lifted, Up) else lifted
  }

  /** With flat vectors, `e` alone always moves, whatever else is held. */
  lemma UpAloneMoves(keys: HeldKeys, forward: Vec3, right: Vec3)
    requires forward.y == 0.0 && right.y == 0.0
    requires keys.up && !keys.down
    ensures Direction(keys, forward, right).y == 1.0
  {
    assert PlanarDirection(keys, forward, right).y == 0.0;
  }

  /** The viewpoint after one frame with the controls ready, moving along
      `direction`: unchanged for no direction, else moved by
      `direction * stepScale` and clamped. */
  function Move(position: Vec3, direction: Vec3, stepScale: real, cabinWidth: real, cabinLength: real): Vec3 {
    if direction == Zero then position
    else ClampXYZ(Add(position, Scale(direction, stepScale)), cabinWidth, cabinLength)
  }

  /** After a movement step the viewpoint is inside the bounds; with no
      direction it has not moved; a step that stays inside is not altered; and
      a viewpoint inside the bounds stays inside. */
  lemma MoveBounds(position: Vec3, direction: Vec3, stepScale: real, cabinWidth: real, cabinLength: real)
    ensures var p := Move(position, direction, stepScale, cabinWidth, cabinLength);
      var moved := Add(position, Scale(direction, stepScale));
      (direction != Zero && CabinFits(cabinWidth, cabinLength) ==> InBounds(p, cabinWidth, cabinLength)) &&
      (direction == Zero ==> p == position) &&
      (direction != Zero && InBounds(moved, cabinWidth, cabinLength) ==> p == moved) &&
      (InBounds(position, cabinWidth, cabinLength) && CabinFits(cabinWidth, cabinLength) ==>
        InBounds(p, cabinWidth, cabinLength))
  {
  }

  /** The frame's direction: the planar sequence, then `Up` added for `e`
      and subtracted for `q`. */
  method HeldDirection(keys: HeldKeys, forward: Vec3, right: Vec3) returns (direction: Vec3)
    ensures direction == Direction(keys, forward, right)
  {
    direction := AccumulateDirection(keys, forward, right);
    if keys.up { direction := Add(direction, Up); }
    if keys.down { direction := Sub(direction, Up); }
  }

  /** The `position` ref and the camera position it drives. */
  class Viewpoint {
    var position: Vec3
    var camera: Vec3

    /** The effect copies the camera's position into the ref. */
    constructor(camera0: Vec3)
      ensures position == camera0 && camera == camera0
    {
      position := camera0;
      camera := camera0;
    }

    /** `useFrame`: nothing happens until the orbit controls exist. */
    method Frame(enabled: bool, controlsReady: bool, attributes: set<string>, forward: Vec3, right: Vec3,
                 stepScale: real, cabinWidth: real, cabinLength: real)
      modifies this
      ensures !(enabled && controlsReady) ==> position == old(position) && camera == old(camera)
      ensures enabled && controlsReady ==> (position ==
        Move(old(position), Direction(ReadHeldKeys(attributes), forward, right), stepScale, cabinWidth, cabinLength))
      ensures enabled && controlsReady ==> (camera ==
        if Direction(ReadHeldKeys(attributes), forward, right) == Zero then old(camera) else position)
    {
      if !enabled || !controlsReady {
        return;
      }
      var keys := ReadHeldKeys(attributes);
      var direction := HeldDirection(keys, forward, right);
      if direction != Zero {
        var moved := Add(position, Scale(direction, stepScale));
        var halfWidth := HalfWidth(cabinWidth);
        var x := Max(-halfWidth, Min(halfWidth, moved.x));
        var z := Max(-cabinLength + 0.5, Min(0.5, moved.z));
        var y := Max(MinHeight, Min(MaxHeight, moved.y));
        position := Vec3(x, y, z);
        assert position == ClampXYZ(moved, cabinWidth, cabinLength);
        camera := position;
      }
    }
  }

  /** `handleClick`: without an `onSeatSelect` callback nothing is selected;
      otherwise the first hit with an available seat holder is. */
  method HandleClick(hasCallback: bool, hits: seq<Hit>) returns (selection: Option<SelectedSeat>)
    ensures selection == if hasCallback then Pick(hits) else None
  {
    if !hasCallback {
      return None;
    }
    selection := PickSeat(hits);
  }

  /** Upper-case letter keys count too: `W` is held as `w`. `q` and `e` are
      listed, so they move the viewpoint vertically. */
  lemma KeyListFacts(attributes: set<string>)
    ensures AfterKeyDown(attributes, HybridKeys, "W") == attributes + {KeyAttribute("w")}
    ensures ReadHeldKeys(AfterKeyDown({}, HybridKeys, "e")).up
    ensures ReadHeldKeys(AfterKeyDown({}, HybridKeys, "q")).down
  {
    assert ToLower("W") == "w" by {
      assert ToLower("W")[0] == LowerChar('W');
    }
    assert ToLower("e") == "e" && ToLower("q") == "q";
  }

  /** After unmount no listed key is held. */
  lemma CleanupReleasesAll(attributes: set<string>)
    ensures var r := AfterCleanup(attributes, CleanupKeys);
      forall k :: k in HybridKeys ==> KeyAttribute(k) !in r
  {
    assert forall k :: k in HybridKeys ==> exists j :: 0 <= j < |CleanupKeys| && CleanupKeys[j] == k by {
      assert CleanupKeys[0] == "w" && CleanupKeys[1] == "a" && CleanupKeys[2] == "s" && CleanupKeys[3] == "d";
      assert CleanupKeys[4] == "q" && CleanupKeys[5] == "e" && CleanupKeys[6] == "arrowup";
      assert CleanupKeys[7] == "arrowdown" && CleanupKeys[8] == "arrowleft" && CleanupKeys[9] == "arrowright";
    }
  }
}
