/** The first-person walker (src/app/components/first-person-controls.tsx):
    arrow keys mark themselves held on the document body, each frame moves
    the walker along the held direction and clamps it to the cabin floor, and
    a click selects the first available seat under the pointer. Camera
    rotation, raycasting and vector normalisation stay outside: the frame
    receives the flattened unit vectors and the factor `speed / |direction|`. */
module FirstPersonControls {
  import opened Options
  import opened Text
  import opened Types
  import opened Movement
  import opened SeatPicking

  /** The keys `handleKeyDown` and `handleKeyUp` accept, lower-cased. */
  const ArrowKeys: set<string> := {"arrowup", "arrowdown", "arrowleft", "arrowright"}

  /** The attributes the unmount cleanup removes. */
  const CleanupKeys: seq<string> := ["w", "a", "s", "d", "arrowup", "arrowdown", "arrowleft", "arrowright"]

  const StartPosition: Vec3 := Vec3(0.0, 1.6, 0.0)

  /** The walker's position after one enabled frame moving along
      `direction`: unchanged for no direction, else moved by
      `direction * stepScale` and clamped. */
  function Move(position: Vec3, direction: Vec3, stepScale: real, cabinWidth: real, cabinLength: real): Vec3 {
    if direction == Zero then position
    else ClampXZ(Add(position, Scale(direction, stepScale)), cabinWidth, cabinLength)
  }

  /** After a movement step the walker is inside the cabin box; with no
      direction it has not moved; a step that stays inside is not altered; a
      walker inside the box stays inside; a flat direction keeps its height. */
  lemma MoveBounds(position: Vec3, direction: Vec3, stepScale: real, cabinWidth: real, cabinLength: real)
    ensures var p := Move(position, direction, stepScale, cabinWidth, cabinLength);
      var moved := Add(position, Scale(direction, stepScale));
      (direction != Zero && CabinFits(cabinWidth, cabinLength) ==> InCabin(p, cabinWidth, cabinLength)) &&
      (direction == Zero ==> p == position) &&
      (direction != Zero && InCabin(moved, cabinWidth, cabinLength) ==> p == moved) &&
      (InCabin(position, cabinWidth, cabinLength) && CabinFits(cabinWidth, cabinLength) ==>
        InCabin(p, cabinWidth, cabinLength)) &&
      (direction.y == 0.0 ==> p.y == position.y)
  {
  }

  /** The direction the walker moves along has no vertical part, so the
      walker never changes height. */
  lemma FlatDirection(keys: HeldKeys, front: Vec3, side: Vec3)
    requires front.y == 0.0 && side.y == 0.0
    ensures PlanarDirection(keys, front, side).y == 0.0
  {
  }

  /** The walker: its position ref and the camera position it drives. */
  class Walker {
    var position: Vec3
    var camera: Vec3
    var initialized: bool

    constructor(camera0: Vec3)
      ensures position == StartPosition && camera == camera0 && !initialized
    {
      position := StartPosition;
      camera := camera0;
      initialized := false;
    }

    /** The first enabled render puts walker and camera at the start. */
    method Initialize(enabled: bool)
      modifies this
      ensures enabled && !old(initialized) ==>
        position == StartPosition && camera == StartPosition && initialized
      ensures !(enabled && !old(initialized)) ==>
        position == old(position) && camera == old(camera) && initialized == old(initialized)
    {
      if enabled && !initialized {
        position := StartPosition;
        camera := position;
        initialized := true;
      }
    }

    /** `useFrame`: read the held keys from the body attributes, step, clamp,
        and move the camera only when the walker moved. */
    method Frame(enabled: bool, attributes: set<string>, front: Vec3, side: Vec3, stepScale: real,
                 cabinWidth: real, cabinLength: real)
      modifies this
      ensures initialized == old(initialized)
      ensures !enabled ==> position == old(position) && camera == old(camera)
      ensures enabled ==> (position ==
        Move(old(position), PlanarDirection(ReadHeldKeys(attributes), front, side), stepScale, cabinWidth, cabinLength))
      ensures enabled ==> (camera ==
        if PlanarDirection(ReadHeldKeys(attributes), front, side) == Zero then old(camera) else position)
    {
      if !enabled {
        return;
      }
      var keys := ReadHeldKeys(attributes);
      var direction := AccumulateDirection(keys, front, side);
      if direction != Zero {
        var moved := Add(position, Scale(direction, stepScale));
        var halfWidth := HalfWidth(cabinWidth);
        position := Vec3(Max(-halfWidth, Min(halfWidth, moved.x)), moved.y,
                         Max(-cabinLength + 0.5, Min(0.5, moved.z)));
        assert position == ClampXZ(moved, cabinWidth, cabinLength);
        camera := position;
      }
    }
  }

  /** `isSeatClick`: without an `onSeatSelect` callback nothing is selected;
      otherwise the first hit with an available seat holder is, and the click
      counts as a seat click exactly when something was selected. */
  method IsSeatClick(hasCallback: bool, hits: seq<Hit>) returns (clicked: bool, selection: Option<SelectedSeat>)
    ensures selection == if hasCallback then Pick(hits) else None
    ensures clicked <==> selection.Some?
  {
    if !hasCallback {
      return false, None;
    }
    selection := PickSeat(hits);
    clicked := selection.Some?;
  }

  /** `handleCanvasClick`: a click that selects no seat asks for pointer
      lock, when the canvas supports it. */
  method HandleCanvasClick(hasCallback: bool, hits: seq<Hit>, canLock: bool)
    returns (selection: Option<SelectedSeat>, requestLock: bool)
    ensures selection == if hasCallback then Pick(hits) else None
    ensures requestLock <==> selection.None? && canLock
  {
    var clicked;
    clicked, selection := IsSeatClick(hasCallback, hits);
    requestLock := !clicked && canLock;
  }

  /** `ArrowUp` lower-cases to a listed key; `w` is not listed here, so this
      controller never sets the `data-key-w` attribute its frame reads. */
  lemma KeyListFacts(attributes: set<string>)
    ensures ToLower("ArrowUp") == "arrowup"
    ensures AfterKeyDown(attributes, ArrowKeys, "ArrowUp") == attributes + {KeyAttribute("arrowup")}
    ensures AfterKeyDown(attributes, ArrowKeys, "w") == attributes
  {
    var up := "ArrowUp";
    assert ToLower(up) == "arrowup" by {
      assert ToLower(up)[0] == LowerChar('A');
    }
    assert ToLower("w") == "w";
    assert "w" !in ArrowKeys;
  }

  /** After unmount no arrow key is held. */
  lemma CleanupReleasesArrows(attributes: set<string>)
    ensures var r := AfterCleanup(attributes, CleanupKeys);
      forall k :: k in ArrowKeys ==> KeyAttribute(k) !in r
  {
    var r := AfterCleanup(attributes, CleanupKeys);
    assert CleanupKeys[4] == "arrowup" && CleanupKeys[5] == "arrowdown";
    assert CleanupKeys[6] == "arrowleft" && CleanupKeys[7] == "arrowright";
  }
}
