/** What the two camera controllers (src/app/components/first-person-controls.tsx
    and src/app/components/hybrid-controls.tsx) share: vector steps on the xz
    plane, the `Math.max(lo, Math.min(hi, v))` clamp, and the set of
    `data-key-{key}` attributes on the document body through which the key
    handlers talk to the per-frame update. */
module Movement {
  import opened Text
  import opened Types

  function Min(a: real, b: real): real {
    if a <= b then a else b
  }

  function Max(a: real, b: real): real {
    if a >= b then a else b
  }

  /** `Math.max(lo, Math.min(hi, v))`. */
  function Clamp(v: real, lo: real, hi: real): (r: real)
    ensures lo <= hi ==> lo <= r <= hi
    ensures lo <= v <= hi ==> r == v
    ensures v < lo ==> r == lo
    ensures lo <= hi && hi < v ==> r == hi
  {
    Max(lo, Min(hi, v))
  }

  /** Clamping twice is clamping once, even for an empty range. */
  lemma ClampIdempotent(v: real, lo: real, hi: real)
    ensures Clamp(Clamp(v, lo, hi), lo, hi) == Clamp(v, lo, hi)
  {
    if lo > hi {
      assert Min(hi, v) <= hi;
      assert Clamp(v, lo, hi) == lo;
    }
  }

  /** `cabinWidth / 2 - 0.3`: the walker keeps 0.3 from each side wall. */
  function HalfWidth(cabinWidth: real): real {
    cabinWidth / 2.0 - 0.3
  }

  const Zero: Vec3 := Vec3(0.0, 0.0, 0.0)

  function Add(a: Vec3, b: Vec3): Vec3 {
    Vec3(a.x + b.x, a.y + b.y, a.z + b.z)
  }

  function Sub(a: Vec3, b: Vec3): Vec3 {
    Vec3(a.x - b.x, a.y - b.y, a.z - b.z)
  }

  function Scale(a: Vec3, k: real): Vec3 {
    Vec3(a.x * k, a.y * k, a.z * k)
  }

  /** The cabin floor box the clamp keeps the walker in. */
  predicate InCabin(p: Vec3, cabinWidth: real, cabinLength: real) {
    -HalfWidth(cabinWidth) <= p.x <= HalfWidth(cabinWidth) && -cabinLength + 0.5 <= p.z <= 0.5
  }

  /** The box is non-empty: the cabin is at least 0.6 wide and of
      non-negative length. */
  predicate CabinFits(cabinWidth: real, cabinLength: real) {
    HalfWidth(cabinWidth) >= 0.0 && cabinLength >= 0.0
  }

  /** The boundary constraint on x and z; y is left alone. */
  function ClampXZ(p: Vec3, cabinWidth: real, cabinLength: real): (q: Vec3)
    ensures q.y == p.y
    ensures CabinFits(cabinWidth, cabinLength) ==> InCabin(q, cabinWidth, cabinLength)
    ensures InCabin(p, cabinWidth, cabinLength) ==> q == p
  {
    Vec3(Clamp(p.x, -HalfWidth(cabinWidth), HalfWidth(cabinWidth)),
         p.y,
         Clamp(p.z, -cabinLength + 0.5, 0.5))
  }

  lemma ClampXZIdempotent(p: Vec3, cabinWidth: real, cabinLength: real)
    ensures ClampXZ(ClampXZ(p, cabinWidth, cabinLength), cabinWidth, cabinLength) ==
      ClampXZ(p, cabinWidth, cabinLength)
  {
    ClampIdempotent(p.x, -HalfWidth(cabinWidth), HalfWidth(cabinWidth));
    ClampIdempotent(p.z, -cabinLength + 0.5, 0.5);
  }

  /** The movement keys as the per-frame update reads them from the body. */
  datatype HeldKeys = HeldKeys(forward: bool, backward: bool, left: bool, right: bool, up: bool, down: bool)

  function KeyAttribute(key: string): string {
    "data-key-" + key
  }

  /** Distinct keys have distinct attributes. */
  lemma KeyAttributeInjective(a: string, b: string)
    ensures KeyAttribute(a) == KeyAttribute(b) <==> a == b
  {
    if KeyAttribute(a) == KeyAttribute(b) {
      assert KeyAttribute(a)[9..] == a && KeyAttribute(b)[9..] == b;
    }
  }

  /** `forward = hasAttribute("data-key-w") || hasAttribute("data-key-arrowup")`
      and so on; `up` is `e` and `down` is `q`. */
  function ReadHeldKeys(attributes: set<string>): (keys: HeldKeys)
    ensures keys.forward <==> KeyAttribute("w") in attributes || KeyAttribute("arrowup") in attributes
    ensures keys.backward <==> KeyAttribute("s") in attributes || KeyAttribute("arrowdown") in attributes
    ensures keys.left <==> KeyAttribute("a") in attributes || KeyAttribute("arrowleft") in attributes
    ensures keys.right <==> KeyAttribute("d") in attributes || KeyAttribute("arrowright") in attributes
    ensures keys.up <==> KeyAttribute("e") in attributes
    ensures keys.down <==> KeyAttribute("q") in attributes
  {
    HeldKeys(KeyAttribute("w") in attributes || KeyAttribute("arrowup") in attributes,
             KeyAttribute("s") in attributes || KeyAttribute("arrowdown") in attributes,
             KeyAttribute("a") in attributes || KeyAttribute("arrowleft") in attributes,
             KeyAttribute("d") in attributes || KeyAttribute("arrowright") in attributes,
             KeyAttribute("e") in attributes,
             KeyAttribute("q") in attributes)
  }

  /** The planar direction: `+front` for forward, `-front` for backward,
      `-side` for left, `+side` for right, in that order. Opposite keys held
      together cancel, so no key, or both of each pair, gives no movement. */
  function PlanarDirection(keys: HeldKeys, front: Vec3, side: Vec3): (d: Vec3)
    ensures keys.forward == keys.backward && keys.left == keys.right ==> d == Zero
  {
    var d0 := Zero;
    var d1 := if keys.forward then Add(d0, front) else d0;
    var d2 := if keys.backward then Sub(d1, front) else d1;
    var d3 := if keys.left then Sub(d2, side) else d2;
    if keys.right then Add(d3, side) else d3
  }

  /** The `direction.add`/`direction.sub` sequence of the frame update. */
  method AccumulateDirection(keys: HeldKeys, front: Vec3, side: Vec3) returns (direction: Vec3)
    ensures direction == PlanarDirection(keys, front, side)
  {
    direction := Zero;
    if keys.forward { direction := Add(direction, front); }
    if keys.backward { direction := Sub(direction, front); }
    if keys.left { direction := Sub(direction, side); }
    if keys.right { direction := Add(direction, side); }
  }

  /** Held-key attributes after a `keydown` of `key`: the lower-cased key's
      attribute is added when the key is in the controller's list; no other
      attribute changes. */
  function AfterKeyDown(attributes: set<string>, allowed: set<string>, key: string): (r: set<string>)
    ensures KeyAttribute(ToLower(key)) in r <==> ToLower(key) in allowed || KeyAttribute(ToLower(key)) in attributes
    ensures forall a :: a != KeyAttribute(ToLower(key)) ==> (a in r <==> a in attributes)
    ensures ToLower(key) !in allowed ==> r == attributes
  {
    var k := ToLower(key);
    if k in allowed then attributes + {KeyAttribute(k)} else attributes
  }

  /** Held-key attributes after a `keyup` of `key`: the lower-cased key's
      attribute is removed when the key is in the list; no other attribute
      changes. */
  function AfterKeyUp(attributes: set<string>, allowed: set<string>, key: string): (r: set<string>)
    ensures KeyAttribute(ToLower(key)) in r <==> ToLower(key) !in allowed && KeyAttribute(ToLower(key)) in attributes
    ensures forall a :: a != KeyAttribute(ToLower(key)) ==> (a in r <==> a in attributes)
    ensures ToLower(key) !in allowed ==> r == attributes
  {
    var k := ToLower(key);
    if k in allowed then attributes - {KeyAttribute(k)} else attributes
  }

  /** A listed key pressed and released is no longer held, whatever was held
      before; pressing twice is pressing once. */
  lemma KeyDownUp(attributes: set<string>, allowed: set<string>, key: string)
    requires ToLower(key) in allowed
    ensures KeyAttribute(ToLower(key)) !in AfterKeyUp(AfterKeyDown(attributes, allowed, key), allowed, key)
    ensures AfterKeyUp(AfterKeyDown(attributes, allowed, key), allowed, key) == attributes - {KeyAttribute(ToLower(key))}
    ensures AfterKeyDown(AfterKeyDown(attributes, allowed, key), allowed, key) == AfterKeyDown(attributes, allowed, key)
  {
  }

  /** The cleanup on unmount: every attribute of the listed keys is removed,
      every other attribute stays. */
  function AfterCleanup(attributes: set<string>, keys: seq<string>): (r: set<string>)
    ensures forall j :: 0 <= j < |keys| ==> KeyAttribute(keys[j]) !in r
    ensures forall a :: a in r <==> a in attributes && forall j :: 0 <= j < |keys| ==> a != KeyAttribute(keys[j])
  {
    set a | a in attributes && forall j :: 0 <= j < |keys| ==> a != KeyAttribute(keys[j])
  }

  /** The document body, of which only the `data-key-*` attributes matter here. */
  class Body {
    var attributes: set<string>

    constructor()
      ensures attributes == {}
    {
      attributes := {};
    }

    method SetAttribute(name: string)
      modifies this
      ensures attributes == old(attributes) + {name}
    {
      attributes := attributes + {name};
    }

    method RemoveAttribute(name: string)
      modifies this
      ensures attributes == old(attributes) - {name}
    {
      attributes := attributes - {name};
    }
  }

  /** `handleKeyDown` of a controller whose key list is `allowed`. */
  method KeyDown(body: Body, allowed: set<string>, key: string)
    modifies body
    ensures body.attributes == AfterKeyDown(old(body.attributes), allowed, key)
  {
    var k := ToLower(key);
    if k in allowed {
      body.SetAttribute(KeyAttribute(k));
    }
  }

  /** `handleKeyUp` of a controller whose key list is `allowed`. */
  method KeyUp(body: Body, allowed: set<string>, key: string)
    modifies body
    ensures body.attributes == AfterKeyUp(old(body.attributes), allowed, key)
  {
    var k := ToLower(key);
    if k in allowed {
      body.RemoveAttribute(KeyAttribute(k));
    }
  }

  /** The cleanup on unmount, one `removeAttribute` per key. */
  method Cleanup(body: Body, keys: seq<string>)
    modifies body
    ensures body.attributes == AfterCleanup(old(body.attributes), keys)
  {
    for i := 0 to |keys|
      invariant body.attributes == AfterCleanup(old(body.attributes), keys[..i])
    {
      body.RemoveAttribute(KeyAttribute(keys[i]));
      assert forall j :: 0 <= j < i ==> keys[..i + 1][j] == keys[..i][j];
      assert keys[..i + 1][i] == keys[i];
    }
    assert keys[..|keys|] == keys;
  }
}
