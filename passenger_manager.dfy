/** The passenger overlay (src/app/components/passenger-manager.tsx): a map
    from seat id to passenger filled by index, `map.set(seats[index].id,
    passenger)` for every passenger index below the seat count, then one
    placed passenger per seat that has an entry. */
module PassengerManager {
  import opened Options
  import opened Types

  function MinNat(a: nat, b: nat): nat {
    if a <= b then a else b
  }

  /** The map after the first `k` pairs `(seats[i].id, passengers[i])`. */
  function PairingUpTo(seats: seq<Seat>, passengers: seq<Passenger>, k: nat): map<string, Passenger>
    requires k <= |seats| && k <= |passengers|
  {
    if k == 0 then map[]
    else PairingUpTo(seats, passengers, k - 1)[seats[k - 1].id := passengers[k - 1]]
  }

  /** `passengersBySeat`. */
  function Pairing(seats: seq<Seat>, passengers: seq<Passenger>): map<string, Passenger> {
    PairingUpTo(seats, passengers, MinNat(|seats|, |passengers|))
  }

  /** The `forEach`/`map.set` loop. */
  method PassengersBySeat(seats: seq<Seat>, passengers: seq<Passenger>) returns (m: map<string, Passenger>)
    ensures m == Pairing(seats, passengers)
  {
    m := map[];
    for index := 0 to |passengers|
      invariant m == PairingUpTo(seats, passengers, MinNat(index, |seats|))
    {
      if index < |seats| {
        m := m[seats[index].id := passengers[index]];
      }
    }
  }

  /** The keys after `k` pairs are the ids of the first `k` seats. */
  lemma {:induction false} PairingUpToKeys(seats: seq<Seat>, passengers: seq<Passenger>, k: nat)
    requires k <= |seats| && k <= |passengers|
    ensures forall id :: id in PairingUpTo(seats, passengers, k) <==> exists i :: 0 <= i < k && seats[i].id == id
  {
    if k > 0 {
      PairingUpToKeys(seats, passengers, k - 1);
    }
  }

  /** `k` pairs give at most `k` entries. */
  lemma {:induction false} PairingUpToSize(seats: seq<Seat>, passengers: seq<Passenger>, k: nat)
    requires k <= |seats| && k <= |passengers|
    ensures |PairingUpTo(seats, passengers, k).Keys| <= k
  {
    if k > 0 {
      PairingUpToSize(seats, passengers, k - 1);
      var m := PairingUpTo(seats, passengers, k - 1);
      assert PairingUpTo(seats, passengers, k).Keys == m.Keys + {seats[k - 1].id};
    }
  }

  /** Seat `i`'s id maps to passenger `i` when no later seat among the first
      `k` carries the same id: a shared id is overwritten by the later
      passenger. */
  lemma {:induction false} PairingUpToAt(seats: seq<Seat>, passengers: seq<Passenger>, k: nat, i: nat)
    requires k <= |seats| && k <= |passengers| && i < k
    requires forall j :: i < j < k ==> seats[j].id != seats[i].id
    ensures seats[i].id in PairingUpTo(seats, passengers, k)
    ensures PairingUpTo(seats, passengers, k)[seats[i].id] == passengers[i]
  {
    if i < k - 1 {
      PairingUpToAt(seats, passengers, k - 1, i);
    }
  }

  /** Passenger `i` is mapped to `seats[i].id` for every index below both
      lengths when the seat ids are distinct; passengers past the last seat
      are dropped; the map has at most `min(|seats|, |passengers|)` entries. */
  lemma PairingByIndex(seats: seq<Seat>, passengers: seq<Passenger>)
    ensures var m := Pairing(seats, passengers);
      |m.Keys| <= MinNat(|seats|, |passengers|) &&
      (forall id :: id in m <==> exists i :: 0 <= i < |seats| && i < |passengers| && seats[i].id == id)
    ensures (forall a, b :: 0 <= a < b < |seats| ==> seats[a].id != seats[b].id) ==>
      forall i :: 0 <= i < |seats| && i < |passengers| ==>
        seats[i].id in Pairing(seats, passengers) && Pairing(seats, passengers)[seats[i].id] == passengers[i]
    ensures |passengers| > |seats| ==> Pairing(seats, passengers) == Pairing(seats, passengers[..|seats|])
  {
    var n := MinNat(|seats|, |passengers|);
    PairingUpToKeys(seats, passengers, n);
    PairingUpToSize(seats, passengers, n);
    if forall a, b :: 0 <= a < b < |seats| ==> seats[a].id != seats[b].id {
      forall i | 0 <= i < |seats| && i < |passengers|
        ensures seats[i].id in Pairing(seats, passengers) && Pairing(seats, passengers)[seats[i].id] == passengers[i]
      {
        PairingUpToAt(seats, passengers, n, i);
      }
    }
    if |passengers| > |seats| {
      PrefixSamePairing(seats, passengers, passengers[..|seats|], |seats|);
    }
  }

  /** Only the first `k` passengers matter to the first `k` pairs. */
  lemma {:induction false} PrefixSamePairing(seats: seq<Seat>, ps: seq<Passenger>, qs: seq<Passenger>, k: nat)
    requires k <= |seats| && k <= |ps| && k <= |qs| && ps[..k] == qs[..k]
    ensures PairingUpTo(seats, ps, k) == PairingUpTo(seats, qs, k)
  {
    if k > 0 {
      assert ps[..k - 1] == qs[..k - 1] by {
        assert ps[..k - 1] == ps[..k][..k - 1] && qs[..k - 1] == qs[..k][..k - 1];
      }
      assert ps[k - 1] == ps[..k][k - 1] && qs[k - 1] == qs[..k][k - 1];
      PrefixSamePairing(seats, ps, qs, k - 1);
    }
  }

  /** When two seats share an id, the later index wins. */
  lemma LaterPassengerWins(seats: seq<Seat>, passengers: seq<Passenger>, i: nat, j: nat)
    requires i < j < |seats| && j < |passengers| && seats[i].id == seats[j].id
    requires forall k :: j < k < |seats| && k < |passengers| ==> seats[k].id != seats[j].id
    ensures seats[i].id in Pairing(seats, passengers) && Pairing(seats, passengers)[seats[i].id] == passengers[j]
  {
    PairingUpToAt(seats, passengers, MinNat(|seats|, |passengers|), j);
  }

  // ---------------------------------------------------------------------
  // Render step.

  /** One placed passenger: the seat it is drawn at and where. */
  datatype Placed = Placed(seatId: string, passenger: Passenger, position: Vec3)

  /** `[seat.position.x + 0.1, 0.2, seat.position.z + (standing ? 0.3 : 0.2)]`. */
  function PassengerPosition(seat: Seat, passenger: Passenger): (p: Vec3)
    ensures p.x == seat.position.x + 0.1 && p.y == 0.2
    ensures p.z - seat.position.z == if passenger.activity == Standing then 0.3 else 0.2
  {
    Vec3(seat.position.x + 0.1, 0.2,
         seat.position.z + (if passenger.activity == Standing then 0.3 else 0.2))
  }

  /** `seats.map(...)`: for each seat, the passenger the map holds for its
      id, placed next to it, or nothing. */
  function Render(seats: seq<Seat>, bySeat: map<string, Passenger>): (r: seq<Option<Placed>>)
    ensures |r| == |seats|
    ensures forall i :: 0 <= i < |seats| ==> (r[i].Some? <==> seats[i].id in bySeat)
    ensures forall i :: 0 <= i < |seats| && seats[i].id in bySeat ==>
      r[i] == Some(Placed(seats[i].id, bySeat[seats[i].id], PassengerPosition(seats[i], bySeat[seats[i].id])))
  {
    seq(|seats|, i requires 0 <= i < |seats| =>
      if seats[i].id in bySeat
      then Some(Placed(seats[i].id, bySeat[seats[i].id], PassengerPosition(seats[i], bySeat[seats[i].id])))
      else None)
  }

  /** With distinct seat ids, the first `min(|seats|, |passengers|)` seats
      each show their index's passenger and the rest show nobody. */
  lemma RenderByIndex(seats: seq<Seat>, passengers: seq<Passenger>)
    requires forall a, b :: 0 <= a < b < |seats| ==> seats[a].id != seats[b].id
    ensures var r := Render(seats, Pairing(seats, passengers));
      forall i :: 0 <= i < |seats| ==>
        (r[i].Some? <==> i < |passengers|) &&
        (i < |passengers| ==> r[i].value.passenger == passengers[i])
  {
    PairingByIndex(seats, passengers);
    var m := Pairing(seats, passengers);
    forall i | 0 <= i < |seats| && seats[i].id in m ensures i < |passengers| {
      var j :| 0 <= j < |seats| && j < |passengers| && seats[j].id == seats[i].id;
      assert j == i;
    }
  }
}
