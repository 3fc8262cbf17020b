/** `createReservation` (src/lib/actions.ts): a required-fields guard, then
    one append to the reservation store. The two `Date.now()` readings and
    `new Date()` are clock parameters; whether the store accepts the write
    (the `try`/`catch`) is an oracle parameter. */
module Actions {
  import opened Text
  import opened Types
  import DataService

  datatype CreateResult = Created(reservation: Reservation) | Failed(error: string)

  const FieldsRequired: string := "Fields required."
  const ReservationFailed: string := "Reservation failed."
  const Confirmed: string := "confirmed"

  /** `!seatId || !flightId || !name || !email`: an empty string is falsy. */
  predicate FieldsMissing(seatId: string, flightId: string, name: string, email: string) {
    seatId == "" || flightId == "" || name == "" || email == ""
  }

  /** The record handed to the store: the four inputs copied verbatim, ids
      stamped from the two clock readings, status `confirmed`. */
  function NewReservation(seatId: string, flightId: string, name: string, email: string,
                          idClock: nat, passengerClock: nat, now: int): (r: Reservation)
    ensures r.seatId == seatId && r.flightId == flightId && r.name == name && r.email == email
    ensures r.status == Confirmed && r.timestamp == now
    ensures r.id == "reservation-" + NatToString(idClock)
    ensures r.passengerId == "passenger-" + NatToString(passengerClock)
  {
    Reservation("reservation-" + NatToString(idClock), seatId, flightId,
                "passenger-" + NatToString(passengerClock), name, email, Confirmed, now)
  }

  /** Reservations stamped at different clock readings have different ids. */
  lemma ReservationIdsFromClock(a: nat, b: nat)
    ensures ("reservation-" + NatToString(a) == "reservation-" + NatToString(b)) <==> a == b
  {
    var sa := "reservation-" + NatToString(a);
    var sb := "reservation-" + NatToString(b);
    if sa == sb {
      assert sa[12..] == NatToString(a) && sb[12..] == NatToString(b);
      NatToStringInjective(a, b);
    }
  }

  /** The whole effect of one call: the result and the store's records
      afterwards, given the records before. */
  function CreateOutcome(records: seq<Reservation>, seatId: string, flightId: string, name: string,
                         email: string, idClock: nat, passengerClock: nat, now: int,
                         accepted: bool): (out: (CreateResult, seq<Reservation>))
    ensures FieldsMissing(seatId, flightId, name, email) ==>
      out.0 == Failed(FieldsRequired) && out.1 == records
    ensures !FieldsMissing(seatId, flightId, name, email) && !accepted ==>
      out.0 == Failed(ReservationFailed) && out.1 == records
    ensures !FieldsMissing(seatId, flightId, name, email) && accepted ==>
      out.0.Created? && out.1 == records + [out.0.reservation] &&
      out.0.reservation == NewReservation(seatId, flightId, name, email, idClock, passengerClock, now)
  {
    if FieldsMissing(seatId, flightId, name, email) then (Failed(FieldsRequired), records)
    else if !accepted then (Failed(ReservationFailed), records)
    else
      var r := NewReservation(seatId, flightId, name, email, idClock, passengerClock, now);
      (Created(r), records + [r])
  }

  /** The guard's message appears iff a field is empty; the call succeeds iff
      no field is empty and the store accepts the record. */
  lemma CreateOutcomeCases(records: seq<Reservation>, seatId: string, flightId: string, name: string,
                           email: string, idClock: nat, passengerClock: nat, now: int, accepted: bool)
    ensures var out := CreateOutcome(records, seatId, flightId, name, email, idClock, passengerClock, now, accepted);
      (out.0 == Failed(FieldsRequired) <==> FieldsMissing(seatId, flightId, name, email)) &&
      (out.0.Created? <==> !FieldsMissing(seatId, flightId, name, email) && accepted) &&
      (out.0.Failed? <==> out.1 == records)
  {
    var out := CreateOutcome(records, seatId, flightId, name, email, idClock, passengerClock, now, accepted);
    assert FieldsRequired != ReservationFailed by {
      assert FieldsRequired[0] != ReservationFailed[0];
    }
    if out.0.Created? {
      assert |out.1| == |records| + 1;
    }
  }

  /** The record store behind `prisma.reservation.create`. */
  class ReservationStore {
    var records: seq<Reservation>

    constructor(initial: seq<Reservation>)
      ensures records == initial
    {
      records := initial;
    }

    /** One write; a rejected write (`accepted` false) leaves the store as it was. */
    method Insert(r: Reservation, accepted: bool) returns (ok: bool)
      modifies this
      ensures ok == accepted
      ensures records == if accepted then old(records) + [r] else old(records)
    {
      ok := accepted;
      if accepted {
        records := records + [r];
      }
    }
  }

  /** `createReservation(seatId, flightId, name, email)`. */
  method CreateReservation(store: ReservationStore, seatId: string, flightId: string, name: string,
                           email: string, idClock: nat, passengerClock: nat, now: int,
                           accepted: bool) returns (result: CreateResult)
    modifies store
    ensures (result, store.records) ==
      CreateOutcome(old(store.records), seatId, flightId, name, email, idClock, passengerClock, now, accepted)
  {
    if FieldsMissing(seatId, flightId, name, email) {
      return Failed(FieldsRequired);
    }
    var reservation := NewReservation(seatId, flightId, name, email, idClock, passengerClock, now);
    var ok := store.Insert(reservation, accepted);
    if ok {
      result := Created(reservation);
    } else {
      result := Failed(ReservationFailed);
    }
  }

  /** Nothing checks for an existing booking: booking the same seat on the
      same flight twice succeeds both times when the store accepts both, and
      the store then holds two reservations for that seat. */
  method BookTwice(store: ReservationStore, seatId: string, flightId: string, name: string, email: string,
                   clock1: nat, clock2: nat, now1: int, now2: int) returns (first: CreateResult, second: CreateResult)
    requires !FieldsMissing(seatId, flightId, name, email)
    modifies store
    ensures first.Created? && second.Created?
    ensures |store.records| == |old(store.records)| + 2
    ensures store.records[|old(store.records)|].seatId == seatId
    ensures store.records[|old(store.records)| + 1].seatId == seatId
  {
    first := CreateReservation(store, seatId, flightId, name, email, clock1, clock1, now1, true);
    second := CreateReservation(store, seatId, flightId, name, email, clock2, clock2, now2, true);
  }

  /** After a successful booking, the flight's reserved ids gain exactly the
      booked seat id, and that seat is unavailable in the flight's layout. */
  lemma CreatedSeatUnavailable(ac: Aircraft, classes: seq<SeatClass>, records: seq<Reservation>,
                               seatId: string, flightId: string, name: string, email: string,
                               idClock: nat, passengerClock: nat, now: int)
    requires ac.seatsPerRow <= 10
    requires !FieldsMissing(seatId, flightId, name, email)
    ensures var after := CreateOutcome(records, seatId, flightId, name, email, idClock, passengerClock, now, true).1;
      DataService.ReservedSeatIds(after, flightId) == DataService.ReservedSeatIds(records, flightId) + {seatId} &&
      forall s :: (s in DataService.Layout(ac, classes, DataService.ReservedSeatIds(after, flightId)) &&
        s.id == seatId) ==> !s.isAvailable
  {
    var after := CreateOutcome(records, seatId, flightId, name, email, idClock, passengerClock, now, true).1;
    var n := |records|;
    assert after == records + [after[n]] && after[n].seatId == seatId && after[n].flightId == flightId;
    assert after[..n] == records;
    DataService.LayoutAvailability(ac, classes, after, flightId);
  }
}
