/** The ticket view (src/app/components/flight-ticket.tsx): the flight
    duration from the two timestamps, the booking reference cut from the
    reservation id, and the per-class header colour, amenities and badge. */
module FlightTicket {
  import opened Options
  import opened Text
  import opened Types
  import opened Actions

  const MillisPerHour: int := 1000 * 60 * 60
  const MillisPerMinute: int := 1000 * 60

  /** JavaScript's `%` on integers: the remainder takes the dividend's sign. */
  function JsRem(a: int, m: int): (r: int)
    requires m > 0
    ensures a >= 0 ==> 0 <= r < m
    ensures a < 0 ==> -m < r <= 0
    ensures a >= 0 ==> r == a % m
  {
    if a >= 0 then a % m else -((-a) % m)
  }

  /** `Math.floor(a / m)` for a positive divisor `m`: Dafny's `/` on `int`
      already rounds down when the divisor is positive. */
  function FloorDiv(a: int, m: int): (q: int)
    requires m > 0
    ensures q * m <= a < q * m + m
  {
    a / m
  }

  /** The duration split into whole hours and the minutes left over. */
  datatype Duration = Duration(hours: int, minutes: int)

  /** `getFlightDuration` on the two `getTime()` readings in milliseconds.
      For an arrival before the departure the hours round down and the
      minutes left over are not positive: an arrival one minute early reads
      `-1h -1m`. */
  function FlightDuration(departure: int, arrival: int): (r: Duration)
    ensures arrival >= departure ==> r.hours >= 0 && 0 <= r.minutes < 60
    ensures arrival < departure ==> r.hours < 0 && -60 <= r.minutes <= 0
  {
    var d := arrival - departure;
    Duration(FloorDiv(d, MillisPerHour), FloorDiv(JsRem(d, MillisPerHour), MillisPerMinute))
  }

  /** For an arrival not before the departure, hours and minutes together
      are the whole minutes of the flight. */
  lemma DurationRecombines(departure: int, arrival: int)
    requires arrival >= departure
    ensures var r := FlightDuration(departure, arrival);
      r.hours * 60 + r.minutes == (arrival - departure) / MillisPerMinute
  {
    var d := arrival - departure;
    var h := d / MillisPerHour;
    var rem := d % MillisPerHour;
    assert d == h * MillisPerHour + rem;
    var m := rem / MillisPerMinute;
    assert rem == m * MillisPerMinute + rem % MillisPerMinute;
    assert 0 <= m < 60;
    assert d == (h * 60 + m) * MillisPerMinute + rem % MillisPerMinute;
    MinutesUnique(d, h * 60 + m, rem % MillisPerMinute);
  }

  /** A whole-minute count is determined by any decomposition with a
      remainder below one minute. */
  lemma MinutesUnique(a: int, q: int, r: int)
    requires 0 <= r < MillisPerMinute && a == q * MillisPerMinute + r
    ensures a / MillisPerMinute == q
  {
  }

  /** The displayed text: `${hours}h ${minutes}m`. */
  function DurationText(departure: int, arrival: int): (s: string)
    ensures |s| >= 5 && s[|s| - 1] == 'm'
  {
    var r := FlightDuration(departure, arrival);
    IntToString(r.hours) + "h " + IntToString(r.minutes) + "m"
  }

  /** For an arrival not before the departure, the text spells the whole
      minutes of the flight split into hours and the minutes below 60, and
      each of the two numbers reads back from its digits. */
  lemma DurationTextSpells(departure: int, arrival: int)
    requires arrival >= departure
    ensures var total := (arrival - departure) / MillisPerMinute;
      total >= 0 &&
      DurationText(departure, arrival) ==
        NatToString(total / 60) + "h " + NatToString(total % 60) + "m" &&
      DigitsValue(NatToString(total / 60)) == total / 60 &&
      DigitsValue(NatToString(total % 60)) == total % 60
  {
    var r := FlightDuration(departure, arrival);
    var total := (arrival - departure) / MillisPerMinute;
    DurationRecombines(departure, arrival);
    assert total == r.hours * 60 + r.minutes;
    assert total / 60 == r.hours && total % 60 == r.minutes;
    DigitsValueOfNatToString(total / 60);
    DigitsValueOfNatToString(total % 60);
  }

  /** A two-and-a-half-hour flight reads `2h 30m`. */
  lemma DurationTextExample()
    ensures DurationText(0, 9000000) == "2h 30m"
  {
    assert FlightDuration(0, 9000000) == Duration(2, 30);
    assert IntToString(2) == "2";
    assert IntToString(30) == "30";
  }

  /** `reservation.id.slice(-6).toUpperCase()`. */
  function BookingReference(reservationId: string): (r: string)
    ensures |r| == if |reservationId| < 6 then |reservationId| else 6
    ensures forall i :: 0 <= i < |r| ==> !('a' <= r[i] <= 'z')
  {
    var start := if |reservationId| < 6 then 0 else |reservationId| - 6;
    ToUpper(reservationId[start..])
  }

  /** Character `i` of the reference is the id's character `|id| - |r| + i`,
      upper-cased when it is a lower-case letter and the same otherwise. */
  lemma BookingReferenceIsSuffix(reservationId: string)
    ensures var r := BookingReference(reservationId);
      forall i :: 0 <= i < |r| ==>
        r[i] == UpperChar(reservationId[|reservationId| - |r| + i])
  {
    var start := if |reservationId| < 6 then 0 else |reservationId| - 6;
    var r := BookingReference(reservationId);
    forall i | 0 <= i < |r|
      ensures r[i] == UpperChar(reservationId[|reservationId| - |r| + i])
    {
      assert r[i] == UpperChar(reservationId[start..][i]);
    }
  }

  /** A reference made only of digits and upper-case letters is kept as is:
      an id whose last six characters are such is shown verbatim. */
  lemma BookingReferenceOfUpperId(reservationId: string)
    requires forall i :: 0 <= i < |reservationId| ==> !('a' <= reservationId[i] <= 'z')
    ensures BookingReference(reservationId) ==
      reservationId[(if |reservationId| < 6 then 0 else |reservationId| - 6)..]
  {
  }

  /** A reservation created at a clock reading of six digits or more shows
      the last six digits of that reading as its booking reference. */
  lemma CreatedReservationReference(seatId: string, flightId: string, name: string, email: string,
                                    idClock: nat, passengerClock: nat, now: int)
    requires idClock >= 100000
    ensures var digits := NatToString(idClock);
      |digits| >= 6 && BookingReference(NewReservation(seatId, flightId, name, email, idClock, passengerClock, now).id) ==
      digits[|digits| - 6..]
  {
    var digits := NatToString(idClock);
    assert Pow10(5) == 100000;
    NatToStringLength(idClock, 5);
    var id := NewReservation(seatId, flightId, name, email, idClock, passengerClock, now).id;
    assert id == "reservation-" + digits;
    assert id[|id| - 6..] == digits[|digits| - 6..];
    BookingReferenceOfUpperId(digits[|digits| - 6..]);
    assert BookingReference(id) == BookingReference(digits[|digits| - 6..]);
  }

  /** The header and badge gradient by `seat.class`; an absent or unknown
      class gets the economy colours. */
  function SeatClassColor(seatClass: Option<string>): (c: string)
    ensures seatClass == Some("first") <==> c == "from-purple-600 to-purple-800"
    ensures seatClass == Some("business") <==> c == "from-amber-500 to-amber-700"
    ensures seatClass != Some("first") && seatClass != Some("business") <==>
      c == "from-emerald-500 to-emerald-700"
  {
    match seatClass
    case Some("first") => "from-purple-600 to-purple-800"
    case Some("business") => "from-amber-500 to-amber-700"
    case _ => "from-emerald-500 to-emerald-700"
  }

  datatype Icon = Wifi | Utensils | Coffee

  datatype Amenity = Amenity(icon: Icon, caption: string)

  const FirstAmenities: seq<Amenity> :=
    [Amenity(Wifi, "Premium WiFi"), Amenity(Utensils, "Gourmet Dining"), Amenity(Coffee, "Premium Bar")]
  const BusinessAmenities: seq<Amenity> :=
    [Amenity(Wifi, "WiFi"), Amenity(Utensils, "Enhanced Meal"), Amenity(Coffee, "Premium Drinks")]
  const EconomyAmenities: seq<Amenity> :=
    [Amenity(Wifi, "WiFi Available"), Amenity(Utensils, "Meal Service"), Amenity(Coffee, "Beverages")]

  /** `getAmenities`: three entries for every class, in the order WiFi, meal,
      drinks; an absent or unknown class gets the economy list. */
  function Amenities(seatClass: Option<string>): (a: seq<Amenity>)
    ensures |a| == 3 && a[0].icon == Wifi && a[1].icon == Utensils && a[2].icon == Coffee
    ensures seatClass == Some("first") <==> a == FirstAmenities
    ensures seatClass == Some("business") <==> a == BusinessAmenities
    ensures seatClass != Some("first") && seatClass != Some("business") <==> a == EconomyAmenities
  {
    match seatClass
    case Some("first") => FirstAmenities
    case Some("business") => BusinessAmenities
    case _ => EconomyAmenities
  }

  /** The three classes have three different lists. */
  lemma AmenitiesDistinguishClasses()
    ensures Amenities(Some("first")) != Amenities(Some("business"))
    ensures Amenities(Some("first")) != Amenities(Some("economy"))
    ensures Amenities(Some("business")) != Amenities(Some("economy"))
  {
    assert Amenities(Some("first"))[0].caption != Amenities(Some("business"))[0].caption;
    assert Amenities(Some("first"))[0].caption != Amenities(Some("economy"))[0].caption;
    assert Amenities(Some("business"))[0].caption != Amenities(Some("economy"))[0].caption;
  }

  /** The class badge: the class with its first character upper-cased, or
      `Economy` when the class is absent or empty (both falsy). */
  function ClassBadge(seatClass: Option<string>): (b: string)
    ensures seatClass.None? || seatClass == Some("") ==> b == "Economy"
    ensures seatClass.Some? && seatClass.value != "" ==>
      |b| == |seatClass.value| && b[0] == UpperChar(seatClass.value[0]) && b[1..] == seatClass.value[1..]
  {
    match seatClass
    case Some(c) => if c == "" then "Economy" else [UpperChar(c[0])] + c[1..]
    case None => "Economy"
  }

  /** The three classes read `First`, `Business` and `Economy`; an absent
      class reads like economy. */
  lemma ClassBadgeExamples()
    ensures ClassBadge(Some("first")) == "First"
    ensures ClassBadge(Some("business")) == "Business"
    ensures ClassBadge(Some("economy")) == "Economy" == ClassBadge(None)
  {
    assert UpperChar('f') == 'F' && UpperChar('b') == 'B' && UpperChar('e') == 'E';
  }
}
