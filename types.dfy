/** The records the seat-inventory engine passes around (src/lib/types.ts),
    with numbers as unbounded integers or exact reals. */
module Types {

  datatype Vec3 = Vec3(x: real, y: real, z: real)

  /** An aircraft configuration; `rows` and `seatsPerRow` are counts. */
  datatype Aircraft = Aircraft(
    id: string,
    name: string,
    model: string,
    manufacturer: string,
    totalSeats: nat,
    rows: nat,
    seatsPerRow: nat,
    aisleAfter: int,
    cabinWidth: real,
    cabinLength: real,
    windowRows: nat)

  datatype SeatClass = SeatClass(
    id: string,
    name: string,
    displayName: string,
    basePrice: real,
    legRoom: real,
    recline: real,
    width: real,
    color: string)

  datatype Seat = Seat(
    id: string,
    aircraftId: string,
    classId: string,
    row: nat,
    column: char,
    position: Vec3,
    isAvailable: bool,
    price: real,
    className: string)

  /** A reservation row; `timestamp` is a clock reading in milliseconds. */
  datatype Reservation = Reservation(
    id: string,
    seatId: string,
    flightId: string,
    passengerId: string,
    name: string,
    email: string,
    status: string,
    timestamp: int)

  datatype Gender = Male | Female

  datatype Activity = Reading | Sleeping | Standing | Sitting

  datatype Appearance = Appearance(hairColor: string, skinTone: string, clothingColor: string)

  datatype Passenger = Passenger(
    id: string,
    name: string,
    gender: Gender,
    activity: Activity,
    appearance: Appearance)
}
