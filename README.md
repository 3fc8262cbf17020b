# flybetter3d seat inventory, in Dafny

This project models the seat-inventory core of flybetter3d, a Next.js and
three.js app for browsing an aircraft cabin in 3D and booking a seat. The
core has four parts:

- the data service, which builds an aircraft's seat layout and synthesises
  passengers;
- the reservation action;
- the two camera controllers that walk the cabin and pick seats;
- the small pure decisions behind the seat, ticket, passenger and
  aircraft-picker views.

Database reads, the clock and the raycaster are parameters. Whether the
database accepts a write is an oracle boolean.

Modules, one per source file (plus three shared ones):

- `Options`, `Text` and `Types` are shared. They hold the optional value,
  the decimal rendering and parsing of numbers, ASCII case conversion, and
  the records of `src/lib/types.ts`.
- `DataService` models `getSeats`, `hashCode` and `getPassengers`.
  - The layout is built by a method with the source's two nested loops.
  - It is proved equal to the function `Layout`.
  - Properties of `Layout` are lemmas: seat count, row-major order, class
    bands, distinct ids, positions, availability.
  - The hash is a loop against a fold.
- `Actions` models `createReservation`, with the reservation store as a
  class holding a sequence of records. The source has no duplicate-seat
  check and the model adds none: `BookTwice` books one seat twice.
- `Movement` holds what both controllers share: the clamp, steps in the xz
  plane, and the document body's `data-key-*` attributes as a class.
- `SeatPicking` holds the click-to-seat loop and the seat-id parse. The two
  controllers contain identical copies of this code, so it is defined once.
- `FirstPersonControls` and `HybridControls` model the per-frame movement
  of the position ref and the camera (as classes), the key handlers and the
  click handlers.
- `KeyboardControls` models the `setKeys` updaters of the keyboard hook as
  transition functions.
- `PassengerManager` models the index-based `passengersBySeat` map and the
  render step.
- `FlightTicket` models the duration, the booking reference, the class
  colour, the amenities and the class badge.
- `AirplaneSelection` models the compass and weather labels, the aircraft
  row and scale, and the select-then-confirm picker.
- `SeatModel` models the seat colour, the base size, the ring, `userData`,
  and hover and click as a class.

Modelling decisions worth knowing:

- Positions are exact `real`s.
- Integers are unbounded. The source's 32-bit truncation in `hashCode`
  (`Int32`) and JavaScript's sign-of-dividend `%` in the duration (`JsRem`)
  are written out.
- `Math.floor(rows * 0.1)` and `Math.floor(rows * 0.2)` are `rows / 10` and
  `rows / 5` on natural numbers.
- A seat's `aircraftId` is the aircraft's own id. The source copies the
  `aircraftId` argument, which names that same aircraft because it was
  looked up by that id.
- The first-person controller reads `data-key-w`, `data-key-a`, `data-key-s`
  and `data-key-d` in its frame, and removes them on unmount. Its key
  handlers only ever set the four arrow attributes. `FirstPersonControls.KeyListFacts`
  states this: in that controller only the arrow keys move the walker.

## Model

| member | source | states |
|---|---|---|
| Text.NatToString | src/lib/data/data-service.ts:75 | `${n}` is a non-empty run of digits with no leading zero; it is one digit exactly when n < 10 |
| Text.DigitsValueOfNatToString | src/app/components/first-person-controls.tsx:189 | `parseInt` of the decimal rendering of n gives n back |
| Text.NatToStringInjective | src/lib/data/data-service.ts:75 | distinct numbers have distinct renderings |
| Text.IntToString | src/app/components/flight-ticket.tsx:42 | `${i}` starts with `-` exactly when i is negative; it is the decimal digits of i, or `-` then the digits of -i |
| Text.ToLower | src/app/components/hybrid-controls.tsx:134 | same length; each upper-case ASCII letter becomes its lower-case letter (code + 32); every other character kept |
| Text.ToUpper | src/app/components/flight-ticket.tsx:108 | same length; each lower-case ASCII letter becomes its upper-case letter (code - 32); every other character kept |
| DataService.SeatLettersFacts | src/lib/data/data-service.ts:46 | the column alphabet has 10 distinct letters, no digit and no `I` |
| DataService.BandsInRowOrder | src/lib/data/data-service.ts:60-67 | bands are contiguous and ordered first, business, economy along the rows |
| DataService.BandExamples | src/lib/data/data-service.ts:49-50 | 30 rows split 3/6/21 and 10 rows split 1/2/7 into the bands; 2 rows have no economy row |
| DataService.FindClass | src/lib/data/data-service.ts:62-66 | a class found by name has that name |
| DataService.FindClassFirstMatch | src/lib/data/data-service.ts:62-68 | nothing is found iff no class has the name; otherwise the first class with that name is the one found |
| DataService.ReservedSeatIds | src/lib/data/data-service.ts:40-43 | an id is reserved iff some reservation of the flight names it, whatever its status |
| DataService.SeatXGap | src/lib/data/data-service.ts:72-73 | x advances by one seat width per seat, plus 0.5 exactly when the aisle lies between the two seats |
| DataService.SeatXIncreasing | src/lib/data/data-service.ts:53-57 | with a positive cabin width, x strictly increases along a row |
| DataService.RowCentred | src/lib/data/data-service.ts:54-57 | with the aisle strictly inside the row, the row is centred on x = 0 |
| DataService.SeatZSteps | src/lib/data/data-service.ts:74 | row 1 is at z = 0, and each further row is one row spacing further back |
| DataService.SeatIdInjective | src/lib/data/data-service.ts:75 | the id `{row}{column}` determines both the row and the column |
| DataService.RowSeats | src/lib/data/data-service.ts:70 | a row built to n columns has n seats |
| DataService.RowSeatsAt | src/lib/data/data-service.ts:71-89 | seat i of a row has column letter i, the aisle-shifted x, the row's z, id `{row}{letter}`, availability, and the class's id, price and name |
| DataService.GetSeats | src/lib/data/data-service.ts:38-92 | no aircraft gives no seats; otherwise the nested loops build exactly `Layout` over the flight's reserved ids |
| DataService.AppendRowOfBand | src/lib/data/data-service.ts:60-68 | one pass of the row loop appends that row's layout, or nothing when its band has no class |
| DataService.Geometry | src/lib/data/data-service.ts:53-57 | the row spacing, seat width and first seat's x |
| DataService.BandClass | src/lib/data/data-service.ts:61-67 | the band test picks the class of the row's band |
| DataService.AppendRow | src/lib/data/data-service.ts:70-90 | the column loop appends the row's seats in column order |
| DataService.PlaceSeat | src/lib/data/data-service.ts:71-89 | one pass of the column loop builds the seat of that column |
| DataService.RowLayoutMembership | src/lib/data/data-service.ts:68-90 | a seat is in a row's layout iff the band has a class and the seat is that class's seat at some column index |
| DataService.LayoutMembership | src/lib/data/data-service.ts:59-91 | a seat is in the layout iff it is a seat of some row 1..rows whose band has a class |
| DataService.LayoutUpToSeats | src/lib/data/data-service.ts:75-77 | every seat lies in rows 1..rows, has a column letter of a valid index, has id `{row}{column}`, and is available iff its id is not reserved |
| DataService.RowSeatsDistinct | src/lib/data/data-service.ts:71-75 | the seats of one row have distinct ids |
| DataService.RowSeatIds | src/lib/data/data-service.ts:75 | every seat of a row carries that row and the id `{row}{column}` |
| DataService.LayoutIdsDistinct | src/lib/data/data-service.ts:59-91 | all seat ids of a layout are distinct |
| DataService.LayoutBands | src/lib/data/data-service.ts:60-88 | every seat's class name is its row's band, and its class id and price come from the first class with that name |
| DataService.RowLayoutFull | src/lib/data/data-service.ts:68-70 | with a class for each band, every row has `seatsPerRow` seats |
| DataService.LayoutSize | src/lib/data/data-service.ts:59-91 | with a class for each band, the layout has `rows * seatsPerRow` seats |
| DataService.LayoutAt | src/lib/data/data-service.ts:59-91 | with a class for each band, seat i of row r is at index (r - 1) * seatsPerRow + i (row-major order) |
| DataService.LayoutAvailability | src/lib/data/data-service.ts:77 | a layout seat is unavailable iff some reservation of the flight names its id |
| DataService.CancelledReservationBlocks | src/lib/data/data-service.ts:40-43 | a cancelled reservation still makes its seat unavailable |
| DataService.TenRowExample | src/lib/data/data-service.ts:49-57 | 10 rows of 6 give 60 seats, from first-class `1A` to economy `10F`, with seat width cabinWidth / 7 |
| DataService.Int32 | src/lib/data/data-service.ts:189 | the signed 32-bit representative, congruent to v mod 2^32 |
| DataService.ShiftStep | src/lib/data/data-service.ts:188-189 | `(h << 5) - h + c` cut to 32 bits equals `h * 31 + c` cut to 32 bits |
| DataService.HashFold | src/lib/data/data-service.ts:185-190 | the rolling hash stays a signed 32-bit value |
| DataService.Hash | src/lib/data/data-service.ts:191 | its absolute value lies in [0, 2^31] |
| DataService.HashCode | src/lib/data/data-service.ts:184-192 | the loop computes the absolute value of the 32-bit fold of h * 31 + code, which lies in [0, 2^31] |
| DataService.ClothingColors | src/lib/data/data-service.ts:135-139 | each of the three classes has five clothing colours |
| DataService.SynthesizePassenger | src/lib/data/data-service.ts:111-163 | id `passenger-{seat}-{flight}`, name `Passenger {seat}`; male iff the hash is even; hair, skin, clothing and activity at indices h % 6, 3h % 6, 7h % 5 and 11h % 4 of the fixed tables |
| DataService.PassengerReproducible | src/lib/data/data-service.ts:109-163 | the record depends only on the seat id, the class and the flight |
| DataService.PassengerIdInjective | src/lib/data/data-service.ts:154 | within a flight, distinct seats give distinct passenger ids |
| DataService.UnavailableSeats | src/lib/data/data-service.ts:107 | keeps exactly the unavailable seats |
| DataService.UnavailableSeatsInOrder | src/lib/data/data-service.ts:107 | the filter's k-th seat sits at the k-th kept position; the positions strictly increase and include every unavailable seat, so the filter keeps layout order with one entry per seat |
| DataService.UnavailableSeatsConcat | src/lib/data/data-service.ts:107 | filtering `p + q` gives the filtered `p` followed by the filtered `q` |
| DataService.UnavailableSeatsDistinct | src/lib/data/data-service.ts:107 | filtering keeps distinct ids distinct |
| DataService.SynthesizeAll | src/lib/data/data-service.ts:109 | one record per seat, in order |
| DataService.LayoutClassesKnown | src/lib/data/data-service.ts:140-143 | every layout seat has a class the clothing table knows, so the lookup never fails |
| DataService.PassengersOfSeats | src/lib/data/data-service.ts:106-109 | one passenger per unavailable seat, in order, each with that seat's passenger id, no two ids alike |
| DataService.PassengersInSeatOrder | src/lib/data/data-service.ts:106-163 | for seats with distinct ids and known classes, passenger k is `SynthesizePassenger` of the k-th unavailable seat in list order, every unavailable seat has one, and the ids are distinct |
| DataService.GetPassengers | src/lib/data/data-service.ts:102-165 | no aircraft gives []; otherwise passenger k is `SynthesizePassenger` of the k-th unavailable layout seat in layout order (id `passenger-{seatId}-{flightId}`, name, gender, appearance and activity alike), every unavailable seat has one, each such seat is named by a reservation of the flight, and the ids are distinct |
| Actions.NewReservation | src/lib/actions.ts:17-28 | the four inputs are copied verbatim, with status `confirmed`, ids `reservation-{clock}` and `passenger-{clock}`, and the timestamp |
| Actions.ReservationIdsFromClock | src/lib/actions.ts:19 | two reservation ids are equal iff their clock readings are |
| Actions.CreateOutcome | src/lib/actions.ts:13-32 | an empty field gives `Fields required.` and leaves the store unchanged; a rejected write gives `Reservation failed.` and leaves it unchanged; otherwise exactly the new record is appended |
| Actions.CreateOutcomeCases | src/lib/actions.ts:13-32 | `Fields required.` appears iff a field is empty; the call succeeds iff no field is empty and the store accepts; the store is unchanged iff the call failed |
| Actions.ReservationStore.constructor | src/lib/actions.ts:5 | the store starts with the given records |
| Actions.ReservationStore.Insert | src/lib/actions.ts:17-28 | an accepted write appends the record; a rejected one changes nothing |
| Actions.CreateReservation | src/lib/actions.ts:7-33 | the result and the new store are those of `CreateOutcome` |
| Actions.BookTwice | src/lib/actions.ts:16-29 | with no duplicate check, the same seat booked twice succeeds twice, adding two records for that seat |
| Actions.CreatedSeatUnavailable | src/lib/actions.ts:17-29 | after a booking the flight's reserved ids gain exactly the seat, and the seat shows as unavailable |
| Movement.Clamp | src/app/components/first-person-controls.tsx:110-111 | `Math.max(lo, Math.min(hi, v))` lies in [lo, hi] for lo <= hi, is v inside the range, lo below it and hi above it |
| Movement.ClampIdempotent | src/app/components/first-person-controls.tsx:110-111 | clamping twice is clamping once, even for an empty range |
| Movement.ClampXZ | src/app/components/first-person-controls.tsx:107-111 | y is kept; the result lies in the cabin box whenever the box is non-empty; a point inside passes through unchanged |
| Movement.ClampXZIdempotent | src/app/components/first-person-controls.tsx:110-111 | the xz clamp is idempotent |
| Movement.KeyAttributeInjective | src/app/components/first-person-controls.tsx:134 | distinct keys have distinct `data-key-*` attributes |
| Movement.ReadHeldKeys | src/app/components/first-person-controls.tsx:57-77 | each movement flag is set iff one of its attributes is present |
| Movement.PlanarDirection | src/app/components/first-person-controls.tsx:94-97 | opposite keys cancel: none, or both of each pair, gives no movement |
| Movement.AccumulateDirection | src/app/components/first-person-controls.tsx:94-97 | the add and sub sequence computes `PlanarDirection` |
| Movement.AfterKeyDown | src/app/components/first-person-controls.tsx:129-136 | a listed key's lower-cased attribute is added; every other attribute is unchanged; an unlisted key changes nothing |
| Movement.AfterKeyUp | src/app/components/first-person-controls.tsx:138-143 | a listed key's lower-cased attribute is removed; every other attribute is unchanged; an unlisted key changes nothing |
| Movement.KeyDownUp | src/app/components/hybrid-controls.tsx:134-146 | down then up of a listed key leaves its attribute absent and restores every other attribute; two downs equal one down |
| Movement.AfterCleanup | src/app/components/first-person-controls.tsx:240-251 | exactly the listed attributes are removed |
| Movement.Body.SetAttribute | src/app/components/first-person-controls.tsx:134 | adds one attribute |
| Movement.Body.RemoveAttribute | src/app/components/first-person-controls.tsx:141 | removes one attribute |
| Movement.KeyDown | src/app/components/first-person-controls.tsx:129-136 | the handler changes the body exactly as `AfterKeyDown` says |
| Movement.KeyUp | src/app/components/first-person-controls.tsx:138-143 | the handler changes the body exactly as `AfterKeyUp` says |
| Movement.Cleanup | src/app/components/first-person-controls.tsx:240-251 | the removal loop leaves exactly `AfterCleanup` |
| FirstPersonControls.MoveBounds | src/app/components/first-person-controls.tsx:100-114 | after a step the walker is in the cabin box; no direction means no move; an in-bounds step is not altered; a walker inside stays inside; a flat direction keeps the height |
| FirstPersonControls.FlatDirection | src/app/components/first-person-controls.tsx:85-97 | flattened vectors give a direction with no vertical part |
| FirstPersonControls.Walker.constructor | src/app/components/first-person-controls.tsx:29 | the walker starts at (0, 1.6, 0) |
| FirstPersonControls.Walker.Initialize | src/app/components/first-person-controls.tsx:37-45 | the first enabled render puts walker and camera at the start; otherwise nothing changes |
| FirstPersonControls.Walker.Frame | src/app/components/first-person-controls.tsx:47-114 | a disabled frame changes nothing; an enabled one moves the walker by `Move`, and the camera follows only when the direction is non-zero |
| FirstPersonControls.IsSeatClick | src/app/components/first-person-controls.tsx:160-200 | with no callback nothing is selected; otherwise the selection is `Pick` of the hits; it reports a seat click iff something was selected |
| FirstPersonControls.HandleCanvasClick | src/app/components/first-person-controls.tsx:202-208 | pointer lock is requested iff no seat was selected and the canvas supports it |
| FirstPersonControls.KeyListFacts | src/app/components/first-person-controls.tsx:131-132 | `ArrowUp` sets `data-key-arrowup`; `w` is not accepted, so `data-key-w` is never set here |
| FirstPersonControls.CleanupReleasesArrows | src/app/components/first-person-controls.tsx:240-251 | after unmount no arrow key is held |
| HybridControls.ClampXYZ | src/app/components/hybrid-controls.tsx:107-112 | the result lies in the cabin box and in heights [0.5, 3] whenever the box is non-empty; a point inside passes through unchanged |
| HybridControls.ClampXYZIdempotent | src/app/components/hybrid-controls.tsx:110-112 | the xyz clamp is idempotent |
| HybridControls.Direction | src/app/components/hybrid-controls.tsx:89-96 | without exactly one of `e` and `q`, the direction is the planar one |
| HybridControls.UpAloneMoves | src/app/components/hybrid-controls.tsx:95-96 | `e` without `q` always gives an upward component of 1 |
| HybridControls.MoveBounds | src/app/components/hybrid-controls.tsx:99-112 | after a step the viewpoint is within bounds; no direction means no move; an in-bounds step is not altered; a viewpoint inside stays inside |
| HybridControls.HeldDirection | src/app/components/hybrid-controls.tsx:89-96 | the add and sub sequence computes `Direction` |
| HybridControls.Viewpoint.constructor | src/app/components/hybrid-controls.tsx:194 | the position ref starts as a copy of the camera position |
| HybridControls.Viewpoint.Frame | src/app/components/hybrid-controls.tsx:36-120 | nothing happens while disabled or before the orbit controls exist; otherwise the position moves by `Move`, and the camera follows only when the direction is non-zero |
| HybridControls.HandleClick | src/app/components/hybrid-controls.tsx:149-191 | with no callback nothing is selected; otherwise the selection is `Pick` of the hits |
| HybridControls.KeyListFacts | src/app/components/hybrid-controls.tsx:133-140 | `W` is held as `w`; `e` holds up and `q` holds down |
| HybridControls.CleanupReleasesAll | src/app/components/hybrid-controls.tsx:206-219 | after unmount no listed key is held |
| SeatPicking.FirstDigit | src/app/components/first-person-controls.tsx:189 | the first position holding a digit, with no digit before it |
| SeatPicking.DigitRun | src/app/components/first-person-controls.tsx:189 | a maximal leading run of digits |
| SeatPicking.DigitRunExact | src/app/components/first-person-controls.tsx:189 | the run is the only k with digits up to k and then a non-digit or the end |
| SeatPicking.ParseSeatId | src/app/components/first-person-controls.tsx:189-190 | an id without digits parses to row 0 with the id as the seat; the seat part is never longer than the id |
| SeatPicking.ParseSeatIdRoundTrip | src/app/components/first-person-controls.tsx:189-190 | `{row}{letters}` parses back to that row and those letters |
| SeatPicking.ParseSeatIdFirstRunOnly | src/app/components/hybrid-controls.tsx:181-182 | only the first run of digits counts: `12A3` is row 12, seat `A3` |
| SeatPicking.FirstHolder | src/app/components/first-person-controls.tsx:179-182 | the climb stops at the first ancestor with a seat id, or finds none iff no ancestor has one |
| SeatPicking.Qualifying | src/app/components/first-person-controls.tsx:184 | a hit qualifies iff its first seat holder exists and is available |
| SeatPicking.Selection | src/app/components/first-person-controls.tsx:185-194 | the id is kept, row and seat are parsed, `isAvailable` is true, a falsy price becomes 200 and a falsy class becomes `economy` |
| SeatPicking.PickNone | src/app/components/first-person-controls.tsx:174-199 | nothing is selected iff no hit qualifies |
| SeatPicking.PickFirstQualifying | src/app/components/hybrid-controls.tsx:166-190 | the selection comes from the first qualifying hit; earlier hits with taken seats do not stop the search |
| SeatPicking.PickOnlyAvailable | src/app/components/first-person-controls.tsx:184-191 | every selection is of an available holder that some hit reached |
| SeatPicking.PickIgnoresOwnData | src/app/components/first-person-controls.tsx:176-177 | the hit object's own `userData` never matters: the climb starts at its parent |
| SeatPicking.PickSeat | src/app/components/first-person-controls.tsx:174-199 | the `for` loop returns `Pick` of the hits |
| SeatPicking.QualifyingHolder | src/app/components/hybrid-controls.tsx:168-176 | the `while` climb and the availability test compute `Qualifying` |
| KeyboardControls.KeyDown | src/hooks/use-keyboard-controls.ts:28-55 | the key's flag becomes true; every other flag is copied |
| KeyboardControls.KeyUp | src/hooks/use-keyboard-controls.ts:60-87 | the key's flag becomes false; every other flag is copied |
| KeyboardControls.AtMostOneFlagChanges | src/hooks/use-keyboard-controls.ts:29-52 | each event changes at most one flag; a key outside the twelve changes nothing |
| KeyboardControls.KeyDownUpLaws | src/hooks/use-keyboard-controls.ts:28-87 | press is idempotent, release is idempotent, and press then release equals release alone |
| KeyboardControls.EventsOnDifferentFlagsCommute | src/hooks/use-keyboard-controls.ts:28-87 | events on keys of different flags commute |
| KeyboardControls.InitialAllReleased | src/hooks/use-keyboard-controls.ts:13-18 | the initial state holds no flag |
| KeyboardControls.PreventedKeysAreMovementKeys | src/hooks/use-keyboard-controls.ts:23 | the keys whose default is prevented are exactly the keys that drive a flag |
| PassengerManager.PassengersBySeat | src/app/components/passenger-manager.tsx:15-26 | the `forEach` loop builds the index pairing `Pairing` |
| PassengerManager.PairingUpToKeys | src/app/components/passenger-manager.tsx:19-23 | the keys are the ids of the first k seats |
| PassengerManager.PairingUpToSize | src/app/components/passenger-manager.tsx:16-23 | k pairs give at most k entries |
| PassengerManager.PairingUpToAt | src/app/components/passenger-manager.tsx:21 | seat i's id maps to passenger i unless a later seat shares the id |
| PassengerManager.PairingByIndex | src/app/components/passenger-manager.tsx:16-23 | at most min(seats, passengers) entries, keyed by the first seats' ids; with distinct ids, passenger i sits at seat i; passengers past the last seat are dropped |
| PassengerManager.PrefixSamePairing | src/app/components/passenger-manager.tsx:20 | only the first k passengers matter to the first k pairs |
| PassengerManager.LaterPassengerWins | src/app/components/passenger-manager.tsx:21 | when two seats share an id, the later passenger wins |
| PassengerManager.PassengerPosition | src/app/components/passenger-manager.tsx:35-36 | (seat.x + 0.1, 0.2, seat.z + 0.3 when standing, else + 0.2) |
| PassengerManager.Render | src/app/components/passenger-manager.tsx:30-32 | a seat shows a passenger iff the map has its id, and then that passenger at `PassengerPosition` |
| PassengerManager.RenderByIndex | src/app/components/passenger-manager.tsx:19-32 | with distinct ids, seat i shows passenger i exactly when i < the passenger count |
| FlightTicket.JsRem | src/app/components/flight-ticket.tsx:41 | JavaScript's `%`: the sign follows the dividend, and it is Euclidean for a non-negative dividend |
| FlightTicket.FloorDiv | src/app/components/flight-ticket.tsx:40 | `Math.floor(a / m)` is the q with q * m <= a < (q + 1) * m |
| FlightTicket.FlightDuration | src/app/components/flight-ticket.tsx:36-43 | arrival not before departure gives hours >= 0 and minutes in [0, 60); an earlier arrival gives negative hours and minutes in [-60, 0] |
| FlightTicket.DurationRecombines | src/app/components/flight-ticket.tsx:39-41 | hours * 60 + minutes is the whole minutes of the flight |
| FlightTicket.DurationText | src/app/components/flight-ticket.tsx:42 | the text `{h}h {m}m` has at least 5 characters and ends in `m` |
| FlightTicket.DurationTextSpells | src/app/components/flight-ticket.tsx:36-43 | for an arrival not before the departure, the text is the decimal hours and the minutes below 60 of the flight's whole minutes, and each number reads back from its digits |
| FlightTicket.DurationTextExample | src/app/components/flight-ticket.tsx:36-43 | a 2.5-hour flight reads `2h 30m` |
| FlightTicket.BookingReference | src/app/components/flight-ticket.tsx:108 | the last 6 characters (the whole id when shorter), with no lower-case letter |
| FlightTicket.BookingReferenceIsSuffix | src/app/components/flight-ticket.tsx:108 | each character is the upper-cased character at the same place in the id's tail |
| FlightTicket.BookingReferenceOfUpperId | src/app/components/flight-ticket.tsx:108 | an id without lower-case letters shows its tail verbatim |
| FlightTicket.CreatedReservationReference | src/app/components/flight-ticket.tsx:108 | a reservation created at a clock reading of at least 100000 shows the last six digits of that reading |
| FlightTicket.SeatClassColor | src/app/components/flight-ticket.tsx:45-55 | purple iff first, amber iff business, emerald iff anything else or absent |
| FlightTicket.Amenities | src/app/components/flight-ticket.tsx:57-79 | always three entries, ordered WiFi, meal, drinks; the first list iff first, the business list iff business, the economy list iff anything else |
| FlightTicket.AmenitiesDistinguishClasses | src/app/components/flight-ticket.tsx:57-79 | the three classes have three different lists |
| FlightTicket.ClassBadge | src/app/components/flight-ticket.tsx:252-254 | `Economy` for an absent or empty class; otherwise the class with its first character upper-cased |
| FlightTicket.ClassBadgeExamples | src/app/components/flight-ticket.tsx:252-254 | the badges read `First`, `Business` and `Economy`, and an absent class reads `Economy` |
| AirplaneSelection.DegToCompass | src/app/components/airplane-selection.tsx:39-60 | always one of the 16 compass points |
| AirplaneSelection.CompassSector | src/app/components/airplane-selection.tsx:40-59 | a bearing within 11.25 degrees of point k gets point k's label |
| AirplaneSelection.CompassPeriodic | src/app/components/airplane-selection.tsx:40-59 | adding 360 degrees changes nothing |
| AirplaneSelection.CompassExamples | src/app/components/airplane-selection.tsx:39-60 | 0 and 360 give N; 90 gives E; 180 gives S; 270 gives W |
| AirplaneSelection.WeatherCodeToText | src/app/components/airplane-selection.tsx:62-69 | each label is given for exactly its band of codes, with 0 and 70 or more both Clear |
| AirplaneSelection.AircraftPosition | src/app/components/airplane-selection.tsx:99-103 | every aircraft sits on the x axis |
| AirplaneSelection.AircraftRow | src/app/components/airplane-selection.tsx:99-103 | neighbours are 16 apart, the row is symmetric about 0, and it runs from -(n - 1) * 8 to (n - 1) * 8 |
| AirplaneSelection.AircraftScale | src/app/components/airplane-selection.tsx:105-118 | the scale lies in (0, 1]; it is 1 iff `boeing-737`; `boeing-787` 0.4, `airbus-a380` 0.75, `airbus-a320` 0.6; an unknown id gets 0.8 |
| AirplaneSelection.Picker.constructor | src/app/components/airplane-selection.tsx:27-29 | nothing is selected at first |
| AirplaneSelection.Picker.Click | src/app/components/airplane-selection.tsx:88-90 | a click selects that aircraft, replacing any earlier choice |
| AirplaneSelection.Picker.Confirm | src/app/components/airplane-selection.tsx:92-97 | with nothing selected nothing happens; otherwise `onSelect` gets the id and the route is `/flight/{id}` |
| AirplaneSelection.ClickThenConfirm | src/app/components/airplane-selection.tsx:88-97 | clicking an aircraft and then confirming hands its id to `onSelect` |
| SeatModel.ClassColor | src/components/models/seat-model.tsx:27-37 | purple iff first, amber iff business, emerald iff anything else |
| SeatModel.SeatColor | src/components/models/seat-model.tsx:39-40 | blue when hovered; otherwise the class colour if available, red if taken |
| SeatModel.SeatColorTellsState | src/components/models/seat-model.tsx:39-40 | red exactly for a taken seat not hovered; blue exactly for a hovered seat |
| SeatModel.SeatBaseSize | src/components/models/seat-model.tsx:82-92 | a 0.05-high square box: 0.5 for first, 0.45 for business, 0.4 otherwise |
| SeatModel.BaseSizeOrder | src/components/models/seat-model.tsx:82-92 | first is wider than business, which is wider than any other class |
| SeatModel.ShowsRing | src/components/models/seat-model.tsx:135 | the ring shows iff the seat is available and hovered, and then the seat is blue |
| SeatModel.UserDataOf | src/components/models/seat-model.tsx:98 | id, availability, price and class are copied verbatim from the seat |
| SeatModel.SeatView.constructor | src/components/models/seat-model.tsx:21 | a seat view starts not hovered |
| SeatModel.SeatView.PointerOver | src/components/models/seat-model.tsx:100-105 | hovered, with a `pointer` cursor over an available seat and `not-allowed` over a taken one |
| SeatModel.SeatView.PointerOut | src/components/models/seat-model.tsx:106-111 | not hovered, with the cursor back to `auto` |
| SeatModel.SeatView.Click | src/components/models/seat-model.tsx:67-80 | `onClick` gets the seat iff it is available |
| SeatModel.SeatView.Appearance | src/components/models/seat-model.tsx:39-40 | the colour drawn and the ring are those of the current hover state |
| SeatModel.ClickedLayoutSeat | src/components/models/seat-model.tsx:98 | a ray hitting a layout seat's mesh selects that seat iff no reservation holds it, and parses back to its own row and column |

## Left out

- Database access: every Prisma lookup, and `prisma.reservation.create` itself. Aircraft, seat classes and reservations are parameters. Whether the store accepts a write is the boolean `accepted`, which stands for the `try`/`catch`. The other getters of `DataService` are pure I/O.
- Concurrency: simultaneous bookings and any double-booking rule. The source has neither, so there is nothing to model.
- Clocks: `Date.now()` and `new Date()` are natural-number and integer parameters. Parsing the flight's date strings into milliseconds happens before `FlightDuration`.
- Rendering: three.js and React, including the seat's floating animation, the material traversal, text labels, the aircraft labels raised by 3, passenger rotation and the aircraft rotations (multiples of pi).
- Raycasting: the hits arrive as an ordered sequence of `userData` chains. Camera rotation by mouse, the pitch clamp, and pointer-lock bookkeeping are not modelled.
- Vector normalisation: it needs square roots. The frame receives the flattened, normalised vectors and the factor `speed / |direction|` as parameters. The source's "length > 0" test is modelled as "direction is not the zero vector", which is the same condition over exact reals.
- Orbit-target `lerp` in the hybrid controller: floating-point camera behaviour with no effect on the modelled state.
- IEEE doubles: positions and clamps use exact reals. Nothing is claimed about bit-exact agreement.
- The weather `fetch` and `setWeather`: network I/O. Only the two labelling functions are modelled.
- The `hoveredAirplane` state of the aircraft picker: it is never set.
- The parent callbacks `onPointerOver(seat)` and `onPointerOut()` of a seat, and `stopPropagation`/`preventDefault`: they belong to the caller and the browser.
- Number formats:
  - `rows` and `seatsPerRow` are natural numbers. A negative count would make the source's loops empty.
  - `charCodeAt` is modelled as the character's code, which matches UTF-16 only for characters of the Basic Multilingual Plane.
  - `parseInt` of a long digit run is exact here, while JavaScript loses precision above 2^53.
- Case conversion covers ASCII letters only.
- A key event's `key` is always a string; the first-person controller's `e.key?` guard against a missing key is not modelled.
- DataService.GetSeats: requires `seatsPerRow <= 10`. Past ten columns the source reads `seatLetters[10]` as `undefined` and builds ids such as `1undefined`, a configuration it does not support.
- DataService.GetPassengers: requires `seatsPerRow <= 10` for the same reason. Its class-name requirement always holds for layout seats (`DataService.LayoutClassesKnown`).
- DataService.SynthesizePassenger: requires one of the three known class names. For any other name the source's clothing lookup fails at run time.
- AirplaneSelection.DegToCompass: requires a non-negative bearing. For a negative one the source indexes the table at a negative position and returns `undefined`.
