/** The seat-inventory engine of src/lib/data/data-service.ts: the seat
    layout of an aircraft with class bands, prices, positions and
    availability (`getSeats`), the 32-bit string hash (`hashCode`) and the
    deterministic passenger records of the occupied seats (`getPassengers`).
    The database lookups are replaced by values the caller supplies. */
module DataService {
  import opened Options
  import opened Text
  import opened Types

  /** Column letters by index within a row; there is no `I`. */
  const SeatLetters: string := "ABCDEFGHJK"
  const AisleWidth: real := 0.5

  const First: string := "first"
  const Business: string := "business"
  const Economy: string := "economy"

  lemma SeatLettersFacts()
    ensures |SeatLetters| == 10 && NoDigits(SeatLetters)
    ensures forall i, j :: 0 <= i < j < 10 ==> SeatLetters[i] != SeatLetters[j]
    ensures forall i :: 0 <= i < 10 ==> SeatLetters[i] != 'I'
  {
  }

  function MaxNat(a: nat, b: nat): nat {
    if a >= b then a else b
  }

  // ---------------------------------------------------------------------
  // Class bands

  /** `Math.max(1, Math.floor(rows * 0.1))` */
  function FirstClassRows(rows: nat): nat {
    MaxNat(1, rows / 10)
  }

  /** `Math.max(2, Math.floor(rows * 0.2))` */
  function BusinessClassRows(rows: nat): nat {
    MaxNat(2, rows / 5)
  }

  /** The band a row belongs to: first rows, then business rows, then economy. */
  function BandName(rows: nat, row: int): string {
    if row <= FirstClassRows(rows) then First
    else if row <= FirstClassRows(rows) + BusinessClassRows(rows) then Business
    else Economy
  }

  function BandRank(name: string): nat {
    if name == First then 0 else if name == Business then 1 else 2
  }

  /** Bands are contiguous and always in the order first, business, economy. */
  lemma BandsInRowOrder(rows: nat, r1: int, r2: int)
    requires r1 <= r2
    ensures BandRank(BandName(rows, r1)) <= BandRank(BandName(rows, r2))
  {
  }

  /** 30 rows give 3 first, 6 business and 21 economy rows; 10 rows give 1, 2 and 7;
      a 2-row aircraft has no economy row at all. */
  lemma BandExamples()
    ensures FirstClassRows(30) == 3 && BusinessClassRows(30) == 6
    ensures forall row :: 1 <= row <= 30 ==>
      (BandName(30, row) == First <==> row <= 3) &&
      (BandName(30, row) == Business <==> 4 <= row <= 9) &&
      (BandName(30, row) == Economy <==> 10 <= row)
    ensures forall row :: 1 <= row <= 10 ==>
      (BandName(10, row) == First <==> row == 1) &&
      (BandName(10, row) == Business <==> 2 <= row <= 3) &&
      (BandName(10, row) == Economy <==> 4 <= row)
    ensures forall row :: 1 <= row <= 2 ==> BandName(2, row) != Economy
  {
  }

  /** `seatClasses.find((c) => c.name === name)`. */
  function FindClass(classes: seq<SeatClass>, name: string): (r: Option<SeatClass>)
    ensures r.Some? ==> r.value.name == name
  {
    if classes == [] then None
    else if classes[0].name == name then Some(classes[0])
    else FindClass(classes[1..], name)
  }

  /** The lookup finds nothing iff no class has the name, and otherwise the
      first class in the list that has it. */
  lemma {:induction false} FindClassFirstMatch(classes: seq<SeatClass>, name: string)
    ensures FindClass(classes, name).None? <==> forall i :: 0 <= i < |classes| ==> classes[i].name != name
    ensures FindClass(classes, name).Some? ==>
      exists i :: (0 <= i < |classes| && classes[i] == FindClass(classes, name).value &&
        forall j :: 0 <= j < i ==> classes[j].name != name)
  {
    if classes != [] && classes[0].name != name {
      var rest := classes[1..];
      FindClassFirstMatch(rest, name);
      assert forall i :: 1 <= i < |classes| ==> classes[i] == rest[i - 1];
      if FindClass(rest, name).Some? {
        var i :| 0 <= i < |rest| && rest[i] == FindClass(rest, name).value &&
          forall j :: 0 <= j < i ==> rest[j].name != name;
        assert classes[i + 1] == FindClass(classes, name).value;
        assert forall j :: 0 <= j < i + 1 ==> classes[j].name != name;
      }
    }
  }

  /** The seat class a row resolves to, if the aircraft has one for its band. */
  function RowClass(ac: Aircraft, classes: seq<SeatClass>, row: int): Option<SeatClass> {
    FindClass(classes, BandName(ac.rows, row))
  }

  predicate AllBandsPresent(classes: seq<SeatClass>) {
    FindClass(classes, First).Some? && FindClass(classes, Business).Some? &&
    FindClass(classes, Economy).Some?
  }

  // ---------------------------------------------------------------------
  // Availability

  /** `new Set(reservations.map((r) => r.seatId))` over the reservations of
      one flight, whatever their status. */
  function ReservedSeatIds(reservations: seq<Reservation>, flightId: string): (ids: set<string>)
    ensures forall id :: id in ids <==>
      exists k :: 0 <= k < |reservations| && reservations[k].flightId == flightId &&
        reservations[k].seatId == id
  {
    if reservations == [] then {}
    else
      var n := |reservations| - 1;
      var earlier := ReservedSeatIds(reservations[..n], flightId);
      assert forall k :: 0 <= k < n ==> reservations[..n][k] == reservations[k];
      earlier + (if reservations[n].flightId == flightId then {reservations[n].seatId} else {})
  }

  // ---------------------------------------------------------------------
  // Geometry

  function SeatWidth(ac: Aircraft): real {
    ac.cabinWidth / (ac.seatsPerRow + 1) as real
  }

  /** `cabinLength / rows`; with no rows it is never used. */
  function RowSpacing(ac: Aircraft): real {
    if ac.rows == 0 then 0.0 else ac.cabinLength / ac.rows as real
  }

  function StartX(ac: Aircraft): real {
    var totalWidth := ac.seatsPerRow as real * SeatWidth(ac) + AisleWidth;
    -totalWidth / 2.0 + SeatWidth(ac) / 2.0
  }

  function SeatX(ac: Aircraft, i: nat): real {
    StartX(ac) + i as real * SeatWidth(ac) + (if i >= ac.aisleAfter then AisleWidth else 0.0)
  }

  function SeatZ(ac: Aircraft, row: nat): real {
    -((row - 1) as real) * RowSpacing(ac)
  }

  /** Going right from seat `i` to seat `j` advances by one seat width per
      seat, plus the aisle width exactly when the aisle lies between them. */
  lemma SeatXGap(ac: Aircraft, i: nat, j: nat)
    requires i <= j
    ensures SeatX(ac, j) - SeatX(ac, i) ==
      (j - i) as real * SeatWidth(ac) + (if i < ac.aisleAfter <= j then AisleWidth else 0.0)
  {
  }

  /** With a positive cabin width, x strictly increases along a row. */
  lemma SeatXIncreasing(ac: Aircraft, i: nat, j: nat)
    requires ac.cabinWidth > 0.0 && i < j
    ensures SeatX(ac, i) < SeatX(ac, j)
  {
    SeatXGap(ac, i, j);
    assert SeatWidth(ac) > 0.0;
    assert (j - i) as real * SeatWidth(ac) >= SeatWidth(ac);
  }

  /** With the aisle strictly inside the row, the row is centred on x = 0. */
  lemma RowCentred(ac: Aircraft)
    requires 1 <= ac.aisleAfter < ac.seatsPerRow
    ensures SeatX(ac, 0) == -SeatX(ac, ac.seatsPerRow - 1)
  {
  }

  /** Row 1 is at z = 0 and each further row is one row spacing further back. */
  lemma SeatZSteps(ac: Aircraft, row: nat)
    requires row >= 1
    ensures SeatZ(ac, 1) == 0.0
    ensures SeatZ(ac, row + 1) == SeatZ(ac, row) - RowSpacing(ac)
  {
  }

  // ---------------------------------------------------------------------
  // Layout

  function SeatId(row: nat, column: char): string {
    NatToString(row) + [column]
  }

  /** Seat ids name their row and column: `{row}{column}` is injective. */
  lemma SeatIdInjective(r1: nat, c1: char, r2: nat, c2: char)
    ensures SeatId(r1, c1) == SeatId(r2, c2) ==> r1 == r2 && c1 == c2
  {
    if SeatId(r1, c1) == SeatId(r2, c2) {
      var s := SeatId(r1, c1);
      assert s[..|s| - 1] == NatToString(r1);
      assert SeatId(r2, c2)[..|s| - 1] == NatToString(r2);
      NatToStringInjective(r1, r2);
    }
  }

  function MakeSeat(ac: Aircraft, cls: SeatClass, reserved: set<string>, row: nat, i: nat): Seat
    requires i < 10
  {
    var id := SeatId(row, SeatLetters[i]);
    Seat(id, ac.id, cls.id, row, SeatLetters[i], Vec3(SeatX(ac, i), 0.0, SeatZ(ac, row)),
         id !in reserved, cls.basePrice, cls.name)
  }

  /** The first `n` seats of a row of class `cls`, by column index. */
  function RowSeats(ac: Aircraft, cls: SeatClass, reserved: set<string>, row: nat, n: nat): (r: seq<Seat>)
    requires n <= 10
    ensures |r| == n
  {
    if n == 0 then [] else RowSeats(ac, cls, reserved, row, n - 1) + [MakeSeat(ac, cls, reserved, row, n - 1)]
  }

  /** Seat `i` of a row is the seat built for column index `i`. */
  lemma {:induction false} RowSeatsAt(ac: Aircraft, cls: SeatClass, reserved: set<string>, row: nat, n: nat)
    requires n <= 10
    ensures forall i :: 0 <= i < n ==> RowSeats(ac, cls, reserved, row, n)[i] == MakeSeat(ac, cls, reserved, row, i)
  {
    if n > 0 {
      RowSeatsAt(ac, cls, reserved, row, n - 1);
      var prefix := RowSeats(ac, cls, reserved, row, n - 1);
      forall i | 0 <= i < n - 1
        ensures RowSeats(ac, cls, reserved, row, n)[i] == MakeSeat(ac, cls, reserved, row, i)
      {
        assert RowSeats(ac, cls, reserved, row, n)[i] == prefix[i];
      }
    }
  }

  /** The seats of one row: a full row of its band's class, or none when the
      aircraft has no class of that name. */
  function RowLayout(ac: Aircraft, classes: seq<SeatClass>, reserved: set<string>, row: nat): seq<Seat>
    requires ac.seatsPerRow <= 10
  {
    match RowClass(ac, classes, row)
    case None => []
    case Some(cls) => RowSeats(ac, cls, reserved, row, ac.seatsPerRow)
  }

  /** The seats of rows 1..r, in row-major order. */
  function LayoutUpTo(ac: Aircraft, classes: seq<SeatClass>, reserved: set<string>, r: nat): seq<Seat>
    requires ac.seatsPerRow <= 10
  {
    if r == 0 then [] else LayoutUpTo(ac, classes, reserved, r - 1) + RowLayout(ac, classes, reserved, r)
  }

  function Layout(ac: Aircraft, classes: seq<SeatClass>, reserved: set<string>): seq<Seat>
    requires ac.seatsPerRow <= 10
  {
    LayoutUpTo(ac, classes, reserved, ac.rows)
  }

  /** `getSeats`: the layout of the aircraft (none if there is no aircraft),
      each seat marked unavailable iff some reservation of the flight names it. */
  method GetSeats(aircraft: Option<Aircraft>, classes: seq<SeatClass>,
                  reservations: seq<Reservation>, flightId: string) returns (seats: seq<Seat>)
    requires aircraft.Some? ==> aircraft.value.seatsPerRow <= 10
    ensures aircraft.None? ==> seats == []
    ensures aircraft.Some? ==>
      seats == Layout(aircraft.value, classes, ReservedSeatIds(reservations, flightId))
  {
    if aircraft.None? {
      return [];
    }
    var ac := aircraft.value;
    var reserved := ReservedSeatIds(reservations, flightId);

    var firstClassRows := MaxNat(1, ac.rows / 10);
    var businessClassRows := MaxNat(2, ac.rows / 5);

    var rowSpacing, seatWidth, startX := Geometry(ac);

    seats := [];
    for row := 1 to ac.rows + 1
      invariant seats == LayoutUpTo(ac, classes, reserved, row - 1)
    {
      seats := AppendRowOfBand(seats, ac, classes, reserved, row, firstClassRows, businessClassRows,
                               startX, seatWidth, rowSpacing);
    }
  }

  /** The body of the row loop of `getSeats`: find the band's class and push
      the row's seats, or skip the row when no class has the band's name. */
  method AppendRowOfBand(seats: seq<Seat>, ac: Aircraft, classes: seq<SeatClass>, reserved: set<string>,
                         row: nat, firstClassRows: nat, businessClassRows: nat,
                         startX: real, seatWidth: real, rowSpacing: real) returns (out: seq<Seat>)
    requires ac.seatsPerRow <= 10
    requires firstClassRows == FirstClassRows(ac.rows) && businessClassRows == BusinessClassRows(ac.rows)
    requires startX == StartX(ac) && seatWidth == SeatWidth(ac) && rowSpacing == RowSpacing(ac)
    ensures out == seats + RowLayout(ac, classes, reserved, row)
  {
    var seatClass := BandClass(ac, classes, row, firstClassRows, businessClassRows);
    if seatClass.None? {
      return seats;
    }
    out := AppendRow(seats, ac, seatClass.value, reserved, row, startX, seatWidth, rowSpacing);
  }

  /** The row spacing, seat width and first seat's x that `getSeats`
      computes before its loops. */
  method Geometry(ac: Aircraft) returns (rowSpacing: real, seatWidth: real, startX: real)
    ensures rowSpacing == RowSpacing(ac) && seatWidth == SeatWidth(ac) && startX == StartX(ac)
  {
    rowSpacing := if ac.rows == 0 then 0.0 else ac.cabinLength / ac.rows as real;
    seatWidth := ac.cabinWidth / (ac.seatsPerRow + 1) as real;
    var totalWidth := ac.seatsPerRow as real * seatWidth + AisleWidth;
    startX := -totalWidth / 2.0 + seatWidth / 2.0;
  }

  /** The band test at the top of the row loop of `getSeats`. */
  method BandClass(ac: Aircraft, classes: seq<SeatClass>, row: nat, firstClassRows: nat, businessClassRows: nat)
    returns (seatClass: Option<SeatClass>)
    requires firstClassRows == FirstClassRows(ac.rows) && businessClassRows == BusinessClassRows(ac.rows)
    ensures seatClass == RowClass(ac, classes, row)
  {
    if row <= firstClassRows {
      seatClass := FindClass(classes, First);
    } else if row <= firstClassRows + businessClassRows {
      seatClass := FindClass(classes, Business);
    } else {
      seatClass := FindClass(classes, Economy);
    }
  }

  /** The inner loop of `getSeats`: one seat pushed per column index. */
  method AppendRow(seats: seq<Seat>, ac: Aircraft, cls: SeatClass, reserved: set<string>, row: nat,
                   startX: real, seatWidth: real, rowSpacing: real) returns (out: seq<Seat>)
    requires ac.seatsPerRow <= 10
    requires startX == StartX(ac) && seatWidth == SeatWidth(ac) && rowSpacing == RowSpacing(ac)
    ensures out == seats + RowSeats(ac, cls, reserved, row, ac.seatsPerRow)
  {
    out := seats;
    for seatIndex := 0 to ac.seatsPerRow
      invariant out == seats + RowSeats(ac, cls, reserved, row, seatIndex)
    {
      var seat := PlaceSeat(ac, cls, reserved, row, seatIndex, startX, seatWidth, rowSpacing);
      out := out + [seat];
    }
  }

  /** The body of the inner loop of `getSeats`: column letter, x with the
      aisle offset, z, id and availability of seat `seatIndex` of `row`. */
  method PlaceSeat(ac: Aircraft, cls: SeatClass, reserved: set<string>, row: nat, seatIndex: nat,
                   startX: real, seatWidth: real, rowSpacing: real) returns (seat: Seat)
    requires seatIndex < 10
    requires startX == StartX(ac) && seatWidth == SeatWidth(ac) && rowSpacing == RowSpacing(ac)
    ensures seat == MakeSeat(ac, cls, reserved, row, seatIndex)
  {
    var column := SeatLetters[seatIndex];
    var x := startX + seatIndex as real * seatWidth;
    if seatIndex >= ac.aisleAfter {
      x := x + AisleWidth;
    }
    var z := -((row - 1) as real) * rowSpacing;
    var seatId := NatToString(row) + [column];
    var isAvailable := seatId !in reserved;
    seat := Seat(seatId, ac.id, cls.id, row, column, Vec3(x, 0.0, z), isAvailable, cls.basePrice, cls.name);
  }

  // ---------------------------------------------------------------------
  // Properties of the layout

  /** A seat as the layout builds it: its id is `{row}{column}` and it is
      available iff its id is not reserved. */
  predicate SeatWellFormed(s: Seat, reserved: set<string>) {
    s.id == SeatId(s.row, s.column) && s.isAvailable == (s.id !in reserved)
  }

  /** `s` is seat `i` of row `row`, for some column index `i`, and that
      row's band has a seat class. */
  predicate InRow(ac: Aircraft, classes: seq<SeatClass>, reserved: set<string>, s: Seat, row: nat) {
    RowClass(ac, classes, row).Some? &&
    exists i: nat :: i < ac.seatsPerRow && i < 10 && s == MakeSeat(ac, RowClass(ac, classes, row).value, reserved, row, i)
  }

  lemma RowLayoutMembership(ac: Aircraft, classes: seq<SeatClass>, reserved: set<string>, row: nat)
    requires ac.seatsPerRow <= 10
    ensures forall s :: s in RowLayout(ac, classes, reserved, row) <==> InRow(ac, classes, reserved, s, row)
  {
    var rowSeats := RowLayout(ac, classes, reserved, row);
    if RowClass(ac, classes, row).Some? {
      RowSeatsAt(ac, RowClass(ac, classes, row).value, reserved, row, ac.seatsPerRow);
    }
    forall s | s in rowSeats ensures InRow(ac, classes, reserved, s, row) {
      var i :| 0 <= i < |rowSeats| && rowSeats[i] == s;
    }
    forall s | InRow(ac, classes, reserved, s, row) ensures s in rowSeats {
      var i: nat :| i < ac.seatsPerRow && i < 10 && s == MakeSeat(ac, RowClass(ac, classes, row).value, reserved, row, i);
      assert rowSeats[i] == s;
    }
  }

  /** A seat is in the layout iff it is seat `i` of some row 1..r whose band
      has a seat class; rows without one contribute nothing. */
  lemma {:induction false} LayoutMembership(ac: Aircraft, classes: seq<SeatClass>, reserved: set<string>, r: nat)
    requires ac.seatsPerRow <= 10
    ensures forall s :: s in LayoutUpTo(ac, classes, reserved, r) <==>
      exists row: nat :: 1 <= row <= r && InRow(ac, classes, reserved, s, row)
  {
    if r > 0 {
      LayoutMembership(ac, classes, reserved, r - 1);
      RowLayoutMembership(ac, classes, reserved, r);
      var prefix := LayoutUpTo(ac, classes, reserved, r - 1);
      var rowSeats := RowLayout(ac, classes, reserved, r);
      assert LayoutUpTo(ac, classes, reserved, r) == prefix + rowSeats;
      forall s ensures s in prefix + rowSeats <==>
        exists row: nat :: 1 <= row <= r && InRow(ac, classes, reserved, s, row)
      {
        if s in rowSeats {
          assert InRow(ac, classes, reserved, s, r);
        }
        if row: nat :| 1 <= row <= r && InRow(ac, classes, reserved, s, row) {
          if row < r {
            assert s in prefix;
          } else {
            assert s in rowSeats;
          }
        }
      }
    }
  }

  /** Every seat of rows 1..r lies in one of those rows and is well formed. */
  lemma {:induction false} LayoutUpToSeats(ac: Aircraft, classes: seq<SeatClass>, reserved: set<string>, r: nat)
    requires ac.seatsPerRow <= 10
    ensures forall s :: s in LayoutUpTo(ac, classes, reserved, r) ==>
      1 <= s.row <= r && SeatWellFormed(s, reserved) &&
      exists i :: 0 <= i < ac.seatsPerRow && s.column == SeatLetters[i]
  {
    LayoutMembership(ac, classes, reserved, r);
  }

  predicate IdsDistinct(l: seq<Seat>) {
    forall a, b :: 0 <= a < b < |l| ==> l[a].id != l[b].id
  }

  lemma DistinctConcat(p: seq<Seat>, q: seq<Seat>)
    requires IdsDistinct(p) && IdsDistinct(q)
    requires forall s, t :: s in p && t in q ==> s.id != t.id
    ensures IdsDistinct(p + q)
  {
    var l := p + q;
    forall a, b | 0 <= a < b < |l| ensures l[a].id != l[b].id {
      if b < |p| {
        assert l[a] == p[a] && l[b] == p[b];
      } else if a >= |p| {
        assert l[a] == q[a - |p|] && l[b] == q[b - |p|];
      } else {
        assert l[a] == p[a] && l[b] == q[b - |p|];
        assert p[a] in p && q[b - |p|] in q;
      }
    }
  }

  /** The seats of one row have distinct ids. */
  lemma RowSeatsDistinct(ac: Aircraft, cls: SeatClass, reserved: set<string>, row: nat, n: nat)
    requires n <= 10
    ensures IdsDistinct(RowSeats(ac, cls, reserved, row, n))
  {
    var l := RowSeats(ac, cls, reserved, row, n);
    RowSeatsAt(ac, cls, reserved, row, n);
    SeatLettersFacts();
    forall a, b | 0 <= a < b < |l| ensures l[a].id != l[b].id {
      SeatIdInjective(row, SeatLetters[a], row, SeatLetters[b]);
    }
  }

  /** Every seat of a row carries that row and the id `{row}{column}`. */
  lemma RowSeatIds(ac: Aircraft, cls: SeatClass, reserved: set<string>, row: nat, n: nat)
    requires n <= 10
    ensures forall t :: t in RowSeats(ac, cls, reserved, row, n) ==> t.row == row && t.id == SeatId(row, t.column)
  {
    var l := RowSeats(ac, cls, reserved, row, n);
    RowSeatsAt(ac, cls, reserved, row, n);
    forall t | t in l ensures t.row == row && t.id == SeatId(row, t.column) {
      var j :| 0 <= j < |l| && l[j] == t;
    }
  }

  /** All seat ids of a layout are distinct. */
  lemma {:induction false} LayoutIdsDistinct(ac: Aircraft, classes: seq<SeatClass>, reserved: set<string>, r: nat)
    requires ac.seatsPerRow <= 10
    ensures IdsDistinct(LayoutUpTo(ac, classes, reserved, r))
  {
    if r > 0 {
      var prefix := LayoutUpTo(ac, classes, reserved, r - 1);
      var rowSeats := RowLayout(ac, classes, reserved, r);
      LayoutIdsDistinct(ac, classes, reserved, r - 1);
      if RowClass(ac, classes, r).Some? {
        var cls := RowClass(ac, classes, r).value;
        RowSeatsDistinct(ac, cls, reserved, r, ac.seatsPerRow);
        LayoutUpToSeats(ac, classes, reserved, r - 1);
        RowSeatIds(ac, cls, reserved, r, ac.seatsPerRow);
        forall s, t | s in prefix && t in rowSeats ensures s.id != t.id {
          SeatIdInjective(s.row, s.column, r, t.column);
        }
        DistinctConcat(prefix, rowSeats);
      } else {
        assert prefix + rowSeats == prefix;
      }
    }
  }

  predicate CopiedFrom(s: Seat, cls: SeatClass) {
    s.className == cls.name && s.classId == cls.id && s.price == cls.basePrice
  }

  /** Every seat lies in its aircraft's rows, belongs to its row's band, and
      takes its class name, class id and price from the first seat class of
      that band's name; so no seat lies in a row whose band has no class. */
  lemma LayoutBands(ac: Aircraft, classes: seq<SeatClass>, reserved: set<string>)
    requires ac.seatsPerRow <= 10
    ensures forall s :: s in Layout(ac, classes, reserved) ==>
      1 <= s.row <= ac.rows && s.className == BandName(ac.rows, s.row) &&
      RowClass(ac, classes, s.row).Some? && CopiedFrom(s, RowClass(ac, classes, s.row).value)
  {
    LayoutMembership(ac, classes, reserved, ac.rows);
  }

  /** `k * n`, built by repeated addition so that the layout proofs stay
      linear. */
  function RowOffset(k: nat, n: nat): nat {
    if k == 0 then 0 else RowOffset(k - 1, n) + n
  }

  lemma {:induction false} RowOffsetIsProduct(k: nat, n: nat)
    ensures RowOffset(k, n) == k * n
  {
    if k > 0 {
      RowOffsetIsProduct(k - 1, n);
      assert (k - 1) * n + n == k * n;
    }
  }

  /** With a class for every band, rows 1..r hold `r * seatsPerRow` seats. */
  lemma LayoutSize(ac: Aircraft, classes: seq<SeatClass>, reserved: set<string>, r: nat)
    requires ac.seatsPerRow <= 10 && AllBandsPresent(classes)
    ensures |LayoutUpTo(ac, classes, reserved, r)| == r * ac.seatsPerRow
  {
    LayoutRowOffsetSize(ac, classes, reserved, r);
    RowOffsetIsProduct(r, ac.seatsPerRow);
  }

  /** `LayoutSize` with the product written as a `RowOffset`. */
  lemma {:induction false} LayoutRowOffsetSize(ac: Aircraft, classes: seq<SeatClass>, reserved: set<string>, r: nat)
    requires ac.seatsPerRow <= 10 && AllBandsPresent(classes)
    ensures |LayoutUpTo(ac, classes, reserved, r)| == RowOffset(r, ac.seatsPerRow)
  {
    if r > 0 {
      LayoutRowOffsetSize(ac, classes, reserved, r - 1);
      assert RowClass(ac, classes, r).Some?;
    }
  }

  /** With a class for every band, seat i of row `row` sits at index
      (row - 1) * seatsPerRow + i: the layout is in row-major order. */
  lemma LayoutAt(ac: Aircraft, classes: seq<SeatClass>, reserved: set<string>,
                 r: nat, row: nat, i: nat)
    requires ac.seatsPerRow <= 10 && AllBandsPresent(classes)
    requires 1 <= row <= r && i < ac.seatsPerRow
    ensures (row - 1) * ac.seatsPerRow + i < |LayoutUpTo(ac, classes, reserved, r)|
    ensures LayoutUpTo(ac, classes, reserved, r)[(row - 1) * ac.seatsPerRow + i] ==
      MakeSeat(ac, RowClass(ac, classes, row).value, reserved, row, i)
  {
    LayoutAtOffset(ac, classes, reserved, r, row, i);
    RowOffsetIsProduct(row - 1, ac.seatsPerRow);
    var cls := RowClass(ac, classes, row).value;
    assert RowLayout(ac, classes, reserved, row) == RowSeats(ac, cls, reserved, row, ac.seatsPerRow);
    RowSeatsAt(ac, cls, reserved, row, ac.seatsPerRow);
  }

  /** With a class for every band, every row holds `seatsPerRow` seats. */
  lemma RowLayoutFull(ac: Aircraft, classes: seq<SeatClass>, reserved: set<string>, row: nat)
    requires ac.seatsPerRow <= 10 && AllBandsPresent(classes)
    ensures |RowLayout(ac, classes, reserved, row)| == ac.seatsPerRow
  {
    assert RowClass(ac, classes, row).Some?;
  }

  /** Rows 1..r are rows 1..r-1 followed by row r, of known lengths. */
  lemma LayoutUpToSplit(ac: Aircraft, classes: seq<SeatClass>, reserved: set<string>, r: nat)
    requires ac.seatsPerRow <= 10 && AllBandsPresent(classes) && r >= 1
    ensures LayoutUpTo(ac, classes, reserved, r) ==
      LayoutUpTo(ac, classes, reserved, r - 1) + RowLayout(ac, classes, reserved, r)
    ensures |LayoutUpTo(ac, classes, reserved, r - 1)| == RowOffset(r - 1, ac.seatsPerRow)
    ensures |RowLayout(ac, classes, reserved, r)| == ac.seatsPerRow
  {
    LayoutRowOffsetSize(ac, classes, reserved, r - 1);
    RowLayoutFull(ac, classes, reserved, r);
  }

  /** Rows 1..r, indexed from the start of row `row`, show that row. */
  lemma {:induction false} LayoutAtOffset(ac: Aircraft, classes: seq<SeatClass>, reserved: set<string>,
                                          r: nat, row: nat, i: nat)
    requires ac.seatsPerRow <= 10 && AllBandsPresent(classes)
    requires 1 <= row <= r && i < ac.seatsPerRow
    ensures RowOffset(row - 1, ac.seatsPerRow) + i < |LayoutUpTo(ac, classes, reserved, r)|
    ensures |RowLayout(ac, classes, reserved, row)| == ac.seatsPerRow
    ensures LayoutUpTo(ac, classes, reserved, r)[RowOffset(row - 1, ac.seatsPerRow) + i] ==
      RowLayout(ac, classes, reserved, row)[i]
  {
    LayoutUpToSplit(ac, classes, reserved, r);
    RowLayoutFull(ac, classes, reserved, row);
    if row < r {
      LayoutAtOffset(ac, classes, reserved, r - 1, row, i);
    }
  }

  /** A seat is unavailable iff some reservation of the flight has its id,
      whatever that reservation's status. */
  lemma LayoutAvailability(ac: Aircraft, classes: seq<SeatClass>, reservations: seq<Reservation>, flightId: string)
    requires ac.seatsPerRow <= 10
    ensures forall s :: s in Layout(ac, classes, ReservedSeatIds(reservations, flightId)) ==>
      (!s.isAvailable <==> exists k :: (0 <= k < |reservations| &&
         reservations[k].flightId == flightId && reservations[k].seatId == s.id))
  {
    LayoutUpToSeats(ac, classes, ReservedSeatIds(reservations, flightId), ac.rows);
  }

  /** A cancelled reservation still blocks its seat. */
  lemma CancelledReservationBlocks(ac: Aircraft, classes: seq<SeatClass>, reservations: seq<Reservation>,
                                   flightId: string, k: nat)
    requires ac.seatsPerRow <= 10
    requires k < |reservations| && reservations[k].flightId == flightId
    requires reservations[k].status == "cancelled"
    ensures forall s :: (s in Layout(ac, classes, ReservedSeatIds(reservations, flightId)) &&
      s.id == reservations[k].seatId) ==> !s.isAvailable
  {
    LayoutAvailability(ac, classes, reservations, flightId);
  }

  /** Ten rows of six with every band present: seat 1A is first class and seat
      10F economy, with seat width cabinWidth / 7. */
  lemma TenRowExample(ac: Aircraft, classes: seq<SeatClass>, reserved: set<string>)
    requires ac.rows == 10 && ac.seatsPerRow == 6 && ac.aisleAfter == 3
    requires AllBandsPresent(classes)
    ensures var l := Layout(ac, classes, reserved);
      |l| == 60 && l[0].id == "1A" && l[0].className == First &&
      l[59].id == "10F" && l[59].className == Economy
    ensures SeatWidth(ac) == ac.cabinWidth / 7.0
  {
    LayoutSize(ac, classes, reserved, 10);
    LayoutAt(ac, classes, reserved, 10, 1, 0);
    LayoutAt(ac, classes, reserved, 10, 10, 5);
    assert NatToString(10) == "10";
  }

  // ---------------------------------------------------------------------
  // hashCode

  const TwoTo31: int := 0x8000_0000
  const TwoTo32: int := 0x1_0000_0000

  /** JavaScript's ToInt32: the signed 32-bit integer congruent to `v`. */
  function Int32(v: int): (r: int)
    ensures -TwoTo31 <= r < TwoTo31
    ensures (v - r) % TwoTo32 == 0
  {
    (v + TwoTo31) % TwoTo32 - TwoTo31
  }

  /** The signed 32-bit representative of a residue is unique. */
  lemma Int32Unique(v: int, r: int)
    requires -TwoTo31 <= r < TwoTo31 && (v - r) % TwoTo32 == 0
    ensures Int32(v) == r
  {
    var q := (v - r) / TwoTo32;
    assert v == r + q * TwoTo32;
    var w := Int32(v);
    var q' := (v - w) / TwoTo32;
    assert v == w + q' * TwoTo32;
    assert (q - q') * TwoTo32 == w - r;
  }

  /** `(hash << 5) - hash + c` truncated to 32 bits equals
      `hash * 31 + c` truncated to 32 bits. */
  lemma ShiftStep(h: int, c: int)
    ensures Int32(Int32(h * 32) - h + c) == Int32(h * 31 + c)
  {
    var a := Int32(h * 32);
    var r := Int32(a - h + c);
    var q1 := (h * 32 - a) / TwoTo32;
    assert h * 32 - a == q1 * TwoTo32;
    var q2 := (a - h + c - r) / TwoTo32;
    assert a - h + c - r == q2 * TwoTo32;
    assert h * 31 + c - r == (q1 + q2) * TwoTo32;
    Int32Unique(h * 31 + c, r);
  }

  /** The rolling hash before the absolute value: h := int32(h * 31 + code(c)). */
  function HashFold(s: string): (h: int)
    ensures -TwoTo31 <= h < TwoTo31
  {
    if s == [] then 0 else Int32(HashFold(s[..|s| - 1]) * 31 + s[|s| - 1] as int)
  }

  /** `hashCode(s)`: the absolute value of the folded hash, in [0, 2^31]. */
  function Hash(s: string): (h: nat)
    ensures h <= TwoTo31
  {
    var f := HashFold(s);
    if f < 0 then -f else f
  }

  method HashCode(str: string) returns (hash: int)
    ensures hash == Hash(str)
    ensures 0 <= hash <= TwoTo31
  {
    hash := 0;
    for i := 0 to |str|
      invariant hash == HashFold(str[..i])
    {
      var code := str[i] as int;
      ShiftStep(hash, code);
      hash := Int32(Int32(hash * 32) - hash + code);
      assert str[..i + 1][..i] == str[..i];
    }
    assert str[..|str|] == str;
    hash := if hash < 0 then -hash else hash;
  }

  // ---------------------------------------------------------------------
  // getPassengers

  const HairColors: seq<string> := ["#241c11", "#4f3824", "#a65e2e", "#d3b17d", "#dcd0c0", "#808080"]
  const SkinTones: seq<string> := ["#ffe0bd", "#ffcd94", "#eac086", "#bf9169", "#8d5524", "#5a3a1a"]
  const Activities: seq<Activity> := [Reading, Sleeping, Standing, Sitting]

  predicate KnownClass(name: string) {
    name == Economy || name == Business || name == First
  }

  function ClothingColors(name: string): (palette: seq<string>)
    requires KnownClass(name)
    ensures |palette| == 5
  {
    if name == Economy then ["#3b82f6", "#10b981", "#f59e0b", "#6b7280", "#ec4899"]
    else if name == Business then ["#1e3a8a", "#0f766e", "#92400e", "#374151", "#831843"]
    else ["#312e81", "#064e3b", "#78350f", "#111827", "#701a75"]
  }

  function PassengerKey(seatId: string, flightId: string): string {
    seatId + "-" + flightId + "-passenger"
  }

  function PassengerId(seatId: string, flightId: string): string {
    "passenger-" + seatId + "-" + flightId
  }

  /** The passenger record of one occupied seat, drawn from the fixed
      palettes by the hash of `{seatId}-{flightId}-passenger`. */
  function SynthesizePassenger(seat: Seat, flightId: string): (p: Passenger)
    requires KnownClass(seat.className)
    ensures p.id == PassengerId(seat.id, flightId) && p.name == "Passenger " + seat.id
    ensures p.gender == Male <==> Hash(PassengerKey(seat.id, flightId)) % 2 == 0
    ensures p.appearance.hairColor in HairColors && p.appearance.skinTone in SkinTones
    ensures p.appearance.clothingColor in ClothingColors(seat.className)
    ensures var h := Hash(PassengerKey(seat.id, flightId));
      p.appearance.hairColor == HairColors[h % 6] && p.appearance.skinTone == SkinTones[(h * 3) % 6] &&
      p.appearance.clothingColor == ClothingColors(seat.className)[(h * 7) % 5] &&
      p.activity == Activities[(h * 11) % 4]
  {
    var hash := Hash(PassengerKey(seat.id, flightId));
    var gender := if hash % 2 == 0 then Male else Female;
    var hairColor := HairColors[hash % |HairColors|];
    var skinTone := SkinTones[(hash * 3) % |SkinTones|];
    var clothingColor := ClothingColors(seat.className)[(hash * 7) % |ClothingColors(seat.className)|];
    var activity := Activities[(hash * 11) % |Activities|];
    Passenger(PassengerId(seat.id, flightId), "Passenger " + seat.id, gender, activity,
              Appearance(hairColor, skinTone, clothingColor))
  }

  /** The record depends only on the seat's id and class and the flight:
      price, position or availability do not change it. */
  lemma PassengerReproducible(s1: Seat, s2: Seat, flightId: string)
    requires KnownClass(s1.className) && s1.id == s2.id && s1.className == s2.className
    ensures SynthesizePassenger(s1, flightId) == SynthesizePassenger(s2, flightId)
  {
  }

  /** Within one flight, distinct seats give distinct passenger ids. */
  lemma PassengerIdInjective(a: string, b: string, flightId: string)
    ensures PassengerId(a, flightId) == PassengerId(b, flightId) ==> a == b
  {
    if PassengerId(a, flightId) == PassengerId(b, flightId) {
      var pa := PassengerId(a, flightId);
      var pb := PassengerId(b, flightId);
      assert |a| == |b|;
      assert pa[10..10 + |a|] == a;
      assert pb[10..10 + |b|] == b;
    }
  }

  /** `seats.filter((seat) => !seat.isAvailable)`, order kept. */
  function UnavailableSeats(seats: seq<Seat>): (r: seq<Seat>)
    ensures |r| <= |seats|
    ensures forall s :: s in r <==> s in seats && !s.isAvailable
  {
    if seats == [] then []
    else (if seats[0].isAvailable then [] else [seats[0]]) + UnavailableSeats(seats[1..])
  }

  /** Filtering keeps distinct ids distinct. */
  lemma {:induction false} UnavailableSeatsDistinct(seats: seq<Seat>)
    requires IdsDistinct(seats)
    ensures IdsDistinct(UnavailableSeats(seats))
  {
    if seats != [] {
      var rest := seats[1..];
      assert IdsDistinct(rest) by {
        forall a, b | 0 <= a < b < |rest| ensures rest[a].id != rest[b].id {
          assert rest[a] == seats[a + 1] && rest[b] == seats[b + 1];
        }
      }
      UnavailableSeatsDistinct(rest);
      forall s | s in UnavailableSeats(rest) ensures s.id != seats[0].id {
        var k :| 0 <= k < |rest| && rest[k] == s;
        assert seats[k + 1] == s;
      }
      var head := if seats[0].isAvailable then [] else [seats[0]];
      assert UnavailableSeats(seats) == head + UnavailableSeats(rest);
      DistinctConcat(head, UnavailableSeats(rest));
    }
  }

  /** Applies the synthesiser to each seat, in order. */
  function SynthesizeAll(seats: seq<Seat>, flightId: string): (ps: seq<Passenger>)
    requires forall s :: s in seats ==> KnownClass(s.className)
    ensures |ps| == |seats|
    ensures forall k :: 0 <= k < |seats| ==> ps[k] == SynthesizePassenger(seats[k], flightId)
  {
    seq(|seats|, k requires 0 <= k < |seats| => SynthesizePassenger(seats[k], flightId))
  }

  /** Every seat of a layout has one of the three known class names. */
  lemma LayoutClassesKnown(ac: Aircraft, classes: seq<SeatClass>, reserved: set<string>)
    requires ac.seatsPerRow <= 10
    ensures forall s :: s in Layout(ac, classes, reserved) ==> KnownClass(s.className)
  {
    LayoutBands(ac, classes, reserved);
  }

  /** The positions from `i` on that `seats.filter` keeps, in increasing order. */
  function KeptFrom(seats: seq<Seat>, i: nat): seq<int>
    decreases |seats| - i
  {
    if i >= |seats| then []
    else (if seats[i].isAvailable then [] else [i]) + KeptFrom(seats, i + 1)
  }

  /** The positions `seats.filter` keeps. */
  function UnavailableIndices(seats: seq<Seat>): seq<int> {
    KeptFrom(seats, 0)
  }

  /** From position `i` on, the k-th kept position holds the filter's k-th
      seat of the suffix. */
  lemma {:induction false} KeptFromPicks(seats: seq<Seat>, i: nat)
    requires i <= |seats|
    ensures var idx := KeptFrom(seats, i);
      var r := UnavailableSeats(seats[i..]);
      |idx| == |r| && forall k :: 0 <= k < |idx| ==> i <= idx[k] < |seats| && r[k] == seats[idx[k]]
    decreases |seats| - i
  {
    if i < |seats| {
      KeptFromPicks(seats, i + 1);
      assert seats[i..][1..] == seats[i + 1..];
    }
  }

  /** From position `i` on, the kept positions strictly increase and
      include every unavailable seat at or after `i`. */
  lemma {:induction false} KeptFromOrdered(seats: seq<Seat>, i: nat)
    requires i <= |seats|
    ensures var idx := KeptFrom(seats, i);
      (forall k :: 0 <= k < |idx| ==> i <= idx[k] < |seats|) &&
      (forall a, b :: 0 <= a < b < |idx| ==> idx[a] < idx[b]) &&
      (forall j :: i <= j < |seats| && !seats[j].isAvailable ==> j in idx)
    decreases |seats| - i
  {
    if i < |seats| {
      KeptFromOrdered(seats, i + 1);
      var ri := KeptFrom(seats, i + 1);
      var head := if seats[i].isAvailable then [] else [i];
      var idx := KeptFrom(seats, i);
      assert idx == head + ri;
      forall a, b | 0 <= a < b < |idx| ensures idx[a] < idx[b] {
        assert idx[b] == ri[b - |head|];
        if a < |head| { assert idx[a] == i; } else { assert idx[a] == ri[a - |head|]; }
      }
      forall j | i <= j < |seats| && !seats[j].isAvailable ensures j in idx {
        if j == i { assert idx[0] == i; }
      }
    }
  }

  /** The filter keeps the seats in their layout order: its k-th seat is the
      seat at the k-th kept position, the positions strictly increase, and
      every unavailable seat's position is kept. */
  lemma UnavailableSeatsInOrder(seats: seq<Seat>)
    ensures var idx := UnavailableIndices(seats);
      var r := UnavailableSeats(seats);
      |idx| == |r| &&
      (forall k :: 0 <= k < |idx| ==> 0 <= idx[k] < |seats| && r[k] == seats[idx[k]]) &&
      (forall a, b :: 0 <= a < b < |idx| ==> idx[a] < idx[b]) &&
      (forall i :: 0 <= i < |seats| && !seats[i].isAvailable ==> i in idx)
  {
    KeptFromPicks(seats, 0);
    KeptFromOrdered(seats, 0);
    assert seats[0..] == seats;
  }

  /** Filtering a concatenation filters each part in turn. */
  lemma {:induction false} UnavailableSeatsConcat(p: seq<Seat>, q: seq<Seat>)
    ensures UnavailableSeats(p + q) == UnavailableSeats(p) + UnavailableSeats(q)
  {
    if p != [] {
      assert (p + q)[1..] == p[1..] + q;
      UnavailableSeatsConcat(p[1..], q);
    } else {
      assert p + q == q;
    }
  }

  /** Passengers synthesised from the unavailable seats of a list with
      distinct ids: one per such seat, in order, with distinct ids. */
  lemma PassengersOfSeats(seats: seq<Seat>, flightId: string)
    requires forall s :: s in seats ==> KnownClass(s.className)
    requires IdsDistinct(seats)
    ensures var occupied := UnavailableSeats(seats);
      var ps := SynthesizeAll(occupied, flightId);
      |ps| == |occupied| &&
      (forall k :: 0 <= k < |ps| ==>
        (occupied[k] in seats && !occupied[k].isAvailable &&
         ps[k].id == PassengerId(occupied[k].id, flightId))) &&
      (forall a, b :: 0 <= a < b < |ps| ==> ps[a].id != ps[b].id)
  {
    var occupied := UnavailableSeats(seats);
    var ps := SynthesizeAll(occupied, flightId);
    UnavailableSeatsDistinct(seats);
    forall k | 0 <= k < |ps|
      ensures occupied[k] in seats && !occupied[k].isAvailable
    {
      assert occupied[k] in occupied;
    }
    forall a, b | 0 <= a < b < |ps| ensures ps[a].id != ps[b].id {
      PassengerIdInjective(occupied[a].id, occupied[b].id, flightId);
    }
  }

  /** The passengers of the unavailable seats of a list with distinct ids
      and known classes: passenger k is the record synthesised for the k-th
      unavailable seat in list order, every unavailable seat has one, and
      no two ids are alike. */
  lemma PassengersInSeatOrder(seats: seq<Seat>, reserved: set<string>, flightId: string)
    requires forall s :: s in seats ==> KnownClass(s.className)
    requires forall s :: s in seats && !s.isAvailable ==> s.id in reserved
    requires IdsDistinct(seats)
    ensures var ps := SynthesizeAll(UnavailableSeats(seats), flightId);
      var idx := UnavailableIndices(seats);
      |ps| == |idx| &&
      (forall k :: 0 <= k < |ps| ==>
        0 <= idx[k] < |seats| && !seats[idx[k]].isAvailable &&
        seats[idx[k]].id in reserved &&
        KnownClass(seats[idx[k]].className) &&
        ps[k] == SynthesizePassenger(seats[idx[k]], flightId) &&
        ps[k].id == PassengerId(seats[idx[k]].id, flightId)) &&
      (forall a, b :: 0 <= a < b < |idx| ==> idx[a] < idx[b]) &&
      (forall i :: 0 <= i < |seats| && !seats[i].isAvailable ==> i in idx) &&
      (forall a, b :: 0 <= a < b < |ps| ==> ps[a].id != ps[b].id)
  {
    PassengersOfSeats(seats, flightId);
    UnavailableSeatsInOrder(seats);
    var idx := UnavailableIndices(seats);
    forall k | 0 <= k < |idx| ensures seats[idx[k]] in seats {
      assert 0 <= idx[k] < |seats|;
    }
  }

  /** `getPassengers`: no aircraft gives no passengers; otherwise passenger
      k is the synthesised record of the k-th unavailable seat of the
      layout, in layout order, with distinct ids, each seat being one that
      some reservation of the flight holds (`ReservedSeatIds`). */
  function GetPassengers(aircraft: Option<Aircraft>, classes: seq<SeatClass>,
                         reservations: seq<Reservation>, flightId: string): (ps: seq<Passenger>)
    requires aircraft.Some? ==> aircraft.value.seatsPerRow <= 10
    ensures aircraft.None? ==> ps == []
    ensures aircraft.Some? ==>
      var seats := Layout(aircraft.value, classes, ReservedSeatIds(reservations, flightId));
      var idx := UnavailableIndices(seats);
      |ps| == |idx| &&
      (forall k :: 0 <= k < |ps| ==>
        0 <= idx[k] < |seats| && !seats[idx[k]].isAvailable &&
        seats[idx[k]].id in ReservedSeatIds(reservations, flightId) &&
        KnownClass(seats[idx[k]].className) &&
        ps[k] == SynthesizePassenger(seats[idx[k]], flightId) &&
        ps[k].id == PassengerId(seats[idx[k]].id, flightId)) &&
      (forall a, b :: 0 <= a < b < |idx| ==> idx[a] < idx[b]) &&
      (forall i :: 0 <= i < |seats| && !seats[i].isAvailable ==> i in idx)
    ensures forall a, b :: 0 <= a < b < |ps| ==> ps[a].id != ps[b].id
  {
    match aircraft
    case None => []
    case Some(ac) =>
      var reserved := ReservedSeatIds(reservations, flightId);
      var seats := Layout(ac, classes, reserved);
      LayoutClassesKnown(ac, classes, reserved);
      LayoutIdsDistinct(ac, classes, reserved, ac.rows);
      LayoutUpToSeats(ac, classes, reserved, ac.rows);
      PassengersInSeatOrder(seats, reserved, flightId);
      SynthesizeAll(UnavailableSeats(seats), flightId)
  }
}
