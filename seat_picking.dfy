/** The seat pick that both camera controllers run on a click
    (`isSeatClick` in src/app/components/first-person-controls.tsx and
    `handleClick` in src/app/components/hybrid-controls.tsx, the same code):
    walk the ray's intersections in order, climb each hit object's parents to
    the first one carrying a seat id, and select it when it is available. The
    raycast itself is a parameter: the hits arrive already ordered. */
module SeatPicking {
  import opened Options
  import opened Text

  /** The `userData` a seat group carries; an object without seat data has
      an empty `seatId` (JavaScript's missing fields are all falsy: `""`,
      `false`, `0`). */
  datatype UserData = UserData(seatId: string, isAvailable: bool, price: real, className: string)

  const NoSeatData: UserData := UserData("", false, 0.0, "")

  /** One intersection: the hit object's own `userData`, and its ancestors
      from `object.parent` upwards. */
  datatype Hit = Hit(own: UserData, ancestors: seq<UserData>)

  /** The `Partial<Seat>` handed to `onSeatSelect`. */
  datatype SelectedSeat = SelectedSeat(id: string, row: nat, seat: string, isAvailable: bool,
                                       price: real, className: string)

  const DefaultPrice: real := 200.0
  const DefaultClass: string := "economy"

  // ---------------------------------------------------------------------
  // Seat-id parse: `parseInt(seatId.match(/\d+/)?.[0] || "0")` and
  // `seatId.replace(/\d+/, "")`.

  /** Index of the first decimal digit of `s`, or `|s|` when there is none. */
  function FirstDigit(s: string): (k: nat)
    ensures k <= |s| && NoDigits(s[..k])
    ensures k < |s| ==> IsDigit(s[k])
  {
    if s == [] then 0
    else if IsDigit(s[0]) then 0
    else
      var k := 1 + FirstDigit(s[1..]);
      assert forall i :: 1 <= i < k ==> s[..k][i] == s[1..][..k - 1][i - 1];
      k
  }

  /** Length of the run of digits at the start of `s`. */
  function DigitRun(s: string): (k: nat)
    ensures k <= |s| && AllDigits(s[..k])
    ensures k < |s| ==> !IsDigit(s[k])
  {
    if s == [] || !IsDigit(s[0]) then 0
    else
      var k := 1 + DigitRun(s[1..]);
      assert forall i :: 1 <= i < k ==> s[..k][i] == s[1..][..k - 1][i - 1];
      k
  }

  /** The run length is the `k` its contract describes: digits up to `k`,
      then a non-digit or the end. */
  lemma {:induction false} DigitRunExact(s: string, k: nat)
    requires k <= |s| && AllDigits(s[..k])
    requires k < |s| ==> !IsDigit(s[k])
    ensures DigitRun(s) == k
  {
    if k > 0 {
      assert s[0] == s[..k][0];
      assert s[1..][..k - 1] == s[..k][1..];
      DigitRunExact(s[1..], k - 1);
    }
  }

  /** `(row, seat)` as the controllers compute them from a seat id: the first
      run of digits is the row (0 when there is none) and the id with that
      run cut out is the seat. */
  function ParseSeatId(id: string): (rowAndSeat: (nat, string))
    ensures |rowAndSeat.1| <= |id|
    ensures NoDigits(id) ==> rowAndSeat == (0, id)
  {
    var k := FirstDigit(id);
    if k == |id| then
      assert id[..k] == id;
      (0, id)
    else
      var n := DigitRun(id[k..]);
      assert AllDigits(id[k..k + n]) by {
        assert id[k..][..n] == id[k..k + n];
      }
      (DigitsValue(id[k..k + n]), id[..k] + id[k + n..])
  }

  /** Round trip with the id format of the layout: the decimal rendering of
      a row followed by letters parses back to that row and those letters. */
  lemma ParseSeatIdRoundTrip(row: nat, letters: string)
    requires NoDigits(letters)
    ensures ParseSeatId(NatToString(row) + letters) == (row, letters)
  {
    var digits := NatToString(row);
    var id := digits + letters;
    assert IsDigit(id[0]);
    assert FirstDigit(id) == 0;
    var n := DigitRun(id[0..]);
    assert id[0..] == id;
    if |digits| < |id| {
      assert id[|digits|] == letters[0];
    }
    assert id[..|digits|] == digits;
    DigitRunExact(id, |digits|);
    assert n == |digits|;
    assert id[0..n] == digits && id[..0] + id[n..] == letters;
    DigitsValueOfNatToString(row);
    assert ParseSeatId(id) == (DigitsValue(id[0..n]), id[..0] + id[n..]);
  }

  /** Only the first run of digits counts: `12A3` is row 12, seat `A3`. */
  lemma ParseSeatIdFirstRunOnly()
    ensures ParseSeatId("12A3") == (12, "A3")
  {
    var id := "12A3";
    assert FirstDigit(id) == 0;
    assert id[0..] == id;
    assert DigitRun(id[1..]) == 1 by {
      assert DigitRun(id[1..][1..]) == 0;
    }
    assert DigitRun(id) == 2;
    assert id[0..2] == "12" && id[..0] + id[2..] == "A3";
    assert "12"[..1] == "1" && "1"[..0] == [];
    assert DigitsValue("12") == 12;
    assert ParseSeatId(id) == (DigitsValue(id[0..2]), id[..0] + id[2..]);
  }

  // ---------------------------------------------------------------------
  // The pick loop.

  /** `while (parent && !parent.userData.seatId) parent = parent.parent`:
      the index of the first ancestor with a seat id, if any. */
  function FirstHolder(chain: seq<UserData>): (r: Option<nat>)
    ensures r.None? <==> forall j :: 0 <= j < |chain| ==> chain[j].seatId == ""
    ensures r.Some? ==> (r.value < |chain| && chain[r.value].seatId != "" &&
      forall j :: 0 <= j < r.value ==> chain[j].seatId == "")
  {
    if chain == [] then None
    else if chain[0].seatId != "" then Some(0)
    else
      match FirstHolder(chain[1..])
      case None => None
      case Some(j) => Some(j + 1)
  }

  /** The seat holder of one hit, when it is available. */
  function Qualifying(hit: Hit): (u: Option<UserData>)
    ensures u.Some? <==> FirstHolder(hit.ancestors).Some? && hit.ancestors[FirstHolder(hit.ancestors).value].isAvailable
    ensures u.Some? ==> u.value == hit.ancestors[FirstHolder(hit.ancestors).value]
  {
    match FirstHolder(hit.ancestors)
    case None => None
    case Some(j) => if hit.ancestors[j].isAvailable then Some(hit.ancestors[j]) else None
  }

  /** The record sent to `onSeatSelect` for a qualifying holder. */
  function Selection(u: UserData): (s: SelectedSeat)
    ensures s.id == u.seatId && (s.row, s.seat) == ParseSeatId(u.seatId)
    ensures s.isAvailable
    ensures s.price != 0.0 && (u.price != 0.0 ==> s.price == u.price)
    ensures s.className != "" && (u.className != "" ==> s.className == u.className)
  {
    var rowAndSeat := ParseSeatId(u.seatId);
    SelectedSeat(u.seatId, rowAndSeat.0, rowAndSeat.1, true,
                 if u.price == 0.0 then DefaultPrice else u.price,
                 if u.className == "" then DefaultClass else u.className)
  }

  /** The selection of a click: the first hit whose holder is available. */
  function Pick(hits: seq<Hit>): Option<SelectedSeat> {
    if hits == [] then None
    else
      match Qualifying(hits[0])
      case Some(u) => Some(Selection(u))
      case None => Pick(hits[1..])
  }

  /** A click selects nothing iff no hit has an available holder. */
  lemma {:induction false} PickNone(hits: seq<Hit>)
    ensures Pick(hits).None? <==> forall i :: 0 <= i < |hits| ==> Qualifying(hits[i]).None?
  {
    if hits != [] {
      PickNone(hits[1..]);
      assert forall i :: 1 <= i < |hits| ==> hits[i] == hits[1..][i - 1];
    }
  }

  /** When a click selects a seat, it is the holder of the first hit that
      has an available one. Hits in front whose holder is taken do not stop
      the search. */
  lemma {:induction false} PickFirstQualifying(hits: seq<Hit>)
    ensures Pick(hits).Some? ==> exists i :: (0 <= i < |hits| && Qualifying(hits[i]).Some? &&
      Pick(hits) == Some(Selection(Qualifying(hits[i]).value)) &&
      forall k :: 0 <= k < i ==> Qualifying(hits[k]).None?)
  {
    if hits != [] && Qualifying(hits[0]).Some? {
      assert Pick(hits) == Some(Selection(Qualifying(hits[0]).value));
    } else if hits != [] && Pick(hits).Some? {
      assert Pick(hits) == Pick(hits[1..]);
      PickFirstQualifying(hits[1..]);
      var rest := hits[1..];
      var i :| 0 <= i < |rest| && Qualifying(rest[i]).Some? &&
        Pick(rest) == Some(Selection(Qualifying(rest[i]).value)) &&
        forall k :: 0 <= k < i ==> Qualifying(rest[k]).None?;
      assert hits[i + 1] == rest[i];
      assert forall k :: 1 <= k < i + 1 ==> hits[k] == rest[k - 1];
    }
  }

  /** Every selection is of an available seat holder that some hit reached. */
  lemma PickOnlyAvailable(hits: seq<Hit>)
    ensures Pick(hits).Some? ==> (Pick(hits).value.isAvailable &&
      exists i, j :: 0 <= i < |hits| && 0 <= j < |hits[i].ancestors| &&
        hits[i].ancestors[j].isAvailable && hits[i].ancestors[j].seatId == Pick(hits).value.id)
  {
    PickFirstQualifying(hits);
    if Pick(hits).Some? {
      var i :| 0 <= i < |hits| && Qualifying(hits[i]).Some? &&
        Pick(hits) == Some(Selection(Qualifying(hits[i]).value)) &&
        forall k :: 0 <= k < i ==> Qualifying(hits[k]).None?;
      var j := FirstHolder(hits[i].ancestors).value;
      assert hits[i].ancestors[j].seatId == Pick(hits).value.id;
    }
  }

  /** The hit object's own `userData` is never looked at: the climb starts at
      its parent. */
  lemma {:induction false} PickIgnoresOwnData(hits: seq<Hit>, others: seq<UserData>)
    requires |others| == |hits|
    ensures Pick(hits) == Pick(seq(|hits|, i requires 0 <= i < |hits| => Hit(others[i], hits[i].ancestors)))
  {
    var moved := seq(|hits|, i requires 0 <= i < |hits| => Hit(others[i], hits[i].ancestors));
    if hits != [] {
      PickIgnoresOwnData(hits[1..], others[1..]);
      assert moved[1..] == seq(|hits[1..]|, i requires 0 <= i < |hits[1..]| => Hit(others[1..][i], hits[1..][i].ancestors));
    }
  }

  /** The controllers' `for`/`while` pick loop; at most one seat per click. */
  method PickSeat(hits: seq<Hit>) returns (selection: Option<SelectedSeat>)
    ensures selection == Pick(hits)
  {
    for i := 0 to |hits|
      invariant Pick(hits) == Pick(hits[i..])
    {
      assert hits[i..][0] == hits[i] && hits[i..][1..] == hits[i + 1..];
      var holder := QualifyingHolder(hits[i]);
      if holder.Some? {
        return Some(Selection(holder.value));
      }
    }
    assert hits[|hits|..] == [];
    return None;
  }

  /** The `while` climb of one intersection and the availability test. */
  method QualifyingHolder(hit: Hit) returns (holder: Option<UserData>)
    ensures holder == Qualifying(hit)
  {
    var chain := hit.ancestors;
    var j := 0;
    while j < |chain| && chain[j].seatId == ""
      invariant 0 <= j <= |chain|
      invariant forall m :: 0 <= m < j ==> chain[m].seatId == ""
    {
      j := j + 1;
    }
    if j < |chain| && chain[j].isAvailable {
      assert FirstHolder(chain) == Some(j);
      return Some(chain[j]);
    }
    return None;
  }
}
