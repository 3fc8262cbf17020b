/** One seat in the cabin view (src/components/models/seat-model.tsx): its
    colour by class, availability and hover; the click that reaches
    `onClick` only for an available seat; the base size by class; and the
    `userData` the camera controllers read back when a ray hits the seat. */
module SeatModel {
  import opened Options
  import opened Text
  import opened Types
  import opened DataService
  import opened SeatPicking

  const HoverColor: string := "#0ea5e9"
  const TakenColor: string := "#ef4444"
  const FirstColor: string := "#8b5cf6"
  const BusinessColor: string := "#f59e0b"
  const EconomyColor: string := "#10b981"

  /** `getClassColor`: purple for first, amber for business, emerald for
      economy and for any other class name. */
  function ClassColor(className: string): (c: string)
    ensures c == FirstColor <==> className == "first"
    ensures c == BusinessColor <==> className == "business"
    ensures c == EconomyColor <==> className != "first" && className != "business"
  {
    match className
    case "first" => FirstColor
    case "business" => BusinessColor
    case _ => EconomyColor
  }

  /** `seatColor`: hover wins, then the class colour for an available seat,
      then red for a taken one. */
  function SeatColor(seat: Seat, hovered: bool): (c: string)
    ensures hovered ==> c == HoverColor
    ensures !hovered && seat.isAvailable ==> c == ClassColor(seat.className)
    ensures !hovered && !seat.isAvailable ==> c == TakenColor
  {
    if hovered then HoverColor else if seat.isAvailable then ClassColor(seat.className) else TakenColor
  }

  /** No class colour is the hover or the taken colour, so the colour alone
      tells the three states apart: red exactly for a taken seat not under
      the pointer, blue exactly under the pointer. */
  lemma SeatColorTellsState(seat: Seat, hovered: bool)
    ensures SeatColor(seat, hovered) == TakenColor <==> !hovered && !seat.isAvailable
    ensures SeatColor(seat, hovered) == HoverColor <==> hovered
  {
    var c := ClassColor(seat.className);
    assert c != TakenColor && c != HoverColor by {
      assert c == FirstColor || c == BusinessColor || c == EconomyColor;
      assert FirstColor[1] != TakenColor[1] && FirstColor[1] != HoverColor[1];
      assert BusinessColor[1] != TakenColor[1] && BusinessColor[1] != HoverColor[1];
      assert EconomyColor[1] != TakenColor[1] && EconomyColor[1] != HoverColor[1];
    }
  }

  /** `getSeatBaseSize`: a flat box, larger for the better classes. */
  function SeatBaseSize(className: string): (size: Vec3)
    ensures size.y == 0.05 && size.x == size.z
    ensures className == "first" ==> size.x == 0.5
    ensures className == "business" ==> size.x == 0.45
    ensures className != "first" && className != "business" ==> size.x == 0.4
  {
    match className
    case "first" => Vec3(0.5, 0.05, 0.5)
    case "business" => Vec3(0.45, 0.05, 0.45)
    case _ => Vec3(0.4, 0.05, 0.4)
  }

  /** First class is wider than business, which is wider than economy. */
  lemma BaseSizeOrder(other: string)
    requires other != "first" && other != "business"
    ensures SeatBaseSize("first").x > SeatBaseSize("business").x > SeatBaseSize(other).x
  {
  }

  /** The highlight ring is drawn only for an available seat under the
      pointer. */
  function ShowsRing(seat: Seat, hovered: bool): (shown: bool)
    ensures shown <==> seat.isAvailable && hovered
    ensures shown ==> SeatColor(seat, hovered) == HoverColor
  {
    seat.isAvailable && hovered
  }

  /** The group's `userData`: id, availability, price and class copied from
      the seat. */
  function UserDataOf(seat: Seat): (u: UserData)
    ensures u.seatId == seat.id && u.isAvailable == seat.isAvailable
    ensures u.price == seat.price && u.className == seat.className
  {
    UserData(seat.id, seat.isAvailable, seat.price, seat.className)
  }

  /** The hover state and the document cursor it sets. */
  class SeatView {
    const seat: Seat
    var hovered: bool
    var cursor: string

    constructor(seat0: Seat, cursor0: string)
      ensures seat == seat0 && !hovered && cursor == cursor0
    {
      seat := seat0;
      hovered := false;
      cursor := cursor0;
    }

    /** `onPointerOver`: hovered, with a pointer cursor over an available
        seat and a not-allowed cursor over a taken one. */
    method PointerOver()
      modifies this
      ensures hovered
      ensures cursor == if seat.isAvailable then "pointer" else "not-allowed"
    {
      hovered := true;
      cursor := if seat.isAvailable then "pointer" else "not-allowed";
    }

    /** `onPointerOut`: no longer hovered, cursor back to `auto`. */
    method PointerOut()
      modifies this
      ensures !hovered && cursor == "auto"
    {
      hovered := false;
      cursor := "auto";
    }

    /** `handleSeatClick`: `onClick` receives the seat only when it is
        available; the hover state is untouched. */
    method Click() returns (clicked: Option<Seat>)
      ensures clicked.Some? <==> seat.isAvailable
      ensures clicked.Some? ==> clicked.value == seat
    {
      if seat.isAvailable {
        clicked := Some(seat);
      } else {
        clicked := None;
      }
    }

    /** What is drawn now: the colour and whether the ring shows. */
    method Appearance() returns (color: string, ring: bool)
      ensures color == SeatColor(seat, hovered) && ring == ShowsRing(seat, hovered)
    {
      color := if hovered then HoverColor
               else if seat.isAvailable then ClassColor(seat.className)
               else TakenColor;
      ring := seat.isAvailable && hovered;
    }
  }

  /** A ray that hits a mesh inside the group of a layout seat (a mesh
      without seat data of its own, whose parent carries the seat's
      `userData`) selects that seat iff no reservation holds it, and the
      selection parses back to the seat's own row and column. */
  lemma ClickedLayoutSeat(ac: Aircraft, classes: seq<SeatClass>, reserved: set<string>, s: Seat,
                          above: seq<UserData>)
    requires ac.seatsPerRow <= 10 && s in Layout(ac, classes, reserved)
    ensures var pick := Pick([Hit(NoSeatData, [UserDataOf(s)] + above)]);
      (pick.Some? <==> s.id !in reserved) &&
      (pick.Some? ==> pick.value.id == s.id && pick.value.row == s.row && pick.value.seat == [s.column])
  {
    LayoutUpToSeats(ac, classes, reserved, ac.rows);
    SeatLettersFacts();
    var i :| 0 <= i < ac.seatsPerRow && s.column == SeatLetters[i];
    assert !IsDigit(SeatLetters[i]);
    assert NoDigits([s.column]);
    ParseSeatIdRoundTrip(s.row, [s.column]);
    assert s.id == NatToString(s.row) + [s.column];
    var chain := [UserDataOf(s)] + above;
    assert chain[0].seatId != "";
    assert FirstHolder(chain) == Some(0);
    var hits := [Hit(NoSeatData, chain)];
    assert hits[1..] == [];
  }
}
