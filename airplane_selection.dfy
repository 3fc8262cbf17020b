/** The aircraft picker (src/app/components/airplane-selection.tsx): the
    wind-direction and weather-code labels of the weather panel, the row of
    aircraft centred on the origin, the per-model scale, and the
    click-then-confirm selection. */
module AirplaneSelection {
  import opened Options
  import opened Types

  /** The sixteen compass points, clockwise from north. */
  const CompassPoints: seq<string> :=
    ["N", "NNE", "NE", "ENE", "E", "ESE", "SE", "SSE",
     "S", "SSW", "SW", "WSW", "W", "WNW", "NW", "NNW"]

  /** `degToCompass`: the sector `floor(num / 22.5 + 0.5)` taken modulo 16.
      A negative bearing would index the table at a negative position, which
      the source leaves undefined. */
  function DegToCompass(num: real): (r: string)
    requires num >= 0.0
    ensures exists k :: 0 <= k < 16 && r == CompassPoints[k]
  {
    var sector := (num / 22.5 + 0.5).Floor;
    CompassPoints[sector % 16]
  }

  /** A bearing within 11.25 degrees of the `k`-th point, rounding the
      upper edge up, gets that point's label. */
  lemma CompassSector(num: real, k: nat)
    requires num >= 0.0
    requires 22.5 * (k as real) - 11.25 <= num < 22.5 * (k as real) + 11.25
    ensures DegToCompass(num) == CompassPoints[k % 16]
  {
    var x := num / 22.5 + 0.5;
    assert k as real <= x < k as real + 1.0;
    FloorUnique(x, k);
  }

  /** The floor of `x` is the integer `k` with `k <= x < k + 1`. */
  lemma FloorUnique(x: real, k: int)
    requires k as real <= x < k as real + 1.0
    ensures x.Floor == k
  {
  }

  /** A full turn changes nothing. */
  lemma CompassPeriodic(num: real)
    requires num >= 0.0
    ensures DegToCompass(num + 360.0) == DegToCompass(num)
  {
    var x := num / 22.5 + 0.5;
    var y := (num + 360.0) / 22.5 + 0.5;
    var f := x.Floor;
    assert y == x + 16.0;
    FloorUnique(y, f + 16);
    assert (f + 16) % 16 == f % 16;
  }

  /** North at 0 and 360 degrees, east at 90, south at 180, west at 270. */
  lemma CompassExamples()
    ensures DegToCompass(0.0) == "N" && DegToCompass(360.0) == "N"
    ensures DegToCompass(90.0) == "E" && DegToCompass(180.0) == "S" && DegToCompass(270.0) == "W"
  {
    CompassSector(0.0, 0);
    CompassSector(360.0, 16);
    CompassSector(90.0, 4);
    CompassSector(180.0, 8);
    CompassSector(270.0, 12);
  }

  /** `weatherCodeToText` on a WMO weather code: `0` is clear, below 3
      partly cloudy, below 45 cloudy, below 60 rain, below 70 snow, and
      anything from 70 on reads clear again. A negative code falls into the
      partly cloudy band. */
  function WeatherCodeToText(code: int): (r: string)
    ensures r == "Clear" <==> code == 0 || code >= 70
    ensures r == "Partly Cloudy" <==> code != 0 && code < 3
    ensures r == "Cloudy" <==> 3 <= code < 45
    ensures r == "Rain" <==> 45 <= code < 60
    ensures r == "Snow" <==> 60 <= code < 70
  {
    if code == 0 then "Clear"
    else if code < 3 then "Partly Cloudy"
    else if code < 45 then "Cloudy"
    else if code < 60 then "Rain"
    else if code < 70 then "Snow"
    else "Clear"
  }

  const Spacing: real := 16.0

  /** `getAircraftPosition(index)` for a list of `count` aircraft. */
  function AircraftPosition(count: nat, index: int): (p: Vec3)
    ensures p.y == 0.0 && p.z == 0.0
  {
    var startX := -(((count as real) - 1.0) * Spacing) / 2.0;
    Vec3(startX + (index as real) * Spacing, 0.0, 0.0)
  }

  /** Neighbours are 16 apart, the row is symmetric about the origin, and it
      runs from `-(count - 1) * 8` to `(count - 1) * 8`. */
  lemma AircraftRow(count: nat, index: int)
    ensures AircraftPosition(count, index + 1).x - AircraftPosition(count, index).x == Spacing
    ensures AircraftPosition(count, index).x == -AircraftPosition(count, count - 1 - index).x
    ensures count >= 1 ==>
      AircraftPosition(count, 0).x == -((count as real) - 1.0) * 8.0 &&
      AircraftPosition(count, count - 1).x == ((count as real) - 1.0) * 8.0
  {
  }

  /** `getAircraftScale`: a fixed size per known model, 0.8 for any other. */
  function AircraftScale(id: string): (s: real)
    ensures 0.0 < s <= 1.0
    ensures s == 1.0 <==> id == "boeing-737"
    ensures id == "boeing-787" ==> s == 0.4
    ensures id == "airbus-a380" ==> s == 0.75
    ensures id == "airbus-a320" ==> s == 0.6
    ensures id !in {"boeing-787", "airbus-a380", "boeing-737", "airbus-a320"} ==> s == 0.8
  {
    match id
    case "boeing-787" => 0.4
    case "airbus-a380" => 0.75
    case "boeing-737" => 1.0
    case "airbus-a320" => 0.6
    case _ => 0.8
  }

  /** The `selectedAirplane` state. */
  class Picker {
    var selected: Option<Aircraft>

    constructor()
      ensures selected == None
    {
      selected := None;
    }

    /** `handleAirplaneClick`: a click selects that aircraft, replacing any
        earlier choice. */
    method Click(airplane: Aircraft)
      modifies this
      ensures selected == Some(airplane)
    {
      selected := Some(airplane);
    }

    /** `handleConfirmSelection`: with no aircraft selected nothing happens;
        otherwise `onSelect` receives the selected id and the router goes to
        `/flight/{id}`. The selection itself is kept. */
    method Confirm() returns (chosen: Option<string>, route: Option<string>)
      ensures selected.None? ==> chosen.None? && route.None?
      ensures selected.Some? ==>
        chosen == Some(selected.value.id) && route == Some("/flight/" + selected.value.id)
    {
      if selected.Some? {
        var id := selected.value.id;
        chosen := Some(id);
        route := Some("/flight/" + id);
      } else {
        chosen := None;
        route := None;
      }
    }
  }

  /** Clicking an aircraft and then confirming hands its id to `onSelect`. */
  method ClickThenConfirm(airplane: Aircraft) returns (chosen: Option<string>)
    ensures chosen == Some(airplane.id)
  {
    var picker := new Picker();
    picker.Click(airplane);
    var route;
    chosen, route := picker.Confirm();
  }
}
