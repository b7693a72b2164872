/** The dashboard's own presentation logic: hour labels, and the bar and
    heat-map scaling of the weekly and hourly charts. */
module Dashboard {
  import opened Optional
  import opened Seqs
  import Decimal
  import Stats

  /** `formatHour`: a 24-hour bucket as a 12-hour clock label. */
  function FormatHour(h: Stats.Hour): (r: string)
    ensures h == 0 ==> r == "12 AM"
    ensures h == 12 ==> r == "12 PM"
    ensures |r| >= 4 && Decimal.AllDigits(r[..|r| - 3])
    ensures r[|r| - 3..] == (if h < 12 then " AM" else " PM")
  {
    if h == 0 then "12 AM"
    else if h == 12 then "12 PM"
    else if h < 12 then Decimal.NatToText(h) + " AM"
    else Decimal.NatToText(h - 12) + " PM"
  }

  /** Reads a label back: a clock number from 1 to 12, a space, and the
      half of the day. */
  function ParseHour(s: string): (r: Option<Stats.Hour>)
    ensures r.Some? ==> |s| >= 4 && (r.value < 12 <==> s[|s| - 3..] == " AM")
  {
    if |s| < 4 || !Decimal.AllDigits(s[..|s| - 3]) then None
    else
      var n := Decimal.TextToNat(s[..|s| - 3]);
      if !(1 <= n <= 12) then None
      else if s[|s| - 3..] == " AM" then Some(if n == 12 then 0 else n)
      else if s[|s| - 3..] == " PM" then Some(if n == 12 then 12 else n + 12)
      else None
  }

  /** Every label reads back as the hour it was made from. */
  lemma FormatHourRoundTrip(h: Stats.Hour)
    ensures ParseHour(FormatHour(h)) == Some(h)
  {
    var r := FormatHour(h);
    if h == 0 || h == 12 {
      assert r[..|r| - 3] == Decimal.NatToText(12) by {
        assert Decimal.NatToText(12) == Decimal.NatToText(1) + [Decimal.DigitChar(2)];
      }
      Decimal.NatRoundTrip(12);
    } else if h < 12 {
      assert r[..|r| - 3] == Decimal.NatToText(h);
      Decimal.NatRoundTrip(h);
    } else {
      assert r[..|r| - 3] == Decimal.NatToText(h - 12);
      Decimal.NatRoundTrip(h - 12);
    }
  }

  /** So no two hours share a label. */
  lemma FormatHourInjective(h1: Stats.Hour, h2: Stats.Hour)
    requires h1 != h2
    ensures FormatHour(h1) != FormatHour(h2)
  {
    FormatHourRoundTrip(h1);
    FormatHourRoundTrip(h2);
  }

  /** `Math.max(...xs, floor)`. */
  function MaxWithFloor(xs: seq<nat>, floor: nat): (m: nat)
    ensures m >= floor && forall i :: 0 <= i < |xs| ==> xs[i] <= m
    ensures m == floor || exists i :: 0 <= i < |xs| && xs[i] == m
  {
    if xs == [] then floor
    else
      var m' := MaxWithFloor(xs[..|xs| - 1], floor);
      var last := xs[|xs| - 1];
      if last > m' then last
      else
        assert forall i :: 0 <= i < |xs| - 1 ==> xs[..|xs| - 1][i] == xs[i];
        m'
  }

  /** `x / top`, the share of the largest value a cell or bar shows. */
  function Ratio(x: nat, top: nat): (q: real)
    requires 0 < top
    ensures 0.0 <= q
    ensures q == 0.0 <==> x == 0
    ensures x <= top ==> q <= 1.0
    ensures x == top ==> q == 1.0
  {
    RatioFacts(x, top);
    x as real / top as real
  }

  lemma RatioFacts(x: nat, top: nat)
    requires 0 < top
    ensures 0.0 <= x as real / top as real
    ensures x as real / top as real == 0.0 <==> x == 0
    ensures x <= top ==> x as real / top as real <= 1.0
    ensures x == top ==> x as real / top as real == 1.0
  {
    var q := x as real / top as real;
    assert q * top as real == x as real;
  }

  /** The weekly chart's bar widths, in percent of the busiest day (at
      least one completion, so an empty week draws empty bars). */
  function WeeklyBars(days: seq<Stats.DayProgress>): (r: seq<real>)
    ensures |r| == |days|
    ensures forall i :: 0 <= i < |days| ==> 0.0 <= r[i] <= 100.0
    ensures forall i :: 0 <= i < |days| ==> (r[i] == 0.0 <==> days[i].completed == 0)
  {
    var top := MaxWithFloor(Stats.Completions(days), 1);
    seq(|days|, i requires 0 <= i < |days| => Ratio(days[i].completed, top) * 100.0)
  }

  /** When any day of the week has a completion, the busiest day's bar
      fills its track. */
  lemma WeeklyBarsBusiestFull(days: seq<Stats.DayProgress>, i: nat)
    requires i < |days| && days[i].completed > 0
    ensures exists j :: 0 <= j < |days| && WeeklyBars(days)[j] == 100.0
  {
    var counts := Stats.Completions(days);
    var top := MaxWithFloor(counts, 1);
    if top == 1 {
      assert counts[i] == 1;
      assert WeeklyBars(days)[i] == 100.0;
    } else {
      var j :| 0 <= j < |counts| && counts[j] == top;
      assert WeeklyBars(days)[j] == 100.0;
    }
  }

  /** The heat-map cell colours: empty, light (`< 0.33`), medium (`< 0.66`)
      and full. */
  datatype Shade = Empty | Light | Medium | Full

  function ShadeOf(intensity: real): Shade {
    if intensity == 0.0 then Empty
    else if intensity < 0.33 then Light
    else if intensity < 0.66 then Medium
    else Full
  }

  /** The colour of each hourly cell: `count / Math.max(...hourly, 1)`. */
  function HeatMap(hourly: seq<nat>): (r: seq<Shade>)
    ensures |r| == |hourly|
    ensures forall h :: 0 <= h < |hourly| ==> (r[h] == Empty <==> hourly[h] == 0)
  {
    var top := MaxWithFloor(hourly, 1);
    seq(|hourly|, h requires 0 <= h < |hourly| => ShadeOf(Ratio(hourly[h], top)))
  }

  /** The busiest hour of a week with completions is drawn in full colour. */
  lemma HeatMapBusiest(hourly: seq<nat>, h: nat)
    requires h < |hourly| && hourly[h] > 0
    requires forall k :: 0 <= k < |hourly| ==> hourly[k] <= hourly[h]
    ensures HeatMap(hourly)[h] == Full
  {
    var top := MaxWithFloor(hourly, 1);
    assert top == hourly[h];
  }

  /** A busier hour is never drawn lighter than a quieter one. */
  lemma HeatMapMonotone(hourly: seq<nat>, a: nat, b: nat)
    requires a < |hourly| && b < |hourly| && hourly[a] <= hourly[b]
    ensures ShadeRank(HeatMap(hourly)[a]) <= ShadeRank(HeatMap(hourly)[b])
  {
    var top := MaxWithFloor(hourly, 1);
    DivideMonotone(hourly[a] as real, hourly[b] as real, top as real);
  }

  function ShadeRank(s: Shade): nat {
    match s
    case Empty => 0
    case Light => 1
    case Medium => 2
    case Full => 3
  }

  lemma DivideMonotone(x: real, y: real, d: real)
    requires 0.0 < d && x <= y
    ensures x / d <= y / d
  {
  }
}
