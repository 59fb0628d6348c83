/**
 * The weekday × hour order heatmap (`AdvancedAnalyticsController.getDayHourHeatmap`).
 *
 * Orders stamped after the start of (today − days) are counted into a 7 × 24
 * grid indexed by weekday (0 = Sunday) and hour, then flattened day by day
 * into 168 cells.
 */
module DayHourHeatmap {
  import opened Seqs
  import opened Entities
  import opened Calendar

  datatype HeatCell = HeatCell(day: int, dayName: string, hour: int, value: int)

  const DayNames: seq<string> := ["Chủ nhật", "Thứ hai", "Thứ ba", "Thứ tư", "Thứ năm", "Thứ sáu", "Thứ bảy"]

  /** The grid cell an order's stamp falls in, as one index `weekday * 24 + hour`. */
  function CellIndex(o: Order): (c: int)
    ensures 0 <= c < 168
  {
    var ts := if o.createAt.Some? then o.createAt.value else 0;
    WeekdayFromSunday(DayOf(ts)) * 24 + HourOf(ts)
  }

  /** Stamped orders in the cell with index c. */
  function HeatCount(os: seq<Order>, c: int): nat
    decreases |os|
  {
    if |os| == 0 then 0
    else
      var last := os[|os| - 1];
      HeatCount(os[..|os| - 1], c) + (if HasStamp(last) && CellIndex(last) == c then 1 else 0)
  }

  function CellRange(): (r: seq<int>)
    ensures |r| == 168 && forall i :: 0 <= i < 168 ==> r[i] == i
  {
    seq(168, i => i)
  }

  function MakeCell(os: seq<Order>, c: int): HeatCell
    requires 0 <= c < 168
  {
    HeatCell(c / 24, DayNames[c / 24], c % 24, HeatCount(os, c))
  }

  /** The 168 cells, Sunday 00h first and Saturday 23h last. */
  function HeatmapCells(os: seq<Order>): (cells: seq<HeatCell>)
    ensures |cells| == 168
    ensures forall k :: 0 <= k < 168 ==> cells[k] == MakeCell(os, k)
  {
    Map(CellRange(), (c: int) => if 0 <= c < 168 then MakeCell(os, c) else HeatCell(0, "", 0, 0))
  }

  /** The flat index of grid row d, column h. */
  function Cell(d: int, h: int): int
  {
    d * 24 + h
  }

  lemma CellSplit(d: int, h: int)
    requires 0 <= d < 7 && 0 <= h < 24
    ensures 0 <= Cell(d, h) < 168
    ensures Cell(d, h) / 24 == d && Cell(d, h) % 24 == h
  {
  }

  lemma CellIndexInjective(d: int, h: int, d': int, h': int)
    requires 0 <= h < 24 && 0 <= h' < 24
    requires Cell(d, h) == Cell(d', h')
    ensures d == d' && h == h'
  {
  }

  /** The counting loop: `heatmapData[dayOfWeek][hourOfDay]++` for every stamped order. */
  method FillGrid(window: seq<Order>) returns (heatmapData: array2<int>)
    ensures fresh(heatmapData)
    ensures heatmapData.Length0 == 7 && heatmapData.Length1 == 24
    ensures forall d, h :: 0 <= d < 7 && 0 <= h < 24 ==> heatmapData[d, h] == HeatCount(window, Cell(d, h))
  {
    heatmapData := new int[7, 24]((d, h) => 0);
    for i := 0 to |window|
      invariant forall d, h :: 0 <= d < 7 && 0 <= h < 24 ==> heatmapData[d, h] == HeatCount(window[..i], Cell(d, h))
    {
      assert window[..i + 1][..i] == window[..i];
      var order := window[i];
      if order.createAt.Some? {
        var ts := order.createAt.value;
        var dayOfWeek := WeekdayFromSunday(DayOf(ts));
        var hourOfDay := HourOf(ts);
        assert CellIndex(order) == Cell(dayOfWeek, hourOfDay);
        forall d, h | 0 <= d < 7 && 0 <= h < 24 && CellIndex(order) == Cell(d, h)
          ensures d == dayOfWeek && h == hourOfDay
        {
          CellIndexInjective(dayOfWeek, hourOfDay, d, h);
        }
        heatmapData[dayOfWeek, hourOfDay] := heatmapData[dayOfWeek, hourOfDay] + 1;
      }
    }
    assert window[..|window|] == window;
  }

  /** `getDayHourHeatmap`: the grid filled by one pass over the window, then flattened day by day. */
  method Heatmap(orders: seq<Order>, today: int, days: int) returns (cells: seq<HeatCell>)
    ensures cells == HeatmapCells(FindByCreateAtAfter(orders, (today - days) * MillisPerDay))
  {
    var window := FindByCreateAtAfter(orders, (today - days) * MillisPerDay);
    var heatmapData := FillGrid(window);
    cells := [];
    for day := 0 to 7
      modifies {}
      invariant |cells| == day * 24
      invariant forall k :: 0 <= k < |cells| ==> cells[k] == MakeCell(window, k)
    {
      for hour := 0 to 24
        modifies {}
        invariant |cells| == day * 24 + hour
        invariant forall k :: 0 <= k < |cells| ==> cells[k] == MakeCell(window, k)
      {
        CellSplit(day, hour);
        assert |cells| == Cell(day, hour);
        assert MakeCell(window, Cell(day, hour)) == HeatCell(day, DayNames[day], hour, heatmapData[day, hour]);
        cells := cells + [HeatCell(day, DayNames[day], hour, heatmapData[day, hour])];
      }
    }
  }

  lemma SumZero(s: seq<int>, f: int -> int)
    requires forall i :: 0 <= i < |s| ==> f(s[i]) == 0
    ensures Sum(s, f) == 0
    decreases |s|
  {
    if |s| > 0 {
      SumZero(s[..|s| - 1], f);
    }
  }

  /** Every stamped order lands in exactly one cell: the cell counts add up to the stamped orders. */
  lemma {:induction false} HeatCountsTotal(os: seq<Order>)
    ensures Sum(CellRange(), (c: int) => HeatCount(os, c)) == Count(os, HasStamp)
    decreases |os|
  {
    var r := CellRange();
    if |os| == 0 {
      SumZero(r, (c: int) => HeatCount(os, c));
    } else {
      var init := os[..|os| - 1];
      var last := os[|os| - 1];
      HeatCountsTotal(init);
      if HasStamp(last) {
        assert CellIndex(last) in r by { assert r[CellIndex(last)] == CellIndex(last); }
        SumShiftAt(r, (c: int) => HeatCount(os, c), (c: int) => HeatCount(init, c), CellIndex(last));
      } else {
        SumCongruent(r, (c: int) => HeatCount(os, c), (c: int) => HeatCount(init, c));
      }
    }
  }

  /** The heatmap's cells add up to the number of orders in the window, each counted once. */
  lemma HeatmapTotal(orders: seq<Order>, today: int, days: int)
    ensures var window := FindByCreateAtAfter(orders, (today - days) * MillisPerDay);
      Sum(HeatmapCells(window), (c: HeatCell) => c.value) == |window|
  {
    var window := FindByCreateAtAfter(orders, (today - days) * MillisPerDay);
    HeatCountsTotal(window);
    assert forall i :: 0 <= i < |window| ==> HasStamp(window[i]) by {
      forall i | 0 <= i < |window| ensures HasStamp(window[i]) {
        assert window[i] in window;
      }
    }
    var g := (c: int) => if 0 <= c < 168 then MakeCell(window, c) else HeatCell(0, "", 0, 0);
    assert HeatmapCells(window) == Map(CellRange(), g);
    SumMap(CellRange(), g, (c: HeatCell) => c.value, (c: int) => if 0 <= c < 168 then HeatCount(window, c) else 0);
    SumCongruent(CellRange(), (c: int) => if 0 <= c < 168 then HeatCount(window, c) else 0, (c: int) => HeatCount(window, c));
  }
}
