/** The equity-curve series of the Performance page, in one pass, against their definitions. */
module Perf {
  datatype Point = Point(timestamp: int, balance: real)

  datatype Bar = Bar(t: int, v: real)

  // ---------- drawdown ----------

  function Peak(curve: seq<Point>, j: nat): real
    requires j < |curve|
  {
    if j == 0 || curve[j].balance > Peak(curve, j - 1) then curve[j].balance else Peak(curve, j - 1)
  }

  function Drawdown(curve: seq<Point>, j: nat): real
    requires j < |curve|
  {
    curve[j].balance - Peak(curve, j)
  }

  method DrawdownSeries(curve: seq<Point>) returns (series: seq<Bar>)
    ensures |series| == |curve|
    ensures forall j | 0 <= j < |curve| :: series[j] == Bar(curve[j].timestamp, Drawdown(curve, j))
  {
    series := [];
    var peak := 0.0;  // -Infinity before the first point
    var n := 0;
    while n < |curve|
      invariant 0 <= n <= |curve| && |series| == n
      invariant n > 0 ==> peak == Peak(curve, n - 1)
      invariant forall j | 0 <= j < n :: series[j] == Bar(curve[j].timestamp, Drawdown(curve, j))
    {
      peak := if n == 0 || curve[n].balance > peak then curve[n].balance else peak;
      series := series + [Bar(curve[n].timestamp, curve[n].balance - peak)];
      n := n + 1;
    }
  }

  lemma {:induction false} PeakIsHighest(curve: seq<Point>, i: nat, j: nat)
    requires i <= j < |curve|
    ensures curve[i].balance <= Peak(curve, j)
    decreases j
  {
    if i < j {
      PeakIsHighest(curve, i, j - 1);
    }
  }

  lemma {:induction false} PeakIsReached(curve: seq<Point>, j: nat) returns (i: nat)
    requires j < |curve|
    ensures i <= j && curve[i].balance == Peak(curve, j)
    decreases j
  {
    if j == 0 || curve[j].balance > Peak(curve, j - 1) {
      i := j;
    } else {
      i := PeakIsReached(curve, j - 1);
    }
  }

  /** MAXIMUM DRAWDOWN: the lowest drawdown is minus the largest fall between any two points. */
  lemma LowestIsLargestFall(curve: seq<Point>, low: nat, i: nat, j: nat)
    requires low < |curve| && i <= j < |curve|
    requires forall k: nat | k < |curve| :: Drawdown(curve, low) <= Drawdown(curve, k)
    ensures curve[i].balance - curve[j].balance <= -Drawdown(curve, low)
    ensures exists k: nat :: k <= low && curve[k].balance - curve[low].balance == -Drawdown(curve, low)
  {
    PeakIsHighest(curve, i, j);
    assert Drawdown(curve, low) <= Drawdown(curve, j);
    var k := PeakIsReached(curve, low);
    assert curve[k].balance - curve[low].balance == -Drawdown(curve, low);
  }

  // ---------- daily profit and loss ----------

  /** What a point changed, attributed to its own day: the first point's change is unknowable, so 0. */
  function Change(curve: seq<Point>, i: nat): real
    requires i < |curve|
  {
    if i == 0 then 0.0 else curve[i].balance - curve[i - 1].balance
  }

  /** The definition: the changes of all points of a day among the first `n`, added up. */
  function DayTotal(curve: seq<Point>, day: int -> int, n: nat, d: int): real
    requires n <= |curve|
  {
    if n == 0 then 0.0
    else DayTotal(curve, day, n - 1, d) + (if day(curve[n - 1].timestamp) == d then Change(curve, n - 1) else 0.0)
  }

  function LastBar(bars: seq<Bar>): Bar
    requires bars != []
  {
    bars[|bars| - 1]
  }

  /** The bars of the first `n` points, the last one still open. */
  function Bars(curve: seq<Point>, day: int -> int, n: nat): (r: seq<Bar>)
    requires n <= |curve|
    ensures n > 0 ==> r != [] && LastBar(r).t == day(curve[n - 1].timestamp)
  {
    if n == 0 then []
    else
      var before := Bars(curve, day, n - 1);
      var d := day(curve[n - 1].timestamp);
      if before != [] && LastBar(before).t == d then
        before[..|before| - 1] + [Bar(d, LastBar(before).v + Change(curve, n - 1))]
      else before + [Bar(d, Change(curve, n - 1))]
  }

  /** One more point, when the last bar is still open at `closing - baseline`. */
  lemma OneMorePoint(curve: seq<Point>, day: int -> int, n: nat, bars: seq<Bar>, baseline: real)
    requires 0 < n < |curve|
    requires var open := Bar(day(curve[n - 1].timestamp), curve[n - 1].balance - baseline);
             Bars(curve, day, n) == bars + [open]
    ensures var d := day(curve[n].timestamp);
            var open := Bar(day(curve[n - 1].timestamp), curve[n - 1].balance - baseline);
            Bars(curve, day, n + 1) ==
            if d == open.t then bars + [Bar(d, curve[n].balance - baseline)]
            else bars + [open] + [Bar(d, curve[n].balance - curve[n - 1].balance)]
  {
    var before := Bars(curve, day, n);
    assert before[..|before| - 1] == bars && LastBar(before) == before[|bars|];
  }

  method DailyPnl(curve: seq<Point>, day: int -> int) returns (bars: seq<Bar>)
    ensures bars == Bars(curve, day, |curve|)
    ensures curve == [] <==> bars == []
    ensures curve != [] ==> Total(bars) == curve[|curve| - 1].balance - curve[0].balance
  {
    bars := [];
    if curve == [] {
      return;
    }
    var baseline := curve[0].balance;
    var today := day(curve[0].timestamp);
    var closing := curve[0].balance;
    var n := 1;
    assert Bars(curve, day, 0) == [];
    while n < |curve|
      invariant 1 <= n <= |curve|
      invariant closing == curve[n - 1].balance && today == day(curve[n - 1].timestamp)
      invariant Bars(curve, day, n) == bars + [Bar(today, closing - baseline)]
    {
      var d := day(curve[n].timestamp);
      OneMorePoint(curve, day, n, bars, baseline);
      if d != today {
        bars := bars + [Bar(today, closing - baseline)];
        baseline := closing;
        today := d;
      }
      closing := curve[n].balance;
      n := n + 1;
    }
    bars := bars + [Bar(today, closing - baseline)];
    BarsTelescope(curve, day, |curve|);
  }

  function Total(bars: seq<Bar>): real {
    if bars == [] then 0.0 else Total(bars[..|bars| - 1]) + LastBar(bars).v
  }

  lemma TotalAppend(bars: seq<Bar>, b: Bar)
    ensures Total(bars + [b]) == Total(bars) + b.v
  {
    assert (bars + [b])[..|bars|] == bars;
  }

  /** TELESCOPING: the bars add up to the last cumulative value, sorted curve or not. */
  lemma {:induction false} BarsTelescope(curve: seq<Point>, day: int -> int, n: nat)
    requires 0 < n <= |curve|
    ensures Total(Bars(curve, day, n)) == curve[n - 1].balance - curve[0].balance
    decreases n
  {
    var before := Bars(curve, day, n - 1);
    if n > 1 {
      BarsTelescope(curve, day, n - 1);
      TotalAppend(before[..|before| - 1], Bar(LastBar(before).t, LastBar(before).v + Change(curve, n - 1)));
    }
    TotalAppend(before, Bar(day(curve[n - 1].timestamp), Change(curve, n - 1)));
  }

  ghost predicate SortedDays(curve: seq<Point>, day: int -> int) {
    forall i, j | 0 <= i <= j < |curve| :: day(curve[i].timestamp) <= day(curve[j].timestamp)
  }

  ghost predicate Ascending(bars: seq<Bar>) {
    forall k, l | 0 <= k < l < |bars| :: bars[k].t < bars[l].t
  }

  ghost predicate Occurs(curve: seq<Point>, day: int -> int, n: nat, d: int)
    requires n <= |curve|
  {
    exists i :: 0 <= i < n && day(curve[i].timestamp) == d
  }

  ghost predicate HasBar(bars: seq<Bar>, d: int) {
    exists k :: 0 <= k < |bars| && bars[k].t == d
  }

  lemma HasBarAppend(bars: seq<Bar>, b: Bar, d: int)
    ensures HasBar(bars + [b], d) <==> HasBar(bars, d) || b.t == d
  {
    if HasBar(bars, d) {
      var k :| 0 <= k < |bars| && bars[k].t == d;
      assert (bars + [b])[k].t == d;
    }
    assert (bars + [b])[|bars|] == b;
  }

  lemma NewDay(curve: seq<Point>, day: int -> int, n: nat, d: int)
    requires 0 < n <= |curve|
    ensures Occurs(curve, day, n, d) <==> Occurs(curve, day, n - 1, d) || day(curve[n - 1].timestamp) == d
  {
    assert day(curve[n - 1].timestamp) == d ==> Occurs(curve, day, n, d);
  }

  /** Exactly the days that occur have a bar, whatever the order of the curve. */
  lemma {:induction false} BarForEveryDay(curve: seq<Point>, day: int -> int, n: nat, d: int)
    requires n <= |curve|
    ensures HasBar(Bars(curve, day, n), d) <==> Occurs(curve, day, n, d)
    decreases n
  {
    if n > 0 {
      BarForEveryDay(curve, day, n - 1, d);
      NewDay(curve, day, n, d);
      var before := Bars(curve, day, n - 1);
      HasBarAppend(before, Bar(day(curve[n - 1].timestamp), Change(curve, n - 1)), d);
      if before != [] {
        var last := |before| - 1;
        assert before == before[..last] + [before[last]];
        HasBarAppend(before[..last], before[last], d);
        HasBarAppend(before[..last], Bar(before[last].t, before[last].v + Change(curve, n - 1)), d);
      }
    }
  }

  /** On a time-sorted curve the bar days strictly increase. */
  lemma {:induction false} DaysIncrease(curve: seq<Point>, day: int -> int, n: nat)
    requires n <= |curve| && SortedDays(curve, day)
    ensures Ascending(Bars(curve, day, n))
    decreases n
  {
    if n > 1 {
      DaysIncrease(curve, day, n - 1);
      assert day(curve[n - 2].timestamp) <= day(curve[n - 1].timestamp);
    } else if n == 1 {
      assert Bars(curve, day, 0) == [];
    }
  }

  lemma {:induction false} UnseenDay(curve: seq<Point>, day: int -> int, n: nat, d: int)
    requires n <= |curve| && !Occurs(curve, day, n, d)
    ensures DayTotal(curve, day, n, d) == 0.0
    decreases n
  {
    if n > 0 {
      NewDay(curve, day, n, d);
      UnseenDay(curve, day, n - 1, d);
    }
  }

  lemma NoBarBefore(bars: seq<Bar>, b: Bar)
    requires Ascending(bars + [b])
    ensures !HasBar(bars, b.t)
  {
    var all := bars + [b];
    forall l | 0 <= l < |bars|
      ensures bars[l].t != b.t
    {
      assert all[l].t < all[|bars|].t;
    }
  }

  /** A day that closed no bar yet has nothing added up. */
  lemma NewBarIsFirst(curve: seq<Point>, day: int -> int, n: nat)
    requires 0 < n <= |curve| && SortedDays(curve, day)
    requires |Bars(curve, day, n)| == |Bars(curve, day, n - 1)| + 1
    ensures DayTotal(curve, day, n - 1, day(curve[n - 1].timestamp)) == 0.0
  {
    var before := Bars(curve, day, n - 1);
    var d := day(curve[n - 1].timestamp);
    DaysIncrease(curve, day, n);
    assert Bars(curve, day, n) == before + [Bar(d, Change(curve, n - 1))];
    NoBarBefore(before, Bar(d, Change(curve, n - 1)));
    BarForEveryDay(curve, day, n - 1, d);
    UnseenDay(curve, day, n - 1, d);
  }

  /** ONE PASS EQUALS THE DEFINITION: on a time-sorted curve each bar is its day's total. */
  lemma {:induction false} BarIsDayTotal(curve: seq<Point>, day: int -> int, n: nat, k: nat)
    requires n <= |curve| && SortedDays(curve, day) && k < |Bars(curve, day, n)|
    ensures var b := Bars(curve, day, n)[k]; b.v == DayTotal(curve, day, n, b.t)
    decreases n
  {
    var before := Bars(curve, day, n - 1);
    if k < |before| {
      BarIsDayTotal(curve, day, n - 1, k);
      EarlierBar(curve, day, n, k);
    } else {
      NewBarIsFirst(curve, day, n);
    }
  }

  lemma EarlierBar(curve: seq<Point>, day: int -> int, n: nat, k: nat)
    requires 0 < n <= |curve| && SortedDays(curve, day) && k < |Bars(curve, day, n - 1)|
    ensures var b, d := Bars(curve, day, n - 1)[k], day(curve[n - 1].timestamp);
            Bars(curve, day, n)[k] == Bar(b.t, b.v + (if b.t == d then Change(curve, n - 1) else 0.0))
  {
    DaysIncrease(curve, day, n);
  }
}
