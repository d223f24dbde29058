/**
 * chart.js: the horizontal bar charts of the site. The page's element ids,
 * the fetched JSON (`None` when the request fails) and `Math.random` are
 * passed in; the chart is a class whose data and container height are
 * updated when the data arrives.
 */
module Chart {
  import opened Wrappers

  // ---------------------------------------------------------------------
  // generateColorPalette.
  // ---------------------------------------------------------------------

  /** An `hsl(hue, saturation%, lightness%)` colour. */
  datatype Color = Hsl(hue: real, saturation: real, lightness: real)

  /** JavaScript's `x % m` for `x >= 0` and `m > 0`: the remainder keeps the sign of `x`. */
  function Remainder(x: real, m: real): (r: real)
    requires x >= 0.0 && m > 0.0
    ensures 0.0 <= r < m
  {
    var q := x / m;
    var f := q.Floor as real;
    var d := q - f;
    ScaledFraction(m, d);
    assert x - m * f == m * d;
    x - m * f
  }

  lemma ScaledFraction(m: real, d: real)
    requires m > 0.0 && 0.0 <= d < 1.0
    ensures 0.0 <= m * d < m
  {
    assert m * (1.0 - d) > 0.0;
  }

  /** The hue of colour `i` of `n`: `(i * 360 / n) % 360`. */
  function Hue(i: nat, n: nat): real
    requires n > 0
  {
    Remainder((i * 360) as real / n as real, 360.0)
  }

  /** The `i`-th hue is `i` steps of `360 / n` degrees: the remainder never wraps for `i < n`. */
  lemma HueIsStep(i: nat, n: nat)
    requires i < n
    ensures Hue(i, n) == i as real * (360.0 / n as real)
  {
    var x := (i * 360) as real / n as real;
    assert x * n as real == (i * 360) as real;
    assert x < 360.0 by {
      assert (i * 360) as real < (n * 360) as real;
    }
    assert (x / 360.0).Floor == 0;
  }

  /** The hues go round the colour wheel once, in increasing order, so no two colours share a hue. */
  lemma HuesIncrease(i: nat, j: nat, n: nat)
    requires i < j < n
    ensures 0.0 <= Hue(i, n) < Hue(j, n) < 360.0
  {
    HueIsStep(i, n);
    HueIsStep(j, n);
    var step := 360.0 / n as real;
    assert step > 0.0;
    assert i as real * step < j as real * step;
  }

  /** The colour `generateColorPalette` makes at index `i`, from the two draws of `Math.random` it makes there. */
  function PaletteColor(i: nat, n: nat, random: nat -> real): Color
    requires n > 0
  {
    Hsl(Hue(i, n), 70.0 + random(2 * i) * 20.0, 45.0 + random(2 * i + 1) * 10.0)
  }

  /** `Math.random` draws in [0, 1), so saturation lies in [70, 90) and lightness in [45, 55). */
  lemma PaletteColorRanges(i: nat, n: nat, random: nat -> real)
    requires n > 0
    requires 0.0 <= random(2 * i) < 1.0 && 0.0 <= random(2 * i + 1) < 1.0
    ensures var c := PaletteColor(i, n, random);
      0.0 <= c.hue < 360.0 && 70.0 <= c.saturation < 90.0 && 45.0 <= c.lightness < 55.0
  {
  }

  /** `generateColorPalette(numColors)`: `random(k)` is the `k`-th call of `Math.random`. */
  method GenerateColorPalette(numColors: nat, random: nat -> real) returns (colors: seq<Color>)
    ensures |colors| == numColors
    ensures forall i :: 0 <= i < numColors ==> colors[i] == PaletteColor(i, numColors, random)
  {
    colors := [];
    for i := 0 to numColors
      invariant |colors| == i
      invariant forall k :: 0 <= k < i ==> colors[k] == PaletteColor(k, numColors, random)
    {
      var hue := Remainder((i * 360) as real / numColors as real, 360.0);
      var saturation := 70.0 + random(2 * i) * 20.0;
      var lightness := 45.0 + random(2 * i + 1) * 10.0;
      colors := colors + [Hsl(hue, saturation, lightness)];
    }
  }

  // ---------------------------------------------------------------------
  // Options.
  // ---------------------------------------------------------------------

  datatype ChartOptions = ChartOptions(title: string, valueLabel: string, dynamicHeight: bool)

  /** The `options` argument: each field may be left out. */
  datatype Overrides = Overrides(title: Option<string>, valueLabel: Option<string>, dynamicHeight: Option<bool>)

  const DEFAULT_OPTIONS := ChartOptions("Untitled", "Value", true)
  const NO_OVERRIDES := Overrides(None, None, None)

  /** `{...defaults, ...options}`: a field the caller supplies wins over the default. */
  function Merge(defaults: ChartOptions, options: Overrides): (r: ChartOptions)
    ensures options == NO_OVERRIDES ==> r == defaults
    ensures options.title.Some? && options.valueLabel.Some? && options.dynamicHeight.Some? ==> Supplied(r) == options
  {
    ChartOptions(
      if options.title.Some? then options.title.value else defaults.title,
      if options.valueLabel.Some? then options.valueLabel.value else defaults.valueLabel,
      if options.dynamicHeight.Some? then options.dynamicHeight.value else defaults.dynamicHeight)
  }

  /** All fields of some options, as an argument. */
  function Supplied(o: ChartOptions): Overrides {
    Overrides(Some(o.title), Some(o.valueLabel), Some(o.dynamicHeight))
  }

  /** Two spreads in a row: the later one wins field by field. */
  function Then(first: Overrides, second: Overrides): Overrides {
    Overrides(
      if second.title.Some? then second.title else first.title,
      if second.valueLabel.Some? then second.valueLabel else first.valueLabel,
      if second.dynamicHeight.Some? then second.dynamicHeight else first.dynamicHeight)
  }

  /** Called without options, a chart uses 'Untitled', 'Value' and a dynamic height. */
  lemma MergeNothing(defaults: ChartOptions)
    ensures Merge(defaults, NO_OVERRIDES) == defaults
    ensures Merge(DEFAULT_OPTIONS, NO_OVERRIDES) == ChartOptions("Untitled", "Value", true)
  {
  }

  /** Supplying every field leaves nothing of the defaults. */
  lemma MergeEverything(defaults: ChartOptions, o: ChartOptions)
    ensures Merge(defaults, Supplied(o)) == o
  {
  }

  /** Each field comes from the caller exactly when the caller supplies it. */
  lemma MergeFieldwise(defaults: ChartOptions, options: Overrides)
    ensures var m := Merge(defaults, options);
      && (options.title.Some? ==> m.title == options.title.value)
      && (options.title.None? ==> m.title == defaults.title)
      && (options.valueLabel.Some? ==> m.valueLabel == options.valueLabel.value)
      && (options.valueLabel.None? ==> m.valueLabel == defaults.valueLabel)
      && (options.dynamicHeight.Some? ==> m.dynamicHeight == options.dynamicHeight.value)
      && (options.dynamicHeight.None? ==> m.dynamicHeight == defaults.dynamicHeight)
  {
  }

  /** Spreading two objects one after the other is spreading their combination. */
  lemma MergeTwice(defaults: ChartOptions, first: Overrides, second: Overrides)
    ensures Merge(Merge(defaults, first), second) == Merge(defaults, Then(first, second))
  {
  }

  // ---------------------------------------------------------------------
  // The data.
  // ---------------------------------------------------------------------

  /** `data.data[i]`: a bar. */
  datatype DataItem = DataItem(name: string, value: int)

  /** `processedData.map(item => item.name)`. */
  function Names(data: seq<DataItem>): (r: seq<string>)
    ensures |r| == |data| && forall i :: 0 <= i < |data| ==> r[i] == data[i].name
  {
    seq(|data|, i requires 0 <= i < |data| => data[i].name)
  }

  /** `processedData.map(item => item.value)`. */
  function Values(data: seq<DataItem>): (r: seq<int>)
    ensures |r| == |data| && forall i :: 0 <= i < |data| ==> r[i] == data[i].value
  {
    seq(|data|, i requires 0 <= i < |data| => data[i].value)
  }

  /** `processedData.reduce((sum, item) => sum + item.value, 0)`, from the left. */
  function Total(data: seq<DataItem>): int {
    if data == [] then 0 else Total(data[..|data| - 1]) + data[|data| - 1].value
  }

  /** The total of two parts is the sum of their totals. */
  lemma {:induction false} TotalConcat(a: seq<DataItem>, b: seq<DataItem>)
    ensures Total(a + b) == Total(a) + Total(b)
    decreases |b|
  {
    if b == [] {
      assert a + b == a;
    } else {
      var n := |b| - 1;
      assert (a + b)[..|a + b| - 1] == a + b[..n];
      TotalConcat(a, b[..n]);
    }
  }

  /** Non-negative values have a total of at least each of them. */
  lemma {:induction false} TotalBoundsValue(data: seq<DataItem>, i: nat)
    requires i < |data| && forall k :: 0 <= k < |data| ==> data[k].value >= 0
    ensures 0 <= data[i].value <= Total(data)
    decreases |data|
  {
    var n := |data| - 1;
    TotalNonNegative(data[..n]);
    if i < n {
      TotalBoundsValue(data[..n], i);
    }
  }

  lemma {:induction false} TotalNonNegative(data: seq<DataItem>)
    requires forall k :: 0 <= k < |data| ==> data[k].value >= 0
    ensures Total(data) >= 0
    decreases |data|
  {
    if data != [] {
      TotalNonNegative(data[..|data| - 1]);
    }
  }

  /** The tooltip of a bar: its name, the value label, its value and its percentage of the total. */
  datatype Tooltip = Tooltip(name: string, valueLabel: string, value: int, percentage: Option<real>)

  /** `values[index] / totalValue * 100`; a zero total gives no finite percentage. */
  function Percentage(value: int, totalValue: int): Option<real> {
    if totalValue == 0 then None else Some(value as real / totalValue as real * 100.0)
  }

  /** The tooltip `formatter` for the bar at `index`. */
  function TooltipOf(names: seq<string>, values: seq<int>, totalValue: int, valueLabel: string, index: nat): Tooltip
    requires index < |names| && index < |values|
  {
    Tooltip(names[index], valueLabel, values[index], Percentage(values[index], totalValue))
  }

  /** With the arrays of one response, the tooltip of bar `i` reads the name and the value of item `i` together. */
  lemma TooltipReadsItem(data: seq<DataItem>, valueLabel: string, i: nat)
    requires i < |data|
    ensures var t := TooltipOf(Names(data), Values(data), Total(data), valueLabel, i);
      t.name == data[i].name && t.value == data[i].value && t.percentage == Percentage(data[i].value, Total(data))
  {
  }

  /** The sum of the percentages of some values against one total. */
  function PercentageSum(values: seq<int>, totalValue: int): real
    requires totalValue != 0
  {
    if values == [] then 0.0
    else PercentageSum(values[..|values| - 1], totalValue) + Percentage(values[|values| - 1], totalValue).value
  }

  /** Percentages add up like the values they come from. */
  lemma {:induction false} PercentageSumOfTotal(data: seq<DataItem>, totalValue: int)
    requires totalValue != 0
    ensures PercentageSum(Values(data), totalValue) == Total(data) as real / totalValue as real * 100.0
    decreases |data|
  {
    if data != [] {
      var n := |data| - 1;
      assert Values(data)[..n] == Values(data[..n]);
      PercentageSumOfTotal(data[..n], totalValue);
      var t := totalValue as real;
      var a := Total(data[..n]) as real;
      var v := data[n].value as real;
      assert a / t * 100.0 + v / t * 100.0 == (a + v) / t * 100.0;
    }
  }

  /** The percentages of all bars of a chart with a non-zero total add up to 100. */
  lemma PercentagesAddUp(data: seq<DataItem>)
    requires Total(data) != 0
    ensures PercentageSum(Values(data), Total(data)) == 100.0
  {
    PercentageSumOfTotal(data, Total(data));
    var t := Total(data) as real;
    assert t / t == 1.0;
  }

  /** The container height in pixels for `n` bars: 40 per bar and 10 more, or 30 per bar beyond 32 bars. */
  function DynamicHeight(n: nat): (r: nat)
    ensures 30 * n <= r <= 40 * n + 10
    ensures n <= 32 ==> r == 40 * n + 10
  {
    if n > 32 then n * 30 else n * 40 + 10
  }

  /** Every bar gets between 30 and 40 pixels, and more bars never shrink the chart within one regime. */
  lemma DynamicHeightBounds(n: nat, m: nat)
    ensures 30 * n <= DynamicHeight(n) <= 40 * n + 10
    ensures (n <= m <= 32 || 32 < n <= m) ==> DynamicHeight(n) <= DynamicHeight(m)
    ensures DynamicHeight(33) < DynamicHeight(32)
  {
  }

  /** A chart and the height it writes on its container (`None` while it has written none). */
  class BarChart {
    const options: ChartOptions
    var loading: bool
    var names: seq<string>
    var values: seq<int>
    var totalValue: int
    var containerHeight: Option<nat>

    /** `echarts.init` and `showLoading`: an empty chart waiting for its data. */
    constructor(options: ChartOptions)
      ensures this.options == options && loading && names == [] && values == [] && containerHeight == None
    {
      this.options := options;
      loading := true;
      names := [];
      values := [];
      totalValue := 0;
      containerHeight := None;
    }

    /**
     * The `done` and `fail` callbacks of `$.getJSON(dataUrl)`: a failure
     * only logs; data fill the parallel arrays, set the container height
     * when the height is dynamic, and end the loading state.
     */
    method Receive(response: Option<seq<DataItem>>)
      modifies this
      ensures response.None? ==>
        && loading == old(loading) && names == old(names) && values == old(values)
        && totalValue == old(totalValue) && containerHeight == old(containerHeight)
      ensures response.Some? ==>
        && !loading && names == Names(response.value) && values == Values(response.value)
        && totalValue == Total(response.value)
        && containerHeight == if options.dynamicHeight then Some(DynamicHeight(|response.value|)) else old(containerHeight)
    {
      if response.None? {
        return;
      }
      var processedData := response.value;
      totalValue := Total(processedData);
      names := Names(processedData);
      values := Values(processedData);
      if options.dynamicHeight {
        var n := |processedData|;
        var h := n * 40 + 10;
        if n > 32 {
          h := n * 30;
        }
        containerHeight := Some(h);
      }
      loading := false;
    }
  }

  /**
   * `createHorizontalBarChart(containerId, dataUrl, options)`: `containers`
   * are the ids `document.getElementById` finds. A missing container gives
   * `undefined` and no chart.
   */
  method CreateHorizontalBarChart(containerId: string, containers: set<string>, options: Overrides) returns (r: Option<BarChart>)
    ensures r.None? <==> containerId !in containers
    ensures r.Some? ==>
      && fresh(r.value) && r.value.options == Merge(DEFAULT_OPTIONS, options)
      && r.value.loading && r.value.names == [] && r.value.values == [] && r.value.containerHeight == None
  {
    var chartOptions := Merge(DEFAULT_OPTIONS, options);
    if containerId !in containers {
      return None;
    }
    var chart := new BarChart(chartOptions);
    return Some(chart);
  }
}
