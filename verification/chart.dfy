/** The pure part of `draw`: which channels get a line series and in which
    colour, the points of each series, and the two axis ranges handed to the
    charting library. */
module Chart {
  import opened Arith
  import opened Samples
  import opened Channels

  /** The palette entries of `COLORS`. */
  datatype Color = Red | Green | Blue | Cyan | Magenta

  /** `COLORS`: one colour per drawable channel, in channel order. */
  const COLORS: seq<Color> := [Red, Green, Blue, Cyan, Magenta]

  /** Exclusive upper bound of `u32`, the coordinate type of the chart. */
  const U32_LIMIT: int := 0x1_0000_0000

  /** Margin added below the minimum and above the maximum on the y-axis. */
  const Y_MARGIN: nat := 200

  /** A half-open axis range `start..end`. */
  datatype Range = Range(start: int, end: int)

  /** One line series: the channel it shows, its colour and its points. */
  datatype Series = Series(channel: nat, color: Color, points: seq<Point>)

  /** Everything `draw` hands to the charting library. */
  datatype ChartModel = ChartModel(x: Range, y: Range, series: seq<Series>)

  /** The palette enumerated with its indices and filtered to the indices
      below the channel count, continued from entry `k`: every entry is
      visited, and those whose index is at least the channel count are
      skipped. */
  function DrawnFrom(n: nat, k: nat): (drawn: seq<(nat, Color)>)
    requires k <= |COLORS|
    ensures |drawn| == if k < Min(n, |COLORS|) then Min(n, |COLORS|) - k else 0
    ensures forall m :: 0 <= m < |drawn| ==> drawn[m] == (k + m, COLORS[k + m])
    decreases |COLORS| - k
  {
    if k == |COLORS| then []
    else (if k < n then [(k, COLORS[k])] else []) + DrawnFrom(n, k + 1)
  }

  /** The channels that get a series: `0 .. min(n, 5) - 1`, channel `c` in
      colour `COLORS[c]`. Channels from 5 on are never drawn. */
  function DrawnChannels(n: nat): (drawn: seq<(nat, Color)>)
    ensures |drawn| == Min(n, |COLORS|)
    ensures forall c :: 0 <= c < |drawn| ==> drawn[c] == (c, COLORS[c])
  {
    DrawnFrom(n, 0)
  }

  /** `iter().min().unwrap()`. */
  function SeqMin(s: seq<U16>): (m: U16)
    requires |s| > 0
    ensures m in s
    ensures forall i :: 0 <= i < |s| ==> m <= s[i]
  {
    if |s| == 1 then s[0]
    else
      var rest := SeqMin(s[1..]);
      if s[0] <= rest then s[0] else rest
  }

  /** `iter().max().unwrap()`. */
  function SeqMax(s: seq<U16>): (m: U16)
    requires |s| > 0
    ensures m in s
    ensures forall i :: 0 <= i < |s| ==> s[i] <= m
  {
    if |s| == 1 then s[0]
    else
      var rest := SeqMax(s[1..]);
      if s[0] >= rest then s[0] else rest
  }

  /** The x-range `0..len / n`: it starts at the first position and ends at
      the number of complete rounds of `n` samples in the stream. */
  function XRange(len: nat, n: nat): (r: Range)
    requires n > 0
    ensures r.start == 0 && r.end >= 0
    ensures r.end * n <= len < (r.end + 1) * n
  {
    DivBracket(len, n);
    Range(0, len / n)
  }

  /** The y-range `min - 200 .. max + 200`, in `u32`. The subtraction is only
      defined when every sample is at least 200. */
  function YRange(s: seq<U16>): (r: Range)
    requires |s| > 0
    requires forall w :: w in s ==> w >= Y_MARGIN
    ensures 0 <= r.start && r.end < U32_LIMIT
    ensures r.start + Y_MARGIN in s && r.end - Y_MARGIN in s
    ensures forall i :: 0 <= i < |s| ==> r.start + Y_MARGIN <= s[i] <= r.end - Y_MARGIN
  {
    Range(SeqMin(s) - Y_MARGIN, SeqMax(s) + Y_MARGIN)
  }

  /** One series per drawn channel, in the order the channels are drawn. */
  function SeriesFor(s: seq<U16>, n: nat, drawn: seq<(nat, Color)>): (series: seq<Series>)
    requires n > 0
    ensures |series| == |drawn|
    ensures forall k :: 0 <= k < |drawn| ==>
              series[k] == Series(drawn[k].0, drawn[k].1, ChannelPoints(s, n, drawn[k].0))
  {
    if drawn == [] then []
    else [Series(drawn[0].0, drawn[0].1, ChannelPoints(s, n, drawn[0].0))] + SeriesFor(s, n, drawn[1..])
  }

  /** The chart `draw` builds from the decoded samples: the x-range
      `0..len / n`, the y-range with a margin of 200, and one series per
      drawn channel. Since the y-range is padded on both sides, no plotted
      point touches its border. */
  function Plot(samples: seq<U16>, n: nat): (chart: ChartModel)
    requires n > 0
    requires |samples| > 0
    requires forall w :: w in samples ==> w >= Y_MARGIN
    ensures chart.x == Range(0, |samples| / n)
    ensures chart.y == YRange(samples)
    ensures |chart.series| == Min(n, |COLORS|)
    ensures forall c :: 0 <= c < |chart.series| ==>
              chart.series[c] == Series(c, COLORS[c], ChannelPoints(samples, n, c))
    ensures forall c, i :: 0 <= c < |chart.series| && 0 <= i < |chart.series[c].points| ==>
              chart.y.start < chart.series[c].points[i].y < chart.y.end
  {
    DrawnSeries(samples, n);
    SeriesInsideYRange(samples, n);
    ChartModel(XRange(|samples|, n), YRange(samples), SeriesFor(samples, n, DrawnChannels(n)))
  }

  /** The series of the drawn channels: channel `c` in colour `COLORS[c]`. */
  lemma DrawnSeries(s: seq<U16>, n: nat)
    requires n > 0
    ensures |SeriesFor(s, n, DrawnChannels(n))| == Min(n, |COLORS|)
    ensures forall c :: 0 <= c < |SeriesFor(s, n, DrawnChannels(n))| ==>
              SeriesFor(s, n, DrawnChannels(n))[c] == Series(c, COLORS[c], ChannelPoints(s, n, c))
  {
  }

  /** Every point of every series is a sample, so it lies strictly inside the
      y-range, which keeps a margin of 200 on both sides of all samples. */
  lemma SeriesInsideYRange(s: seq<U16>, n: nat)
    requires n > 0
    requires |s| > 0
    requires forall w :: w in s ==> w >= Y_MARGIN
    ensures forall c, i :: 0 <= c < |SeriesFor(s, n, DrawnChannels(n))| &&
                           0 <= i < |SeriesFor(s, n, DrawnChannels(n))[c].points| ==>
              YRange(s).start < SeriesFor(s, n, DrawnChannels(n))[c].points[i].y < YRange(s).end
  {
  }

  /** `draw` without the canvas: decode the buffer, size both axes and build
      one coloured series for each of the first `min(n, 5)` channels, as
      `Plot` does for the decoded samples. It
      panics (and so is not defined here) for `n == 0`, for a buffer without
      a complete byte pair, and when a sample is below 200. */
  function Draw(bytes: seq<Byte>, n: nat): (chart: ChartModel)
    requires n > 0
    requires |bytes| >= 2
    requires forall w :: w in Decode(bytes) ==> w >= Y_MARGIN
    ensures chart.x == Range(0, |bytes| / 2 / n)
    ensures chart.y == YRange(Decode(bytes))
    ensures |chart.series| == Min(n, |COLORS|)
    ensures forall c :: 0 <= c < |chart.series| ==>
              chart.series[c] == Series(c, COLORS[c], ChannelPoints(Decode(bytes), n, c))
  {
    Plot(Decode(bytes), n)
  }
}
