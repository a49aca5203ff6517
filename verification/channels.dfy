/** The channel de-interleaver of `draw`: channel `c` of an interleaved
    sample stream is `iter().skip(c).step_by(n)`, and each of its samples
    becomes the point `(i, sample)` where `i` counts within the channel. */
module Channels {
  import opened Arith
  import opened Samples

  /** A chart point; `x` is the position within its channel. */
  datatype Point = Point(x: nat, y: nat)

  /** `i * n`, written as repeated addition so that the stride contracts stay
      linear for the solver; `OffsetIsProduct` connects the two. */
  function Offset(i: nat, n: nat): nat {
    if i == 0 then 0 else Offset(i - 1, n) + n
  }

  lemma {:induction false} OffsetIsProduct(i: nat, n: nat)
    ensures Offset(i, n) == i * n
  {
    if i > 0 {
      OffsetIsProduct(i - 1, n);
    }
  }

  /** How many of the positions `c, c + n, c + 2n, ...` lie below `len`. */
  function StrideCount(len: nat, n: nat, c: nat): nat
    requires n > 0
    decreases len - c
  {
    if c < len then 1 + StrideCount(len, n, c + n) else 0
  }

  /** Position `i` is counted exactly when `c + i * n` lies below `len`. */
  lemma {:induction false} StrideCountIndex(len: nat, n: nat, c: nat, i: nat)
    requires n > 0
    ensures i < StrideCount(len, n, c) <==> c + Offset(i, n) < len
    decreases i
  {
    if i > 0 && c < len {
      StrideCountIndex(len, n, c + n, i - 1);
      OffsetShift(i, n);
    }
  }

  lemma OffsetShift(i: nat, n: nat)
    requires i > 0
    ensures Offset(i, n) == n + Offset(i - 1, n)
  {
  }

  /** Moving the start and the end by the same amount keeps the count. */
  lemma {:induction false} StrideCountShift(len: nat, n: nat, c: nat, d: nat)
    requires n > 0 && d <= c && d <= len
    ensures StrideCount(len, n, c) == StrideCount(len - d, n, c - d)
    decreases len - c
  {
    if c < len {
      StrideCountShift(len, n, c + n, d);
    }
  }

  /** The count in closed form. */
  lemma {:induction false} StrideCountFormula(len: nat, n: nat, c: nat)
    requires n > 0
    ensures StrideCount(len, n, c) == if c < len then (len - c - 1) / n + 1 else 0
    decreases len - c
  {
    if c < len {
      StrideCountFormula(len, n, c + n);
      if c + n < len {
        DivAddDivisor(len - c - n - 1, n);
      } else {
        DivModUnique(len - c - 1, n, 0, len - c - 1);
      }
    }
  }

  /** `Iterator::skip(c)`: everything after the first `c` elements, and
      nothing when there are fewer than `c`. */
  function Skip<T>(s: seq<T>, c: nat): (r: seq<T>)
    ensures |r| == if c <= |s| then |s| - c else 0
    ensures forall i :: 0 <= i < |r| ==> r[i] == s[c + i]
  {
    if c <= |s| then s[c..] else []
  }

  /** `Iterator::step_by(n)`: the first element, then every `n`-th one after it. */
  function StepBy<T>(t: seq<T>, n: nat): (r: seq<T>)
    requires n > 0
    ensures |r| == StrideCount(|t|, n, 0)
    ensures forall i :: 0 <= i < |r| ==> Offset(i, n) < |t| && r[i] == t[Offset(i, n)]
    decreases |t|
  {
    if t == [] then []
    else
      var rest := StepBy(t[Min(n, |t|)..], n);
      StepByStep(t, n, rest);
      [t[0]] + rest
  }

  /** One `step_by` step: the first element followed by the stepping of
      what is left after `n` elements. When fewer than `n` elements remain,
      the rest is empty and the first element is the only one. */
  lemma StepByStep<T>(t: seq<T>, n: nat, rest: seq<T>)
    requires 0 < n && 0 < |t|
    requires |rest| == StrideCount(|t[Min(n, |t|)..]|, n, 0)
    requires forall i :: 0 <= i < |rest| ==>
               Offset(i, n) < |t[Min(n, |t|)..]| && rest[i] == t[Min(n, |t|)..][Offset(i, n)]
    ensures |[t[0]] + rest| == StrideCount(|t|, n, 0)
    ensures forall i :: 0 <= i < |rest| + 1 ==>
              Offset(i, n) < |t| && ([t[0]] + rest)[i] == t[Offset(i, n)]
  {
    if n <= |t| {
      StrideCountShift(|t|, n, n, n);
      StepByIndex(t, n, rest);
    }
  }

  /** Positions of one `step_by` step: element `i + 1` of the result is
      element `i` of the rest, which started `n` elements further on. */
  lemma StepByIndex<T>(t: seq<T>, n: nat, rest: seq<T>)
    requires 0 < n <= |t|
    requires forall i :: 0 <= i < |rest| ==>
               Offset(i, n) < |t[n..]| && rest[i] == t[n..][Offset(i, n)]
    ensures forall i :: 0 <= i < |rest| + 1 ==>
              Offset(i, n) < |t| && ([t[0]] + rest)[i] == t[Offset(i, n)]
  {
    forall i | 0 <= i < |rest| + 1
      ensures Offset(i, n) < |t| && ([t[0]] + rest)[i] == t[Offset(i, n)]
    {
      if i > 0 {
        OffsetShift(i, n);
        assert ([t[0]] + rest)[i] == rest[i - 1];
      }
    }
  }

  /** The samples of channel `c` among `n` interleaved channels, as the
      iterator chain `skip(c).step_by(n)` produces them. */
  function Channel<T>(s: seq<T>, n: nat, c: nat): (r: seq<T>)
    requires n > 0
    ensures |r| == StrideCount(|s|, n, c)
    ensures forall i :: 0 <= i < |r| ==> c + Offset(i, n) < |s| && r[i] == s[c + Offset(i, n)]
  {
    SkipCount(s, n, c);
    StepBy(Skip(s, c), n)
  }

  /** Stepping through what `skip(c)` leaves visits as many elements as
      stepping from position `c` of the whole sequence. */
  lemma SkipCount<T>(s: seq<T>, n: nat, c: nat)
    requires n > 0
    ensures StrideCount(|Skip(s, c)|, n, 0) == StrideCount(|s|, n, c)
  {
    if c <= |s| {
      StrideCountShift(|s|, n, c, c);
    }
  }

  /** Enumerating the samples and mapping each to a point, counting from
      `first`: each sample paired with its position as x, itself as y. The casts lose nothing:
      a `u16` fits in `u32`, and the position is below the buffer length. */
  function Enumerate(ys: seq<U16>, first: nat): (points: seq<Point>)
    ensures |points| == |ys|
    ensures forall i :: 0 <= i < |ys| ==> points[i] == Point(first + i, ys[i])
  {
    if ys == [] then [] else [Point(first, ys[0])] + Enumerate(ys[1..], first + 1)
  }

  /** The points of a channel from stream position `c` on, numbered from
      `first`: one point `(first + k, s[c + k * n])` per position still inside
      the stream. */
  function PointsFrom(s: seq<U16>, n: nat, c: nat, first: nat): (points: seq<Point>)
    requires n > 0
    ensures |points| == StrideCount(|s|, n, c)
    ensures forall i :: 0 <= i < |points| ==>
              c + Offset(i, n) < |s| && points[i] == Point(first + i, s[c + Offset(i, n)])
    decreases |s| - c
  {
    if c < |s| then
      var rest := PointsFrom(s, n, c + n, first + 1);
      PointsStep(s, n, c, first, rest);
      [Point(first, s[c])] + rest
    else
      []
  }

  /** One step of `PointsFrom`: the point at `c` followed by the rest, which
      started `n` samples further on, so point `i + 1` is point `i` of the
      rest and there is one point more than in the rest. */
  lemma PointsStep(s: seq<U16>, n: nat, c: nat, first: nat, rest: seq<Point>)
    requires 0 < n && c < |s|
    requires |rest| == StrideCount(|s|, n, c + n)
    requires forall i :: 0 <= i < |rest| ==>
               c + n + Offset(i, n) < |s| && rest[i] == Point(first + 1 + i, s[c + n + Offset(i, n)])
    ensures |[Point(first, s[c])] + rest| == StrideCount(|s|, n, c)
    ensures forall i :: 0 <= i < |rest| + 1 ==>
              c + Offset(i, n) < |s| && ([Point(first, s[c])] + rest)[i] == Point(first + i, s[c + Offset(i, n)])
  {
    forall i | 0 <= i < |rest| + 1
      ensures c + Offset(i, n) < |s| && ([Point(first, s[c])] + rest)[i] == Point(first + i, s[c + Offset(i, n)])
    {
      if i > 0 {
        OffsetShift(i, n);
        assert ([Point(first, s[c])] + rest)[i] == rest[i - 1];
      }
    }
  }

  /** The line series of channel `c`: its `i`-th point is `(i, s[c + i * n])`,
      with the channel-local index as x, not the global sample index. */
  function ChannelPoints(s: seq<U16>, n: nat, c: nat): (points: seq<Point>)
    requires n > 0
    ensures |points| == StrideCount(|s|, n, c)
    ensures forall i :: 0 <= i < |points| ==>
              c + Offset(i, n) < |s| && points[i] == Point(i, s[c + Offset(i, n)])
  {
    PointsFrom(s, n, c, 0)
  }

  /** The series of a channel is exactly what the iterator chain
      `iter().skip(c).step_by(n).enumerate().map(...)` yields. */
  lemma ChannelPointsIsIteratorChain(s: seq<U16>, n: nat, c: nat)
    requires n > 0
    ensures ChannelPoints(s, n, c) == Enumerate(Channel(s, n, c), 0)
  {
    var points, chain := ChannelPoints(s, n, c), Enumerate(Channel(s, n, c), 0);
    assert |points| == |chain|;
    forall i | 0 <= i < |points|
      ensures points[i] == chain[i]
    {
    }
  }

  /** The `i`-th point of channel `c` exists exactly when `c + i * n` is a
      sample index, and it is `(i, s[c + i * n])`. */
  lemma ChannelPointAt(s: seq<U16>, n: nat, c: nat, i: nat)
    requires n > 0
    ensures i < |ChannelPoints(s, n, c)| <==> c + i * n < |s|
    ensures c + i * n < |s| ==> ChannelPoints(s, n, c)[i] == Point(i, s[c + i * n])
  {
    OffsetIsProduct(i, n);
    StrideCountIndex(|s|, n, c, i);
    if c + i * n < |s| {
      SampleAtOffset(s, n, c, i);
      assert s[c + Offset(i, n)] == s[c + i * n];
    }
  }

  /** Per-channel point count: the first `|s| % n` channels get one point more
      than the others. */
  lemma ChannelLength(s: seq<U16>, n: nat, c: nat)
    requires 0 <= c < n
    ensures |ChannelPoints(s, n, c)| == |s| / n + (if c < |s| % n then 1 else 0)
  {
    StrideCountFormula(|s|, n, c);
    ChannelLengthArith(|s|, n, c);
  }

  lemma ChannelLengthArith(len: nat, n: nat, c: nat)
    requires 0 <= c < n
    ensures (if c < len then (len - c - 1) / n + 1 else 0)
            == len / n + (if c < len % n then 1 else 0)
  {
    var q, r := len / n, len % n;
    if c < len {
      if c < r {
        DivModUnique(len - c - 1, n, q, r - c - 1);
      } else {
        DivModUnique(len - c - 1, n, q - 1, n + r - c - 1);
      }
    } else {
      DivModUnique(len, n, 0, len);
    }
  }

  /** Every x-coordinate is at most `|s| / n`, and it reaches `|s| / n`, one
      past the half-open x-range `0..|s| / n`, exactly for the channels that
      received a sample of the final, incomplete round. */
  lemma LastPointX(s: seq<U16>, n: nat, c: nat)
    requires 0 <= c < n
    ensures forall p :: p in ChannelPoints(s, n, c) ==> p.x <= |s| / n
    ensures (exists p :: p in ChannelPoints(s, n, c) && p.x == |s| / n) <==> c < |s| % n
  {
    var points := ChannelPoints(s, n, c);
    ChannelLength(s, n, c);
    forall p | p in points
      ensures p.x <= |s| / n
    {
      var i :| 0 <= i < |points| && points[i] == p;
    }
    if c < |s| % n {
      assert points[|points| - 1].x == |s| / n;
    }
  }

  /** The channel that sample `j` belongs to, `j % n`, computed by
      subtracting whole rounds of `n` so that the contracts stay linear. */
  function ChannelOf(j: nat, n: nat): nat
    requires n > 0
    decreases j
  {
    if j < n then j else ChannelOf(j - n, n)
  }

  /** The round, and so the position within its channel, of sample `j`:
      `j / n`. */
  function PositionOf(j: nat, n: nat): nat
    requires n > 0
    decreases j
  {
    if j < n then 0 else 1 + PositionOf(j - n, n)
  }

  /** Sample `j` sits at position `PositionOf(j, n)` of channel `ChannelOf(j, n)`. */
  lemma {:induction false} StrideDecomposition(j: nat, n: nat)
    requires n > 0
    ensures ChannelOf(j, n) < n
    ensures ChannelOf(j, n) + Offset(PositionOf(j, n), n) == j
    decreases j
  {
    if j >= n {
      StrideDecomposition(j - n, n);
      OffsetShift(PositionOf(j, n), n);
    }
  }

  /** `ChannelOf` and `PositionOf` are the remainder and the quotient. */
  lemma ChannelOfIsRemainder(j: nat, n: nat)
    requires n > 0
    ensures ChannelOf(j, n) == j % n
    ensures PositionOf(j, n) == j / n
  {
    StrideDecomposition(j, n);
    OffsetIsProduct(PositionOf(j, n), n);
    DivModUnique(j, n, PositionOf(j, n), ChannelOf(j, n));
  }

  /** De-interleaving loses nothing: sample `j` is the point at position
      `j / n` of channel `j % n`, and that position is also its x-coordinate.
      The first clause states the same with the recursive `ChannelOf` and
      `PositionOf`. */
  lemma Reconstruction(s: seq<U16>, n: nat)
    requires n > 0
    ensures forall j :: 0 <= j < |s| ==>
              PositionOf(j, n) < |ChannelPoints(s, n, ChannelOf(j, n))|
              && ChannelPoints(s, n, ChannelOf(j, n))[PositionOf(j, n)] == Point(PositionOf(j, n), s[j])
    ensures forall j :: 0 <= j < |s| ==>
              j / n < |ChannelPoints(s, n, j % n)|
              && ChannelPoints(s, n, j % n)[j / n] == Point(j / n, s[j])
  {
    forall j | 0 <= j < |s| {
      SampleInItsChannel(s, n, j, j / n, j % n);
    }
  }

  /** Sample `j` as the point of its channel, once with the recursive channel
      and position and once with the remainder `r` and quotient `q`. */
  lemma SampleInItsChannel(s: seq<U16>, n: nat, j: nat, q: nat, r: nat)
    requires n > 0 && j < |s|
    requires q == j / n && r == j % n
    ensures PositionOf(j, n) < |ChannelPoints(s, n, ChannelOf(j, n))|
            && ChannelPoints(s, n, ChannelOf(j, n))[PositionOf(j, n)] == Point(PositionOf(j, n), s[j])
    ensures q < |ChannelPoints(s, n, r)| && ChannelPoints(s, n, r)[q] == Point(q, s[j])
  {
    StrideDecomposition(j, n);
    var c, i := ChannelOf(j, n), PositionOf(j, n);
    SampleAtOffset(s, n, c, i);
    assert s[c + Offset(i, n)] == s[j];
    ChannelOfIsRemainder(j, n);
  }

  lemma SampleAtOffset(s: seq<U16>, n: nat, c: nat, i: nat)
    requires n > 0 && c + Offset(i, n) < |s|
    ensures i < |ChannelPoints(s, n, c)|
    ensures ChannelPoints(s, n, c)[i] == Point(i, s[c + Offset(i, n)])
  {
    StrideCountIndex(|s|, n, c, i);
  }

  /** De-interleaving duplicates nothing: distinct (channel, position) pairs
      read distinct samples. */
  lemma StrideIndexInjective(n: nat, c1: nat, i1: nat, c2: nat, i2: nat)
    requires c1 < n && c2 < n
    requires c1 + i1 * n == c2 + i2 * n
    ensures c1 == c2 && i1 == i2
  {
    DivModUnique(c1 + i1 * n, n, i1, c1);
    DivModUnique(c2 + i2 * n, n, i2, c2);
  }

  /** Total number of points of channels `0 .. k - 1`. */
  function PointCount(s: seq<U16>, n: nat, k: nat): nat
    requires n > 0
  {
    if k == 0 then 0 else PointCount(s, n, k - 1) + |ChannelPoints(s, n, k - 1)|
  }

  lemma {:induction false} PartialPointCount(s: seq<U16>, n: nat, k: nat)
    requires 0 < n && k <= n
    ensures PointCount(s, n, k) == k * (|s| / n) + Min(k, |s| % n)
  {
    if k > 0 {
      PartialPointCount(s, n, k - 1);
      ChannelLength(s, n, k - 1);
      PartialSumStep(|s| / n, |s| % n, k);
    }
  }

  lemma PartialSumStep(q: nat, r: nat, k: nat)
    requires k > 0
    ensures k * q + Min(k, r) == (k - 1) * q + Min(k - 1, r) + q + (if k - 1 < r then 1 else 0)
  {
  }

  /** The channels together hold exactly as many points as there are samples. */
  lemma TotalPointCount(s: seq<U16>, n: nat)
    requires n > 0
    ensures PointCount(s, n, n) == |s|
  {
    PartialPointCount(s, n, n);
    WholeRounds(|s|, n);
  }

  /** `n` channels of `len / n` points plus one extra point for each of the
      first `len % n` channels make up `len`. */
  lemma WholeRounds(len: nat, n: nat)
    requires n > 0
    ensures n * (len / n) + Min(n, len % n) == len
  {
  }

  /** Six samples over three channels: channel 0 is `[1, 4]`, channel 1 is
      `[2, 5]` and channel 2 is `[3, 6]`. */
  lemma ThreeChannelExample()
    ensures Channel([1, 2, 3, 4, 5, 6], 3, 0) == [1, 4]
    ensures Channel([1, 2, 3, 4, 5, 6], 3, 1) == [2, 5]
    ensures Channel([1, 2, 3, 4, 5, 6], 3, 2) == [3, 6]
  {
    var s := [1, 2, 3, 4, 5, 6];
    assert Channel(s, 3, 0) == [s[0], s[3]];
    assert Channel(s, 3, 1) == [s[1], s[4]];
    assert Channel(s, 3, 2) == [s[2], s[5]];
  }
}
