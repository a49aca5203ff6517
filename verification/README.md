# wasm-channels-plot in Dafny

This project models the logic of `src/plot.rs`, a WebAssembly module that plots interleaved
multi-channel sensor samples (for example RPM data) in a browser canvas. It has two pure parts.
Both are modelled as Dafny functions and proved correct.

- **Sample decoding** (`read_file`). The raw byte buffer is split into consecutive,
  non-overlapping byte pairs (`chunks_exact(2)`). Each pair `[lo, hi]` becomes the `u16`
  `lo + 256 * hi` (`u16::from_le_bytes`). A final unpaired byte is dropped. Module `Samples`
  (`samples.dfy`).
- **Channel de-interleaving** (the pure part of `draw`). Channel `c` of `n` interleaved channels
  is `iter().skip(c).step_by(n)`, so it holds samples `c, c + n, c + 2n, ...`. Its `i`-th sample
  becomes the point `(i, sample)`. Module `Channels` (`channels.dfy`).
- **Chart layout** (the rest of `draw`). Only channels below `min(n, 5)` get a series, because
  the loop enumerates the five-entry `COLORS` table. Channel `c` is drawn in `COLORS[c]`. The
  x-range is `0..len / n`. The y-range is `min - 200 .. max + 200`, computed in `u32`. Module
  `Chart` (`chart.dfy`).

`arith.dfy` (module `Arith`) holds the facts about Euclidean division that the stride arithmetic
uses. Bytes are the subset type `Byte` (`0..255`) and samples are `U16` (`0..65535`).

The places where the Rust code panics are preconditions, not error results:

- `n > 0`: the division on line 67, and `step_by(0)` panics.
- At least one complete byte pair: `min().unwrap()` and `max().unwrap()` on lines 68-69.
- Every sample at least 200: the `u32` subtraction on line 78. A debug build panics there; a
  release build wraps around instead. Neither outcome is modelled.

The code differs from a reading of its intent in several places. The model follows the code:

- An empty buffer decodes to an empty sequence. It is not an error.
- More than five channels are not an error. Channels from 5 on are silently not drawn.
- The y lower bound is not clamped at zero. A minimum below 200 is excluded by a precondition.
- The channels are not truncated to a common length. The first `len % n` channels have one point
  more than the others, so their last point has x = `len / n`. That is one past the half-open
  x-range `0..len / n` (`Channels.LastPointX`).

## Model

| member | source | states |
|---|---|---|
| `Samples.FromLeBytes` | src/plot.rs:48 | the first byte of a pair is the low-order byte: the word modulo 256 is `lo`, and the word divided by 256 is `hi` |
| `Samples.ToLeBytes` | src/plot.rs:48 | splitting a word into two bytes is undone by `from_le_bytes` |
| `Samples.Decode` | src/plot.rs:45-49 | one sample per complete byte pair (`\|bytes\| / 2` of them); sample `i` is `bytes[2i] + 256 * bytes[2i+1]`, below 65536 by its type |
| `Samples.Encode` | src/plot.rs:48 | the little-endian encoding that the decoder reverses: two bytes per word, low byte first |
| `Samples.ReadFile` | src/plot.rs:36-52 | the pairwise loop of `read_file` yields exactly the decoded sequence, for every buffer including the empty one |
| `Samples.DecodeEncode` | src/plot.rs:46-49 | round trip: decoding the little-endian encoding of any `u16` sequence returns that sequence |
| `Samples.EncodeDecode` | src/plot.rs:46-49 | round trip the other way: an even-length buffer is the encoding of its decoding |
| `Samples.DecodeEvenPrefix` | src/plot.rs:46-47 | decoding depends only on the largest even-length prefix of the buffer |
| `Samples.DecodeDropsOddByte` | src/plot.rs:46-47 | an odd-length buffer decodes like the buffer without its last byte |
| `Samples.DecodeAppend` | src/plot.rs:46-49 | decoding an even-length front followed by a back is the front's decoding followed by the back's |
| `Samples.RecordedFileStart` | src/plot.rs:124-130 | a buffer starting `44 09 F3 06 D1 05` decodes to samples starting `0x944, 0x6f3, 0x5d1`, whatever follows |
| `Channels.Skip` | src/plot.rs:93 | `skip(c)` yields `len - c` elements when `c <= len` and none otherwise, and its `i`-th element is `s[c + i]` |
| `Channels.StepBy` | src/plot.rs:94 | `step_by(n)` keeps element `i * n` as its `i`-th element, and keeps as many elements as there are such positions |
| `Channels.Channel` | src/plot.rs:91-94 | the `i`-th sample of channel `c` is `s[c + i * n]`, for every position `c + i * n` inside the stream |
| `Channels.StrideCountFormula` | src/plot.rs:93-94 | `skip(c).step_by(n)` over `len` samples yields `(len - c - 1) / n + 1` elements when `c < len`, and none otherwise |
| `Channels.Enumerate` | src/plot.rs:95-96 | `enumerate().map(...)` pairs the `i`-th sample with x = `i`, one point per sample |
| `Channels.ChannelPoints` | src/plot.rs:91-96 | the `i`-th point of channel `c` is `(i, s[c + i * n])`; x is the index within the channel, not the global index |
| `Channels.ChannelPointsIsIteratorChain` | src/plot.rs:91-96 | the closed form `ChannelPoints` equals the iterator chain `skip(c).step_by(n).enumerate()` built from `Channel` and `Enumerate` |
| `Channels.ChannelPointAt` | src/plot.rs:91-96 | channel `c` has an `i`-th point exactly when `c + i * n < len`, and that point is `(i, s[c + i * n])` |
| `Channels.ChannelLength` | src/plot.rs:91-96 | channel `c < n` has `len / n` points, plus one when `c < len % n` |
| `Channels.LastPointX` | src/plot.rs:76-96 | no point has x above `len / n`, and a channel has a point at x = `len / n` (outside the x-range `0..len / n`) exactly when `c < len % n` |
| `Channels.ChannelOfIsRemainder` | src/plot.rs:93-94 | the channel `ChannelOf(j, n)` that sample `j` falls into is `j % n`, and its position `PositionOf(j, n)` there is `j / n` |
| `Channels.Reconstruction` | src/plot.rs:91-96 | no sample is lost: every sample `j` appears, with its value `s[j]`, as the point at position `j / n` of channel `j % n`; its x-coordinate is `j / n` |
| `Channels.StrideIndexInjective` | src/plot.rs:93-94 | no sample is read twice: two (channel, position) pairs with channels below `n` that name the same sample index are equal |
| `Channels.TotalPointCount` | src/plot.rs:91-96 | the `n` channels together hold exactly `len` points |
| `Channels.ThreeChannelExample` | src/plot.rs:91-94 | samples `[1..6]` over 3 channels split into `[1, 4]`, `[2, 5]` and `[3, 6]` |
| `Chart.DrawnFrom` | src/plot.rs:88 | enumerating `COLORS` from entry `k` and keeping indices below `n` yields the pairs `(c, COLORS[c])` for `k <= c < min(n, 5)` |
| `Chart.DrawnChannels` | src/plot.rs:88 | exactly the channels `0 .. min(n, 5) - 1` are drawn, channel `c` in colour `COLORS[c]` |
| `Chart.SeqMin` | src/plot.rs:68 | the minimum is a sample, and no sample is below it |
| `Chart.SeqMax` | src/plot.rs:69 | the maximum is a sample, and no sample is above it |
| `Chart.XRange` | src/plot.rs:67-77 | the x-range starts at 0 and ends at the number of complete rounds of `n` samples: `end * n <= len < (end + 1) * n` |
| `Chart.YRange` | src/plot.rs:78 | when every sample is at least 200: the range starts 200 below the least sample and ends 200 above the greatest, and both ends fit in `u32` |
| `Chart.SeriesFor` | src/plot.rs:88-101 | one series per drawn channel, in drawing order: the `k`-th series carries the `k`-th drawn channel, its colour, and that channel's points |
| `Chart.Plot` | src/plot.rs:67-101 | for decoded samples: x-range `0..len / n`; the y-range of `YRange`; one series per channel below `min(n, 5)`, holding that channel's points in `COLORS[c]`; every plotted point lies strictly inside the y-range |
| `Chart.Draw` | src/plot.rs:54-101 | for a buffer of `len` bytes: x-range `0..(len / 2) / n`; y-range from the least and greatest decoded sample; one series per channel below `min(n, 5)`, holding that channel's points in `COLORS[c]` |

## Left out

- `greet`, `alert`, `starting` and `console.log` (src/plot.rs:12-31, 40): host diagnostics with no effect on the result.
- The copy from the JavaScript `Uint8Array` into a `Vec<u8>` (src/plot.rs:42-43): the buffer is modelled directly as `seq<Byte>`.
- `read_file` returns `Result<Vec<u16>, Error>` but never fails. `ReadFile` returns the samples directly.
- Canvas and plotters calls are not modelled: the backend, `fill`, the caption, margins and label areas, the mesh, the legend styling, `present` and `into_coord_trans`. They wrap an external library whose source is not part of this model. Errors that library reports through `?` are not modelled either.
- The series label text `y = channel {c}` is modelled as the channel number `c` of each `Series`.
- The `as u32` casts on positions and samples (src/plot.rs:96) and on the x-range end `chart_data_len as u32` (src/plot.rs:77). They lose nothing. A `u16` fits in `u32`. Positions and the x-range end are at most the sample count, which is below the buffer length. The buffer length is below 2^32, because `Uint8Array::length()` returns a `u32` (src/plot.rs:42).
- `site/index.js` (DOM lookups, `FileReader` callbacks, user messages) and `site/webpack.config.js` (build configuration): browser I/O and build setup, not logic.
- Chart.YRange: defined only when every sample is at least 200. For a smaller minimum, the Rust `u32` subtraction panics in a debug build and wraps in a release build; neither outcome is modelled.
- Chart.Draw: defined only where the Rust code does not panic: `n > 0`, at least two bytes, and every sample at least 200.
