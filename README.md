# donut.rs in Dafny: a verified model of the fixed-point torus renderer

donut.rs draws a spinning torus as ASCII art in an 80 x 22 terminal grid, using
nothing but i32 fixed-point arithmetic (1024 stands for 1.0). Every frame it
clears a character buffer and a depth buffer of 1760 cells, walks 90 x 324
points of the torus, projects each point onto the grid, picks a glyph from a
12-step brightness ramp, keeps the nearest point per cell, prints the grid and
turns the torus a little by advancing two (cos, sin) orientation pairs.
Sines and cosines are never computed from scratch: every angle is stepped by
`rotate`, an angle-sum update followed by a renormalisation back toward
magnitude 1024.

The model has four modules:

- `FixedPoint` (fixed_point.dfy): `i32` and `i8` newtypes, so that Dafny
  checks every arithmetic operation for overflow the way a debug build panics
  on it; Rust's truncating `/` (`Quot`); and the nonlinear facts the range
  proofs are built from (bounded products, Cauchy-Schwarz in two and three
  dimensions). `>> k` on an i32 is floor division by 2^k, which is Dafny's
  `/` by a positive divisor.
- `Rotation` (rotation.dfy): `rotate` as a method on two i32 values and as a
  function on a `Pair`, and the magnitude band 1_000_000 <= cos^2 + sin^2 <=
  1_060_000 that every call preserves. The band is what makes the endless
  repetition of `rotate` safe.
- `Projection` (projection.dfy): the per-sample kernel, x0 .. x7, the screen
  column and row, the luminance score and glyph index, the depth `zz` and the
  buffer offset, each intermediate with a proved range. For pairs in the band
  no i32 operation overflows, `x6` is positive (no division by zero), the
  `i8::try_from` on the depth always succeeds, and the luminance score never
  exceeds 11, so the glyph lookup is always in range.
- `Frame` (frame.dfy): one iteration of the program's endless loop as
  `RenderFrame`, which fills two fresh arrays with nested `for` loops and then
  advances the orientation. It is proved equal to `Composite`, the same
  depth-tested compositing written as a fold over the samples of the frame,
  and the lemmas about the fold say what each cell ends up holding.

Behaviour of the code that a reader may not expect, all of it modelled as
src/main.rs writes it:

- The depth test keeps the SMALLER `zz`: the depth buffer starts at
  `i8::MAX` and a sample is written when `zz < z_buffer[o]`.
- A sample is written only when 0 < x < 80 and 0 < y < 22, so row 0 and
  column 0 of the grid are never written.
- The glyph index is clamped below (a negative score becomes 0) but not
  above; that it never exceeds 11 is proved, not enforced.
- The orientation pairs start at (cos, sin) = (0, 1024), a quarter turn;
  the local pairs of the two loops start at (1024, 0).
- The offset `x + (y * 80) % 1760` is exactly the row-major index `x + 80 y`
  wherever the guard holds (`Projection.Offset`), so it is a bijection from
  the visible cells onto their indices.
- The row on src/main.rs:52 is `12 + 15 * (cos_B * x4 + sin_A * x1) / x6`,
  with `sin_A` where `sin_B` might be expected; the model keeps `sin_A`.
- A `Sample` carries its glyph index as a `Shade` (below 12) and its depth as
  a `Near` (below `i8::MAX`): the program's `usize` and `i8`, narrowed to the
  ranges `Projection.Project` proves for them.

## Model

| member | source | states |
|---|---|---|
| `FixedPoint.Quot` | src/main.rs:51-52 | Rust's `/`: the quotient is truncated toward zero (magnitude bounds from both sides, sign of the operands), never larger in magnitude than the dividend; the divisor must be nonzero |
| `Rotation.Rotate` | src/main.rs:5-12 | the two variables after the call are `Rotated` of the two before (the sine is advanced from the cosine saved in `temp`, with floor shifts); no i32 operation overflows for components within 4096; a pair in the band stays in the band |
| `Rotation.Rotated` | src/main.rs:5-12 | one call of `rotate` as a value; a pair in the magnitude band comes out in the band |
| `Rotation.Iterate` | src/main.rs:72-85 | any number of calls with the same step from a pair in the band stays in the band, which is what makes the endless repetition at lines 72, 74 and 84-85 safe |
| `Rotation.RotateSafe` | src/main.rs:6-11 | for multipliers within 9, shifts 7 or 8 and components within 4096, every intermediate of `rotate` is bounded (the largest, x * temp, below 76 million), so none overflows an i32 |
| `Rotation.RotateRanges` | src/main.rs:6-11 | for a pair in the band, the intermediates of one call lie in narrow ranges and the renormalised pair is back in the band |
| `Rotation.AdvanceBounds` | src/main.rs:6-8 | the angle-sum step moves the squared magnitude of a pair in the band only into [990_000, 1_070_000] |
| `Rotation.RenormBounds` | src/main.rs:9-11 | the Newton-step renormalisation maps any pair with squared magnitude in [990_000, 1_070_000] into the band |
| `Rotation.GainBounds` | src/main.rs:9 | the renormalisation factor `temp` lies in [0, 1053] and temp^2 times the squared magnitude is at most 2^40 and within 5.1e9 of it |
| `Rotation.FirstTubeStep` | src/main.rs:5-12 | from angle 0, one call with (5, 8) yields (1023, 19) |
| `Rotation.SineUsesOldCosine` | src/main.rs:6-11 | from (0, 1024) one call with (9, 7) yields (-72, 1021), while advancing the sine from the new cosine would give (-73, 1020): the sine is advanced from the cosine saved before the step |
| `Rotation.Divisor` | src/main.rs:7-8 | `>> shift` for the shifts 7 and 8 divides by 2^shift, that is by 128 or 256 |
| `Rotation.StartsInBand` | src/main.rs:21-35 | the initial orientation pairs (0, 1024) and the restart pair (1024, 0) are in the band |
| `Projection.X0` | src/main.rs:42 | for components within 1030 (as in every pair of the band), x0 lies in [1018, 3078] |
| `Projection.X1` | src/main.rs:43 | x1 lies within 3100 of zero |
| `Projection.X2` | src/main.rs:44 | x2 lies within 1040 of zero |
| `Projection.X3` | src/main.rs:45 | x3 lies within 3100 of zero |
| `Projection.X4` | src/main.rs:46 | x4 lies within 4160 of zero |
| `Projection.X5` | src/main.rs:47 | x5 lies within 1040 of zero |
| `Projection.X6` | src/main.rs:48 | for components within 1030, x6 is positive and within 4_257_960 of K2, so the divisions on lines 51-52 never divide by zero; for pairs in the band it lies in [K2 - 105 * 2^15, K2 + 105 * 2^15) |
| `Projection.X7` | src/main.rs:49 | x7 lies within 1040 of zero |
| `Projection.Column` | src/main.rs:51 | for components within 1030, x - 40 is the numerator 30 (cos_B x1 - sin_B x4) divided by x6 and truncated toward zero, and nothing overflows |
| `Projection.Row` | src/main.rs:52 | for components within 1030, y - 12 is the numerator 15 (cos_B x4 + sin_A x1) divided by x6 and truncated toward zero, and nothing overflows |
| `Projection.Luminance` | src/main.rs:54-59 | the luminance score never exceeds 11, the last index of the glyph table, and nothing overflows |
| `Projection.GlyphIndex` | src/main.rs:60 | a negative score becomes index 0 (the dimmest glyph), a non-negative one is kept |
| `Projection.Depth` | src/main.rs:65-66 | zz is the floor of (x6 - K2) / 2^15 and lies in [-105, 105), so `i8::try_from` never fails and zz is below `i8::MAX` |
| `Projection.Project` | src/main.rs:38-66 | the kernel yields a glyph index below 12 and a depth below `i8::MAX`, with column, row, index and depth as above |
| `Projection.Offset` | src/main.rs:62-63 | under the guard the offset is x + 80 y, lies in (80, 1760), and gives back x as its remainder and y as its quotient by 80 |
| `Projection.OffsetInjective` | src/main.rs:62-68 | two visible positions share an offset exactly when they are the same position |
| `Projection.DepthSpan` | src/main.rs:47-48 | 1024 x5 + cos_A x3 lies within 105 * 2^15 of zero (Cauchy-Schwarz in two dimensions) |
| `Projection.LuminanceBound` | src/main.rs:54-59 | the luminance numerator before the last two shifts, minus 1024 x5, stays below 12 * 2^17, which keeps the score at most 11 (Cauchy-Schwarz in three dimensions) |
| `Frame.Blank` | src/main.rs:27-28 | a frame starts with every cell a blank and every depth `i8::MAX` |
| `Frame.Theta` | src/main.rs:74 | the (cos_j, sin_j) pair after any number of rotate(9, 7) steps from angle 0 (where lines 30-31 restart it) is in the band |
| `Frame.Phi` | src/main.rs:72 | the (cos_i, sin_i) pair after any number of rotate(5, 8) steps from angle 0 (where lines 34-35 restart it) is in the band |
| `Frame.FrameSamples` | src/main.rs:33-37 | a frame has 90 * 324 samples in loop order, sample 324 j + i being the kernel at (Theta(j), Phi(i)) |
| `Frame.GuardMeansWrites` | src/main.rs:62-68 | the guard as written, reading the depth at `x + (y * 80) % 1760`, holds exactly when the sample writes some cell, and that cell can only be x + 80 y |
| `Frame.Plot` | src/main.rs:68-71 | a sample writes glyph and depth to a cell exactly when it is visible, its offset is that cell, and its zz is strictly below the stored depth; every other cell is unchanged |
| `Frame.Composite` | src/main.rs:27-71 | the buffers after the first n samples: blanks and `i8::MAX` for n = 0, then each sample's depth-tested write in loop order; always 1760 cells each |
| `Frame.DrawSample` | src/main.rs:68-71 | the in-place write of one sample is the next step of the compositing fold |
| `Frame.DrawPoint` | src/main.rs:38-71 | one pass of the inner loop body: the kernel at the current pairs is sample 324 j + i of the frame, and drawing it advances the buffers by one step of the fold |
| `Frame.NextPhi` | src/main.rs:72 | rotate(5, 8) takes (cos_i, sin_i) from step i to step i + 1 |
| `Frame.NextTheta` | src/main.rs:74 | rotate(9, 7) takes (cos_j, sin_j) from step j to step j + 1 |
| `Frame.DrawSlice` | src/main.rs:34-73 | the inner loop composites the 324 samples of one tube step, in order, stepping (cos_i, sin_i) by rotate(5, 8) |
| `Frame.NewBuffers` | src/main.rs:27-28 | two fresh 1760-cell arrays holding blanks and `i8::MAX` |
| `Frame.DrawFrame` | src/main.rs:27-75 | fresh buffers reset to blanks and `i8::MAX`, then all 90 * 324 samples composited in loop order |
| `Frame.RenderFrame` | src/main.rs:27-85 | one frame: the buffers are the fold of all samples, and the orientation pairs, read but not changed while compositing, are advanced exactly once, by rotate(5, 7) and rotate(5, 8) |
| `Frame.CellContents` | src/main.rs:27-71 | after any prefix of the samples, a cell's depth is the minimum of `i8::MAX` and the zz of the samples that landed in it, it is `i8::MAX` exactly when none did, and its glyph is the blank or the glyph of the earliest sample reaching the minimum (ties keep the earlier sample) |
| `Frame.BlankIffUntouched` | src/main.rs:27-70 | a cell shows a blank exactly when its depth is `i8::MAX`, exactly when no sample landed in it |
| `Frame.BorderNeverWritten` | src/main.rs:68 | cells in row 0 or column 0 keep the blank and `i8::MAX` |
| `Frame.Screen` | src/main.rs:77-82 | the printed text has 1761 characters: a newline where k is a multiple of 80 (including k = 1760, so the buffer is never read past its end), the buffer cell elsewhere |

## Left out

- Printing, the cursor-up escape and the sleep (src/main.rs:77-82, 87-88) are I/O and pacing and are not modelled; `Frame.Screen` gives only the text the print loop writes.
- The endless outer `loop` (src/main.rs:26): the model covers one frame; `Rotation.Iterate` covers the orientation over any number of frames.
- The offset on src/main.rs:62-63 is evaluated by the program for every sample, before the guard. For a negative `x` the `as usize` cast wraps, and adding `(y * 80) % 1760` then overflows `usize` whenever that remainder is at least |x|, which panics in a debug build. The model computes the offset only where the guard holds and does not prove that the column is never negative, so it does not rule that panic out.
- `Rotation.Rotate`, `Rotation.Rotated`: require components within 4096 and a step with multiplier within 9 and shift 7 or 8; the program calls them only with pairs in the band and the steps (5, 8), (9, 7) and (5, 7). Larger inputs may overflow and are not described.
- The intermediates, column and row of `Projection` require components within 1030, and the luminance, depth and whole kernel require every pair in the band. The program only ever gives them pairs in the band; for arbitrary i32 pairs the products overflow, the depth may not fit an i8, and the glyph index may exceed 11.
- No lower bound is stated for the luminance score; a negative score is clamped to 0 by `GlyphIndex`.
- Whether the fixed-point pairs track the true sine and cosine, and how far the angles drift over many frames: that needs real analysis, and the integer code promises nothing about it.
- Whether the picture looks like a torus, or which cell shows which glyph.
