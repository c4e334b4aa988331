/** One frame of the renderer (src/main.rs:27-75, 84-85): the body of the
    program's endless `loop`, pulled out as `RenderFrame`.

    The frame clears a character buffer and a depth buffer of 1760 cells each,
    walks 90 x 324 samples of the torus (the local pairs restart at angle 0 and
    are stepped by `rotate` after each sample), writes each visible sample into
    its cell when it is strictly nearer than what the cell holds, and finally
    advances the orientation pairs once.

    The method is proved against `Composite`, the same compositing written as a
    fold over the sample sequence; the lemmas then say what the fold computes
    cell by cell: the minimum depth of the samples that land there, the glyph
    of the earliest of them reaching that minimum, and a blank exactly where
    nothing lands. */
module Frame {
  import opened FixedPoint
  import opened Rotation
  import opened Projection

  /** Samples per frame: 90 steps around the tube times 324 around the axis. */
  const TubeSteps: nat := 90
  const AxisSteps: nat := 324
  const Samples: nat := 90 * 324

  /** The two buffers of a frame, as values. */
  datatype Canvas = Canvas(glyphs: seq<char>, depths: seq<i8>)

  predicate WellSized(canvas: Canvas)
  {
    |canvas.glyphs| == BufferSize && |canvas.depths| == BufferSize
  }

  /** The buffers as a frame starts (src/main.rs:27-28). */
  function Blank(): (canvas: Canvas)
    ensures WellSized(canvas)
    ensures forall c :: 0 <= c < BufferSize ==> canvas.glyphs[c] == ' ' && canvas.depths[c] == I8Max
  {
    Canvas(seq(BufferSize, _ => ' '), seq(BufferSize, _ => I8Max))
  }

  /** The pair (cos_j, sin_j) at step j of the outer loop: j calls of
      rotate(9, 7) from angle 0 (src/main.rs:30-31, 74). */
  function Theta(j: nat): (p: Pair)
    ensures InBand(p)
  {
    StartsInBand();
    Iterate(9, 7, Start, j)
  }

  /** The pair (cos_i, sin_i) at step i of the inner loop: i calls of
      rotate(5, 8) from angle 0 (src/main.rs:34-35, 72). */
  function Phi(i: nat): (p: Pair)
    ensures InBand(p)
  {
    StartsInBand();
    Iterate(5, 8, Start, i)
  }

  /** The k-th sample of the frame, in the order the nested loops visit them:
      k = 324 * j + i. */
  function SampleAt(a: Pair, b: Pair, k: nat): (s: Sample)
    requires InBand(a) && InBand(b)
  {
    Project(a, b, Theta(k / AxisSteps), Phi(k % AxisSteps))
  }

  /** All samples of one frame, in visiting order. */
  function FrameSamples(a: Pair, b: Pair): (samples: seq<Sample>)
    requires InBand(a) && InBand(b)
    ensures FrameOf(samples, a, b)
  {
    seq(Samples, k requires 0 <= k < Samples => SampleAt(a, b, k))
  }

  /** The samples of a frame with orientation a, b, in visiting order. */
  predicate FrameOf(samples: seq<Sample>, a: Pair, b: Pair)
    requires InBand(a) && InBand(b)
  {
    |samples| == Samples && forall k {:trigger SampleAt(a, b, k)} :: 0 <= k < Samples ==> samples[k] == SampleAt(a, b, k)
  }

  /** A sample lands in cell c: it passes the bound conjuncts of the guard on
      line 68 and its offset is c. */
  predicate Hits(s: Sample, c: int)
  {
    Visible(s.x as int, s.y as int) && Offset(s.x as int, s.y as int) == c
  }

  /** The whole guard of line 68: in bounds and strictly nearer than the cell.
      The depth buffer is read only once the bound conjuncts hold. */
  predicate Writes(canvas: Canvas, s: Sample, c: int)
    requires WellSized(canvas)
  {
    Visible(s.x as int, s.y as int) && Offset(s.x as int, s.y as int) == c && s.zz < canvas.depths[c]
  }

  /** The guard of line 68 as the program writes it, reading the depth buffer
      at `x + (y * 80) % 1760`, holds exactly when the sample writes some cell,
      and the only cell it can write is x + 80 y. */
  lemma GuardMeansWrites(canvas: Canvas, s: Sample)
    requires WellSized(canvas)
    ensures var x, y := s.x as int, s.y as int;
            (22 > y && y > 0 && x > 0 && 80 > x && s.zz < canvas.depths[x + (y * 80) % 1760])
            <==> (exists c :: 0 <= c < BufferSize && Writes(canvas, s, c))
    ensures forall c :: 0 <= c < BufferSize && Writes(canvas, s, c) ==> c == s.x as int + Width * s.y as int
  {
    var x, y := s.x as int, s.y as int;
    if 22 > y && y > 0 && x > 0 && 80 > x {
      var o := Offset(x, y);
      assert o == x + (y * 80) % 1760;
      if s.zz < canvas.depths[o] {
        assert Writes(canvas, s, o);
      }
    }
  }

  /** One sample's depth-tested write (src/main.rs:68-71): cell c takes the
      sample's glyph and depth exactly when the sample lands there and is
      strictly nearer; every other cell keeps what it had. */
  function Plot(canvas: Canvas, s: Sample): (r: Canvas)
    requires WellSized(canvas)
    ensures WellSized(r)
    ensures forall c :: 0 <= c < BufferSize && Writes(canvas, s, c) ==>
              r.glyphs[c] == LuminanceChars[s.lum] && r.depths[c] == s.zz
    ensures forall c :: 0 <= c < BufferSize && !Writes(canvas, s, c) ==>
              r.glyphs[c] == canvas.glyphs[c] && r.depths[c] == canvas.depths[c]
  {
    if Visible(s.x as int, s.y as int) && s.zz < canvas.depths[Offset(s.x as int, s.y as int)] then
      var o := Offset(s.x as int, s.y as int);
      Canvas(canvas.glyphs[o := LuminanceChars[s.lum]], canvas.depths[o := s.zz])
    else
      canvas
  }

  /** The buffers after the first n samples have been composited. */
  function Composite(samples: seq<Sample>, n: nat): (canvas: Canvas)
    requires n <= |samples|
    ensures WellSized(canvas)
    decreases n
  {
    if n == 0 then Blank() else Plot(Composite(samples, n - 1), samples[n - 1])
  }

  /** One frame. The orientation pairs are read, not changed, while the frame is
      composited, and are advanced exactly once afterwards, by rotate(5, 7) and
      rotate(5, 8) (src/main.rs:84-85). */
  method RenderFrame(sinA: i32, cosA: i32, sinB: i32, cosB: i32)
    returns (buffer: array<char>, zBuffer: array<i8>, nextSinA: i32, nextCosA: i32, nextSinB: i32, nextCosB: i32)
    requires InBand(Pair(cosA, sinA)) && InBand(Pair(cosB, sinB))
    ensures fresh(buffer) && fresh(zBuffer)
    ensures Canvas(buffer[..], zBuffer[..]) == Composite(FrameSamples(Pair(cosA, sinA), Pair(cosB, sinB)), Samples)
    ensures Pair(nextCosA, nextSinA) == Rotated(5, 7, Pair(cosA, sinA))
    ensures Pair(nextCosB, nextSinB) == Rotated(5, 8, Pair(cosB, sinB))
  {
    buffer, zBuffer := DrawFrame(Pair(cosA, sinA), Pair(cosB, sinB));
    nextCosA, nextSinA := Rotate(5, 7, cosA, sinA);
    nextCosB, nextSinB := Rotate(5, 8, cosB, sinB);
  }

  /** The compositing part of a frame (src/main.rs:27-75): fresh buffers, then
      90 tube steps, with (cos_j, sin_j) restarting at angle 0 and advanced by
      rotate(9, 7) after each. */
  method DrawFrame(a: Pair, b: Pair) returns (buffer: array<char>, zBuffer: array<i8>)
    requires InBand(a) && InBand(b)
    ensures fresh(buffer) && fresh(zBuffer)
    ensures Canvas(buffer[..], zBuffer[..]) == Composite(FrameSamples(a, b), Samples)
  {
    buffer, zBuffer := NewBuffers();
    ghost var samples := FrameSamples(a, b);
    var sinJ: i32, cosJ: i32 := 0, 1024;
    for j := 0 to TubeSteps
      invariant Pair(cosJ, sinJ) == Theta(j)
      invariant Canvas(buffer[..], zBuffer[..]) == Composite(samples, AxisSteps * j)
    {
      DrawSlice(buffer, zBuffer, a, b, j, cosJ, sinJ, samples);
      cosJ, sinJ := NextTheta(cosJ, sinJ, j);
    }
  }

  /** Fresh buffers as a frame starts (src/main.rs:27-28). */
  method NewBuffers() returns (buffer: array<char>, zBuffer: array<i8>)
    ensures fresh(buffer) && fresh(zBuffer)
    ensures buffer.Length == BufferSize && zBuffer.Length == BufferSize
    ensures Canvas(buffer[..], zBuffer[..]) == Blank()
  {
    buffer := new char[BufferSize](_ => ' ');
    zBuffer := new i8[BufferSize](_ => I8Max);
  }

  /** One pass of the inner loop (src/main.rs:34-73): the 324 samples at tube
      step j, with (cos_i, sin_i) restarting at angle 0 and advanced by
      rotate(5, 8) after each sample. */
  method DrawSlice(buffer: array<char>, zBuffer: array<i8>, a: Pair, b: Pair, j: nat, cosJ: i32, sinJ: i32,
                   ghost samples: seq<Sample>)
    requires InBand(a) && InBand(b) && j < TubeSteps && Pair(cosJ, sinJ) == Theta(j)
    requires FrameOf(samples, a, b)
    requires buffer.Length == BufferSize && zBuffer.Length == BufferSize
    requires Canvas(buffer[..], zBuffer[..]) == Composite(samples, AxisSteps * j)
    modifies buffer, zBuffer
    ensures Canvas(buffer[..], zBuffer[..]) == Composite(samples, AxisSteps * (j + 1))
  {
    var sinI: i32, cosI: i32 := 0, 1024;
    for i := 0 to AxisSteps
      invariant Pair(cosI, sinI) == Phi(i)
      invariant Canvas(buffer[..], zBuffer[..]) == Composite(samples, AxisSteps * j + i)
    {
      DrawPoint(buffer, zBuffer, a, b, j, i, cosJ, sinJ, cosI, sinI, samples);
      cosI, sinI := NextPhi(cosI, sinI, i);
    }
    assert AxisSteps * j + AxisSteps == AxisSteps * (j + 1);
  }

  /** The step at the end of the outer loop body (src/main.rs:74). */
  method NextTheta(cosJ: i32, sinJ: i32, ghost j: nat) returns (c: i32, s: i32)
    requires Pair(cosJ, sinJ) == Theta(j)
    ensures Pair(c, s) == Theta(j + 1)
  {
    c, s := Rotate(9, 7, cosJ, sinJ);
  }

  /** The step at the end of the inner loop body (src/main.rs:72). */
  method NextPhi(cosI: i32, sinI: i32, ghost i: nat) returns (c: i32, s: i32)
    requires Pair(cosI, sinI) == Phi(i)
    ensures Pair(c, s) == Phi(i + 1)
  {
    c, s := Rotate(5, 8, cosI, sinI);
  }

  /** One pass of the body of the inner loop (src/main.rs:38-71): the kernel
      for the current pairs, then the depth-tested write. The sample it draws
      is sample 324 j + i of the frame. */
  method DrawPoint(buffer: array<char>, zBuffer: array<i8>, a: Pair, b: Pair, j: nat, i: nat,
                   cosJ: i32, sinJ: i32, cosI: i32, sinI: i32, ghost samples: seq<Sample>)
    requires InBand(a) && InBand(b) && j < TubeSteps && i < AxisSteps
    requires Pair(cosJ, sinJ) == Theta(j) && Pair(cosI, sinI) == Phi(i)
    requires FrameOf(samples, a, b)
    requires buffer.Length == BufferSize && zBuffer.Length == BufferSize
    requires Canvas(buffer[..], zBuffer[..]) == Composite(samples, AxisSteps * j + i)
    modifies buffer, zBuffer
    ensures Canvas(buffer[..], zBuffer[..]) == Composite(samples, AxisSteps * j + i + 1)
  {
    var s := Project(a, b, Pair(cosJ, sinJ), Pair(cosI, sinI));
    ghost var k := AxisSteps * j + i;
    assert k / AxisSteps == j && k % AxisSteps == i;
    assert samples[k] == SampleAt(a, b, k);
    DrawSample(buffer, zBuffer, s, samples, k);
  }

  /** The depth-tested write of one sample into the two buffers
      (src/main.rs:68-71), in place: the k-th step of the fold `Composite`. */
  method DrawSample(buffer: array<char>, zBuffer: array<i8>, s: Sample, ghost samples: seq<Sample>, ghost k: nat)
    requires k < |samples| && s == samples[k]
    requires buffer.Length == BufferSize && zBuffer.Length == BufferSize
    requires Canvas(buffer[..], zBuffer[..]) == Composite(samples, k)
    modifies buffer, zBuffer
    ensures Canvas(buffer[..], zBuffer[..]) == Composite(samples, k + 1)
  {
    if 22 > s.y && s.y > 0 && s.x > 0 && 80 > s.x && s.zz < zBuffer[Offset(s.x as int, s.y as int)] {
      var o := Offset(s.x as int, s.y as int);
      zBuffer[o] := s.zz;
      buffer[o] := LuminanceChars[s.lum];
    }
  }

  // ---------------------------------------------------------------------------
  // What the frame holds, cell by cell

  /** After n samples, the depth of cell c is the minimum of i8::MAX and the
      depths of the samples that landed in c; it is i8::MAX exactly when none
      did; and the glyph is that of the earliest sample reaching the minimum
      (a later sample at equal depth does not replace it), or a blank when no
      sample landed. */
  lemma {:induction false} CellContents(samples: seq<Sample>, n: nat, c: int)
    requires n <= |samples| && 0 <= c < BufferSize
    ensures var canvas := Composite(samples, n);
            var d := canvas.depths[c];
            (forall k :: 0 <= k < n && Hits(samples[k], c) ==> d <= samples[k].zz)
            && (d == I8Max <==> forall k :: 0 <= k < n ==> !Hits(samples[k], c))
            && (d == I8Max ==> canvas.glyphs[c] == ' ')
            && (d != I8Max ==> exists k :: 0 <= k < n && Hits(samples[k], c) && samples[k].zz == d
                                  && canvas.glyphs[c] == LuminanceChars[samples[k].lum]
                                  && forall k' :: 0 <= k' < k && Hits(samples[k'], c) ==> d < samples[k'].zz)
    decreases n
  {
    if n > 0 {
      CellContents(samples, n - 1, c);
      var before := Composite(samples, n - 1);
      var s := samples[n - 1];
      if Writes(before, s, c) {
        assert Hits(s, c);
      } else if Hits(s, c) {
        assert before.depths[c] <= s.zz;
      }
    }
  }

  /** A cell shows a blank exactly when its depth is still i8::MAX, which is
      exactly when no sample landed in it. */
  lemma BlankIffUntouched(samples: seq<Sample>, n: nat, c: int)
    requires n <= |samples| && 0 <= c < BufferSize
    ensures var canvas := Composite(samples, n);
            (canvas.glyphs[c] == ' ' <==> canvas.depths[c] == I8Max)
            && (canvas.depths[c] == I8Max <==> forall k :: 0 <= k < n ==> !Hits(samples[k], c))
  {
    CellContents(samples, n, c);
    var canvas := Composite(samples, n);
    if canvas.depths[c] != I8Max {
      var k :| 0 <= k < n && Hits(samples[k], c) && canvas.glyphs[c] == LuminanceChars[samples[k].lum];
      assert canvas.glyphs[c] != ' ';
    }
  }

  /** Row 0 and column 0 are never written: the guard demands 0 < x and 0 < y. */
  lemma BorderNeverWritten(samples: seq<Sample>, n: nat, c: int)
    requires n <= |samples| && 0 <= c < BufferSize
    requires c < Width || c % Width == 0
    ensures Composite(samples, n).glyphs[c] == ' ' && Composite(samples, n).depths[c] == I8Max
  {
    CellContents(samples, n, c);
    forall k | 0 <= k < n
      ensures !Hits(samples[k], c)
    {
      var s := samples[k];
      if Visible(s.x as int, s.y as int) {
        var o := Offset(s.x as int, s.y as int);
        assert o % Width == s.x as int && o / Width == s.y as int;
      }
    }
  }

  /** The text one frame prints (src/main.rs:77-82): 1761 characters, a newline
      wherever k is a multiple of 80 and the buffer cell k elsewhere. Index 1760
      falls on a newline, so the loop never reads past the buffer. */
  function Screen(glyphs: seq<char>): (text: seq<char>)
    requires |glyphs| == BufferSize
    ensures |text| == BufferSize + 1 && text[BufferSize] == '\n'
    ensures forall r, col :: 0 <= r < Height && 0 <= col < Width ==>
              text[Cell(r, col)] == (if col == 0 then '\n' else glyphs[Cell(r, col)])
  {
    seq(BufferSize + 1, k requires 0 <= k < BufferSize + 1 => if k % Width == 0 then '\n' else glyphs[k])
  }

  /** The index of row r, column col of the grid. */
  function Cell(r: int, col: int): int
  {
    Width * r + col
  }
}
