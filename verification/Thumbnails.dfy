/**
  The picture half of `thumbnailer.c`: fitting a video into a frame with black borders and
  copying it there row by row. Ratios are exact; the unsigned products are 32 bits wide.
 */
module Thumbnails {
  const PIXEL_SIZE := 4
  const MIN_WIDTH := 32
  const MAX_WIDTH := 4096
  const MIN_HEIGHT := 32
  const MAX_HEIGHT := 2304
  const TWO_TO_THE_32 := 0x1_0000_0000

  /** The bits of `state`; a value of the field is the set of bits that are on. */
  datatype Bit = SEEKED | VOUT | DONE

  /** A frame whose bytes can be counted in 32 bits. */
  predicate GoodFrame(fw: int, fh: int) {
    0 < fw && 0 < fh && fw * fh * PIXEL_SIZE < TWO_TO_THE_32
  }

  predicate Accepted(vw: int, vh: int) {
    MIN_WIDTH <= vw <= MAX_WIDTH && MIN_HEIGHT <= vh <= MAX_HEIGHT
  }

  /** The picture in its frame: its size, and the rows above and columns left of it. */
  datatype Geometry = Geometry(frameWidth: nat, frameHeight: nat, width: nat, height: nat, top: nat, left: nat)

  /** The video is wider, for its height, than the frame. */
  predicate Wider(fw: int, fh: int, vw: int, vh: int) {
    fw * vh < vw * fh
  }

  /** In bytes. */
  function Stride(g: Geometry): nat { g.frameWidth * PIXEL_SIZE }
  function Pitch(g: Geometry): nat { g.width * PIXEL_SIZE }
  function FrameSize(g: Geometry): nat { g.frameHeight * Stride(g) }

  /** The offset of the picture, in pixels. */
  function BlackBorders(g: Geometry): nat {
    g.top * g.frameWidth + g.left
  }

  /** The pitch, the offset and the size of the picture's buffer as the original computes them. */
  function ThumbPitch(g: Geometry): nat { Pitch(g) % TWO_TO_THE_32 }

  function WrappedBorders(g: Geometry): nat { BlackBorders(g) % TWO_TO_THE_32 }

  function BufferSize(g: Geometry): nat {
    ThumbPitch(g) * (g.height + 1) % TWO_TO_THE_32
  }

  predicate Contained(g: Geometry) {
    0 < g.frameWidth && g.top + g.height <= g.frameHeight && g.left + g.width <= g.frameWidth
  }

  // ---------------------------------------------------------------------------
  // Arithmetic
  // ---------------------------------------------------------------------------

  lemma TimesLe(a: int, b: int, d: nat)
    requires a <= b
    ensures a * d <= b * d
  {
  }

  lemma Quotient(a: nat, d: nat, q: nat)
    requires 0 < d && q * d <= a < (q + 1) * d
    ensures a / d == q
  {
    var r := a / d;
    assert a == r * d + a % d;
    if r < q {
      TimesLe(r + 1, q, d);
    } else if q < r {
      TimesLe(q + 1, r, d);
    }
  }

  lemma Cell(y: nat, x: nat, d: nat)
    requires x < d
    ensures (y * d + x) / d == y && (y * d + x) % d == x
  {
    Quotient(y * d + x, d, y);
    assert y * d + x == (y * d + x) / d * d + (y * d + x) % d;
  }

  lemma Bounds(a: nat, d: nat)
    requires 0 < d
    ensures a / d * d <= a < (a / d + 1) * d
  {
    assert a == a / d * d + a % d;
  }

  lemma Below(q: nat, d: nat, b: nat)
    requires q * d < b * d
    ensures q < b
  {
    if b <= q {
      TimesLe(b, q, d);
    }
  }

  lemma AtMost(q: nat, d: nat, b: nat)
    requires 0 < d && q * d <= b * d
    ensures q <= b
  {
    if b < q {
      TimesLe(b + 1, q, d);
    }
  }

  lemma HeightFits(fw: nat, fh: nat, vw: nat, vh: nat)
    requires 0 < vw && Wider(fw, fh, vw, vh)
    ensures fw * vh / vw + 1 <= fh
  {
    var a := fw * vh;
    var q := a / vw;
    Bounds(a, vw);
    assert a < fh * vw;
    Below(q, vw, fh);
  }

  lemma WidthFits(fw: nat, fh: nat, vw: nat, vh: nat)
    requires 0 < vh && !Wider(fw, fh, vw, vh)
    ensures fh * vw / vh <= fw
  {
    var a := fh * vw;
    var q := a / vh;
    Bounds(a, vh);
    assert a <= fw * vh;
    AtMost(q, vh, fw);
  }

  function Fit(fw: nat, fh: nat, vw: nat, vh: nat): Geometry
    requires 0 < vw && 0 < vh
  {
    if Wider(fw, fh, vw, vh) then
      HeightFits(fw, fh, vw, vh);
      var height := fw * vh / vw + 1;
      Geometry(fw, fh, fw, height, (fh - height) / 2, 0)
    else
      WidthFits(fw, fh, vw, vh);
      var width := fh * vw / vh;
      Geometry(fw, fh, width, fh, 0, (fw - width) / 2)
  }

  lemma RealTimes(x: real, y: real, d: real)
    requires 0.0 < d
    ensures x < y <==> x * d < y * d
  {
  }

  /** Comparing the ratios is comparing the cross products. */
  lemma RatioOrder(fw: nat, fh: nat, vw: nat, vh: nat)
    requires 0 < fh && 0 < vh
    ensures fw as real / fh as real < vw as real / vh as real <==> Wider(fw, fh, vw, vh)
  {
    var s, v := fw as real / fh as real, vw as real / vh as real;
    var h := fh as real * vh as real;
    assert s * h == (s * fh as real) * vh as real == fw as real * vh as real;
    assert v * h == (v * vh as real) * fh as real == vw as real * fh as real;
    assert fw as real * vh as real == (fw * vh) as real;
    assert vw as real * fh as real == (vw * fh) as real;
    assert h > 0.0;
    RealTimes(s, v, h);
  }

  /** The whole part of a real is the quotient it is squeezed into. */
  lemma FloorOfRatio(x: real, a: nat, d: nat)
    requires 0 < d && x * d as real == a as real
    ensures x.Floor == a / d
  {
    Bounds(a, d);
    var q := a / d;
    assert (q * d) as real == q as real * d as real;
    assert ((q + 1) * d) as real == (q + 1) as real * d as real;
    RealTimes(x, q as real, d as real);
    RealTimes(x, (q + 1) as real, d as real);
    assert q as real <= x < (q + 1) as real;
  }

  lemma HeightByRatio(fw: nat, vw: nat, vh: nat)
    requires 0 < vw && 0 < vh
    ensures (fw as real / (vw as real / vh as real) + 1.0).Floor == fw * vh / vw + 1
  {
    var x := fw as real / (vw as real / vh as real);
    assert x * (vw as real / vh as real) == fw as real;
    assert x * vw as real == x * (vw as real / vh as real) * vh as real == fw as real * vh as real;
    assert fw as real * vh as real == (fw * vh) as real;
    FloorOfRatio(x, fw * vh, vw);
  }

  lemma WidthByRatio(fh: nat, vw: nat, vh: nat)
    requires 0 < vw && 0 < vh
    ensures (fh as real * (vw as real / vh as real)).Floor == fh * vw / vh
  {
    var x := fh as real * (vw as real / vh as real);
    assert x * vh as real == fh as real * ((vw as real / vh as real) * vh as real) == fh as real * vw as real;
    assert fh as real * vw as real == (fh * vw) as real;
    FloorOfRatio(x, fh * vw, vh);
  }

  /** The sizes computed from the ratios are those of the fit. */
  lemma WideByRatio(fw: nat, fh: nat, vw: nat, vh: nat, height: int)
    requires 0 < fh && 0 < vw && 0 < vh && fw as real / fh as real < vw as real / vh as real
    requires height == (fw as real / (vw as real / vh as real) + 1.0).Floor
    ensures var g := Fit(fw, fh, vw, vh);
            g.width == fw && g.height == height && (fh - height) / 2 * fw == BlackBorders(g)
    ensures 0 <= height <= fh
  {
    RatioOrder(fw, fh, vw, vh);
    HeightByRatio(fw, vw, vh);
    HeightFits(fw, fh, vw, vh);
  }

  lemma TallByRatio(fw: nat, fh: nat, vw: nat, vh: nat, width: int)
    requires 0 < fh && 0 < vw && 0 < vh && fw as real / fh as real >= vw as real / vh as real
    requires width == (fh as real * (vw as real / vh as real)).Floor
    ensures var g := Fit(fw, fh, vw, vh);
            g.width == width && g.height == fh && (fw - width) / 2 == BlackBorders(g)
    ensures 0 <= width <= fw
  {
    RatioOrder(fw, fh, vw, vh);
    WidthByRatio(fh, vw, vh);
    WidthFits(fw, fh, vw, vh);
  }

  // ---------------------------------------------------------------------------
  // What the geometry promises
  // ---------------------------------------------------------------------------

  /**
    The thumbnail fits the frame and fills it in one dimension; its other dimension is within
    one pixel of the video's ratio; opposite borders differ by one pixel at most.
   */
  lemma FitIsLetterbox(fw: nat, fh: nat, vw: nat, vh: nat)
    requires GoodFrame(fw, fh) && Accepted(vw, vh)
    ensures var g := Fit(fw, fh, vw, vh);
            && g.frameWidth == fw && g.frameHeight == fh && Contained(g) && 0 < g.height
            && (if Wider(fw, fh, vw, vh)
                then g.width == fw && (g.height - 1) * vw <= g.width * vh < g.height * vw
                else g.height == fh && g.width * vh <= g.height * vw < (g.width + 1) * vh)
            && 0 <= fw - g.width - 2 * g.left <= 1 && 0 <= fh - g.height - 2 * g.top <= 1
  {
    if Wider(fw, fh, vw, vh) {
      HeightFits(fw, fh, vw, vh);
      Bounds(fw * vh, vw);
    } else {
      WidthFits(fw, fh, vw, vh);
      Bounds(fh * vw, vh);
    }
  }

  lemma Products(g: Geometry)
    requires Contained(g)
    ensures FrameSize(g) == g.frameWidth * g.frameHeight * PIXEL_SIZE
    ensures Pitch(g) <= Stride(g)
    ensures Pitch(g) * g.height <= FrameSize(g)
    ensures 0 < g.height ==> Stride(g) <= FrameSize(g)
  {
    TimesLe(Pitch(g), Stride(g), g.height);
    TimesLe(g.height, g.frameHeight, Stride(g));
    if 0 < g.height {
      TimesLe(1, g.frameHeight, Stride(g));
    }
  }

  lemma Wrapped(a: nat, b: nat)
    requires b < TWO_TO_THE_32
    ensures a <= (a + b) % TWO_TO_THE_32 <==> a + b < TWO_TO_THE_32
  {
  }

  /**
    The rows read stay inside the picture's buffer exactly when its size, with the spare row,
    fits in 32 bits; otherwise the size wraps around and the buffer is too small.
   */
  lemma BufferHoldsRowsIff(g: Geometry)
    requires Contained(g) && 0 < g.height && FrameSize(g) < TWO_TO_THE_32
    ensures Pitch(g) * g.height <= BufferSize(g) <==> Pitch(g) * (g.height + 1) < TWO_TO_THE_32
  {
    Products(g);
    assert ThumbPitch(g) == Pitch(g);
    var rows, size := Pitch(g) * g.height, Pitch(g) * (g.height + 1);
    assert size == rows + Pitch(g);
    Wrapped(rows, Pitch(g));
  }

  lemma BordersInFrame(g: Geometry)
    requires Contained(g) && g.top < g.frameHeight
    ensures BlackBorders(g) <= g.frameHeight * g.frameWidth
  {
    TimesLe(g.top + 1, g.frameHeight, g.frameWidth);
  }

  /** In a good frame neither the pitch nor the offset wraps around. */
  lemma NothingElseWraps(fw: nat, fh: nat, vw: nat, vh: nat)
    requires GoodFrame(fw, fh) && Accepted(vw, vh)
    ensures var g := Fit(fw, fh, vw, vh); ThumbPitch(g) == Pitch(g) && WrappedBorders(g) == BlackBorders(g)
  {
    FitIsLetterbox(fw, fh, vw, vh);
    var g := Fit(fw, fh, vw, vh);
    Products(g);
    BordersInFrame(g);
  }

  lemma SmallerFrame(fw: nat, fh: nat)
    requires 0 < fh && GoodFrame(fw, fh + 1)
    ensures GoodFrame(fw, fh) && fw * PIXEL_SIZE * (fh + 1) < TWO_TO_THE_32
  {
    assert fw * (fh + 1) == fw * fh + fw;
    assert fw * PIXEL_SIZE * (fh + 1) == fw * (fh + 1) * PIXEL_SIZE;
  }

  lemma OneMoreRow(g: Geometry)
    requires Contained(g) && Stride(g) * (g.frameHeight + 1) < TWO_TO_THE_32
    ensures Pitch(g) * (g.height + 1) < TWO_TO_THE_32
  {
    var wide, tall := Stride(g), g.height + 1;
    TimesLe(Pitch(g), wide, tall);
    TimesLe(tall, g.frameHeight + 1, wide);
  }

  /** A frame that leaves room for one more row is enough, whatever the video. */
  lemma RoomForOneMoreRow(fw: nat, fh: nat, vw: nat, vh: nat)
    requires 0 < fh && GoodFrame(fw, fh + 1) && Accepted(vw, vh)
    ensures var g := Fit(fw, fh, vw, vh);
            Pitch(g) * (g.height + 1) < TWO_TO_THE_32 && Pitch(g) * g.height <= BufferSize(g)
  {
    SmallerFrame(fw, fh);
    FitIsLetterbox(fw, fh, vw, vh);
    var g := Fit(fw, fh, vw, vh);
    Products(g);
    OneMoreRow(g);
    BufferHoldsRowsIff(g);
  }

  /** Without that room the buffer can be too small: a 4096 by 1024 video in a 65535 by 16384 frame. */
  lemma BufferCanBeTooSmall()
    ensures GoodFrame(65535, 16384) && Accepted(4096, 1024)
    ensures var g := Fit(65535, 16384, 4096, 1024);
            Pitch(g) * g.height > BufferSize(g)
  {
  }

  // ---------------------------------------------------------------------------
  // Copying the picture
  // ---------------------------------------------------------------------------

  /** The byte lies in one of the first `rows` rows of the picture's rectangle. */
  predicate Inside(g: Geometry, rows: nat, b: nat)
    requires 0 < g.frameWidth
  {
    var y, x := b / Stride(g), b % Stride(g);
    g.top <= y < g.top + rows && g.left * PIXEL_SIZE <= x < g.left * PIXEL_SIZE + Pitch(g)
  }

  /** Where a byte of the rectangle comes from. */
  function Source(g: Geometry, b: nat): int
    requires 0 < g.frameWidth
  {
    (b / Stride(g) - g.top) * Pitch(g) + (b % Stride(g) - g.left * PIXEL_SIZE)
  }

  lemma SourceInPicture(g: Geometry, rows: nat, b: nat)
    requires Contained(g) && rows <= g.height && Inside(g, rows, b)
    ensures 0 <= Source(g, b) < Pitch(g) * rows
  {
    var row := b / Stride(g) - g.top;
    TimesLe(0, row, Pitch(g));
    TimesLe(row + 1, rows, Pitch(g));
  }

  function ByteAt(g: Geometry, picture: seq<bv8>, rows: nat, b: nat): bv8
    requires Contained(g) && rows <= g.height && Pitch(g) * rows <= |picture|
  {
    if Inside(g, rows, b) then SourceInPicture(g, rows, b); picture[Source(g, b)] else 0
  }

  /** The picture centred on black, as far as its first `rows` rows. */
  function Painted(g: Geometry, picture: seq<bv8>, rows: nat): seq<bv8>
    requires Contained(g) && rows <= g.height && Pitch(g) * rows <= |picture|
  {
    seq(FrameSize(g), b requires 0 <= b => ByteAt(g, picture, rows, b))
  }

  /** Each byte of the rectangle is that of its source pixel; every other byte is black. */
  lemma PaintedIsLetterbox(g: Geometry, picture: seq<bv8>, y: nat, x: nat)
    requires Contained(g) && Pitch(g) * g.height <= |picture|
    requires y < g.frameHeight && x < Stride(g)
    ensures var frame := Painted(g, picture, g.height);
            var row, column := y - g.top, x - g.left * PIXEL_SIZE;
            && y * Stride(g) + x < |frame| == FrameSize(g)
            && if 0 <= row < g.height && 0 <= column < Pitch(g)
               then row * Pitch(g) + column < |picture|
                 && frame[y * Stride(g) + x] == picture[row * Pitch(g) + column]
               else frame[y * Stride(g) + x] == 0
  {
    var b := y * Stride(g) + x;
    Cell(y, x, Stride(g));
    TimesLe(y + 1, g.frameHeight, Stride(g));
    if Inside(g, g.height, b) {
      SourceInPicture(g, g.height, b);
    }
    assert Painted(g, picture, g.height)[b] == ByteAt(g, picture, g.height, b);
  }

  /** The first byte of a picture row in the frame, as the advancing destination pointer has it. */
  function RowStart(g: Geometry, row: nat): nat {
    BlackBorders(g) * PIXEL_SIZE + row * Stride(g)
  }

  lemma RowInFrame(g: Geometry, row: nat)
    requires Contained(g) && row < g.height
    ensures RowStart(g, row) == (g.top + row) * Stride(g) + g.left * PIXEL_SIZE
    ensures RowStart(g, row) + Pitch(g) <= FrameSize(g)
  {
    assert BlackBorders(g) * PIXEL_SIZE == g.top * Stride(g) + g.left * PIXEL_SIZE;
    TimesLe(g.top + row + 1, g.frameHeight, Stride(g));
  }

  /** A byte between two offsets of frame row `y` has `y` for its row and its offset for its column. */
  lemma CellOf(stride: nat, y: nat, from: nat, length: nat, b: nat)
    requires 0 < stride && from + length <= stride
    ensures y * stride + from <= b < y * stride + from + length
        <==> b / stride == y && from <= b % stride < from + length
  {
    assert b == b / stride * stride + b % stride;
    if y * stride + from <= b < y * stride + from + length {
      Quotient(b, stride, y);
    }
  }

  /** `memcpy` of one row. */
  function RowCopied(g: Geometry, frame: seq<bv8>, picture: seq<bv8>, row: nat): seq<bv8>
    requires RowStart(g, row) + Pitch(g) <= |frame| && (row + 1) * Pitch(g) <= |picture|
  {
    frame[..RowStart(g, row)] + picture[row * Pitch(g)..][..Pitch(g)] + frame[RowStart(g, row) + Pitch(g)..]
  }

  /** Copying one more row paints one more row, and touches no byte of any other. */
  lemma CopyPaints(g: Geometry, picture: seq<bv8>, row: nat)
    requires Contained(g) && row < g.height && (row + 1) * Pitch(g) <= |picture|
    ensures RowStart(g, row) + Pitch(g) <= FrameSize(g) && Pitch(g) * row <= |picture|
    ensures RowCopied(g, Painted(g, picture, row), picture, row) == Painted(g, picture, row + 1)
  {
    RowInFrame(g, row);
    TimesLe(row, row + 1, Pitch(g));
    var before, after := Painted(g, picture, row), Painted(g, picture, row + 1);
    var copied := RowCopied(g, before, picture, row);
    forall b | 0 <= b < FrameSize(g) ensures copied[b] == after[b] {
      CellOf(Stride(g), g.top + row, g.left * PIXEL_SIZE, Pitch(g), b);
      if RowStart(g, row) <= b < RowStart(g, row) + Pitch(g) {
        assert Source(g, b) == row * Pitch(g) + (b - RowStart(g, row));
      } else {
        assert Inside(g, row, b) <==> Inside(g, row + 1, b);
      }
    }
  }

  lemma NothingPainted(g: Geometry, picture: seq<bv8>)
    requires Contained(g)
    ensures Painted(g, picture, 0) == seq(FrameSize(g), _ => 0)
  {
  }

  /** The pointers of the copy loop after one more row. */
  lemma NextRow(g: Geometry, row: nat)
    ensures (row + 1) * Pitch(g) == row * Pitch(g) + Pitch(g)
    ensures RowStart(g, row + 1) == RowStart(g, row) + g.frameWidth * PIXEL_SIZE
  {
  }

  /** What `memcpy` leaves is one more row painted. */
  lemma RowPainted(g: Geometry, picture: seq<bv8>, row: nat, before: seq<bv8>, after: seq<bv8>, to: nat, from: nat)
    requires Contained(g) && row < g.height && (row + 1) * Pitch(g) <= |picture| && Pitch(g) * row <= |picture|
    requires to == RowStart(g, row) && from == row * Pitch(g) && to + Pitch(g) <= FrameSize(g)
    requires before == Painted(g, picture, row)
    requires after == before[..to] + picture[from..][..Pitch(g)] + before[to + Pitch(g)..]
    ensures Pitch(g) * (row + 1) <= |picture| && after == Painted(g, picture, row + 1)
  {
    CopyPaints(g, picture, row);
  }

  method Memcpy(dst: array<bv8>, to: nat, src: array<bv8>, from: nat, length: nat)
    requires dst != src && to + length <= dst.Length && from + length <= src.Length
    modifies dst
    ensures dst[..] == old(dst[..to]) + src[from..][..length] + old(dst[to + length..])
  {
    var i := 0;
    while i < length
      invariant 0 <= i <= length
      invariant dst[..] == old(dst[..to]) + src[from..][..i] + old(dst[to + i..])
    {
      dst[to + i] := src[from + i];
      i := i + 1;
    }
  }

  /** The sizes of the thumbnail and its offset, from the two aspect ratios. */
  method FitByAspectRatio(fw: nat, fh: nat, vw: nat, vh: nat) returns (width: nat, height: nat, borders: nat)
    requires 0 < fw && 0 < fh && 0 < vw && 0 < vh
    ensures var g := Fit(fw, fh, vw, vh);
            width == g.width && height == g.height && borders == WrappedBorders(g)
  {
    width, height := fw, fh;
    var inputAR := vw as real / vh as real;
    var screenAR := fw as real / fh as real;
    if screenAR < inputAR {
      var size := (fw as real / inputAR + 1.0).Floor;
      WideByRatio(fw, fh, vw, vh, size);
      height, borders := size, (fh - size) / 2 * fw % TWO_TO_THE_32;
    } else {
      var size := (fh as real * inputAR).Floor;
      TallByRatio(fw, fh, vw, vh, size);
      width, borders := size, (fw - size) / 2 % TWO_TO_THE_32;
    }
  }

  /**
    The allocation and the copy loop of `thumbnailer_display`. What the original reads beyond
    the picture's buffer is undefined; the loop stops there, and `inside` tells.
   */
  method NewFrame(thumb: array<bv8>, ghost g: Geometry, frameSize: nat,
                  frameWidth: nat, thumbHeight: nat, thumbPitch: nat, blackBorders: nat)
    returns (frame: array<bv8>, inside: bool)
    requires Contained(g)
    requires frameSize == FrameSize(g) && frameWidth == g.frameWidth
    requires thumbHeight == g.height && thumbPitch == Pitch(g) && blackBorders == BlackBorders(g)
    ensures fresh(frame) && frame.Length == frameSize
    ensures inside <==> Pitch(g) * g.height <= thumb.Length
    ensures inside ==> frame[..] == Painted(g, thumb[..], g.height)
  {
    ghost var picture := thumb[..];
    Products(g);
    NothingPainted(g, picture);
    frame := new bv8[frameSize](_ => 0);
    var dataSrc, dataDest := 0, blackBorders * PIXEL_SIZE;
    var i := 0;
    while i < thumbHeight
      invariant 0 <= i <= thumbHeight && Pitch(g) * i <= |picture|
      invariant dataSrc == i * thumbPitch && dataDest == RowStart(g, i)
      invariant fresh(frame) && thumb[..] == picture && frame[..] == Painted(g, picture, i)
    {
      NextRow(g, i);
      if dataSrc + thumbPitch > thumb.Length {
        TimesLe(i + 1, g.height, Pitch(g));
        return frame, false;
      }
      RowInFrame(g, i);
      ghost var before := frame[..];
      Memcpy(frame, dataDest, thumb, dataSrc, thumbPitch);
      RowPainted(g, picture, i, before, frame[..], dataDest, dataSrc);
      dataDest := dataDest + frameWidth * PIXEL_SIZE;
      dataSrc := dataSrc + thumbPitch;
      i := i + 1;
    }
    inside := true;
  }

  /** The fields of `thumbnailer_sys_t`. */
  class Thumbnailer {
    var state: set<Bit>
    var thumbData: array?<bv8>
    var frameData: array?<bv8>
    var frameSize: nat
    var blackBorders: nat
    const frameWidth: nat
    const frameHeight: nat
    var thumbHeight: nat
    var thumbPitch: nat

    predicate Holds(g: Geometry)
      reads this
    {
      && frameWidth == g.frameWidth && frameHeight == g.frameHeight
      && thumbHeight == g.height && thumbPitch == Pitch(g) && blackBorders == BlackBorders(g)
    }

    constructor (frameWidth: nat, frameHeight: nat)
      ensures this.frameWidth == frameWidth && this.frameHeight == frameHeight
      ensures state == {} && thumbData == null && frameData == null
    {
      this.frameWidth, this.frameHeight := frameWidth, frameHeight;
      state, thumbData, frameData := {}, null, null;
      frameSize, blackBorders, thumbHeight, thumbPitch := 0, 0, 0, 0;
    }

    /** `memory` tells whether `malloc` succeeds. */
    method Setup(videoWidth: nat, videoHeight: nat, memory: bool)
      returns (ok: bool, width: nat, height: nat, pitch: nat, lines: nat)
      requires 0 < frameWidth && 0 < frameHeight
      modifies this
      ensures ok <==> Accepted(videoWidth, videoHeight) && memory
      ensures ok <==> 32 <= videoWidth <= 4096 && 32 <= videoHeight <= 2304 && memory
      ensures ok ==> pitch == 4 * width % TWO_TO_THE_32
      ensures frameData == old(frameData)
      ensures !ok ==> state == old(state) + {DONE} && (width, height) == (videoWidth, videoHeight)
      ensures ok ==>
                var g := Fit(frameWidth, frameHeight, videoWidth, videoHeight);
                && state == old(state) + {VOUT}
                && thumbHeight == g.height && thumbPitch == ThumbPitch(g)
                && blackBorders == WrappedBorders(g)
                && fresh(thumbData) && thumbData.Length == BufferSize(g)
                && (width, height, pitch, lines) == (g.width, g.height, ThumbPitch(g), g.height)
                && (GoodFrame(frameWidth, frameHeight) ==> Holds(g))
    {
      ok, width, height, pitch, lines := false, videoWidth, videoHeight, 0, 0;
      if videoWidth == 0 || videoHeight == 0 {
        state := state + {DONE};
        return;
      }
      if videoWidth < MIN_WIDTH || videoHeight < MIN_HEIGHT || videoWidth > MAX_WIDTH || videoHeight > MAX_HEIGHT {
        state := state + {DONE};
        return;
      }
      var thumbWidth, tall, borders := FitByAspectRatio(frameWidth, frameHeight, videoWidth, videoHeight);
      blackBorders := borders;
      thumbPitch := thumbWidth * PIXEL_SIZE % TWO_TO_THE_32;
      thumbHeight := tall;
      ghost var g := Fit(frameWidth, frameHeight, videoWidth, videoHeight);
      assert thumbPitch == ThumbPitch(g);
      var thumbSize := thumbPitch * (thumbHeight + 1) % TWO_TO_THE_32;
      assert thumbSize == BufferSize(g);
      if !memory {
        thumbData := null;
        state := state + {DONE};
        return;
      }
      thumbData := new bv8[thumbSize];
      width, height, pitch, lines := thumbWidth, tall, thumbPitch, tall;
      state := state + {VOUT};
      ok := true;
      if GoodFrame(frameWidth, frameHeight) {
        NothingElseWraps(frameWidth, frameHeight, videoWidth, videoHeight);
      }
    }

    /** `atHalf` tells whether the new position is at least `THUMBNAIL_POSITION`. */
    method OnEvent(atHalf: bool)
      modifies this`state
      ensures state == if atHalf then old(state) + {SEEKED} else old(state)
    {
      if atHalf {
        state := state + {SEEKED};
      }
    }

    /**
      `g` is the geometry set up last; `memory` tells whether `calloc` succeeds. Nothing is
      said of the fields when the copy leaves the picture's buffer.
     */
    method Display(ghost g: Geometry, memory: bool) returns (inside: bool)
      requires Holds(g) && Contained(g) && thumbData != null && FrameSize(g) < TWO_TO_THE_32
      modifies this`state, this`frameSize, this`frameData
      ensures inside <==> !({SEEKED, VOUT} <= old(state)) || !memory || Pitch(g) * g.height <= thumbData.Length
      ensures !({SEEKED, VOUT} <= old(state)) ==> unchanged(this)
      ensures inside && {SEEKED, VOUT} <= old(state) ==> state == old(state) + {DONE}
      ensures {SEEKED, VOUT} <= old(state) && !memory ==> frameData == null
      ensures inside && {SEEKED, VOUT} <= old(state) && memory ==>
                && fresh(frameData) && frameSize == frameData.Length
                && frameData[..] == Painted(g, thumbData[..], g.height)
    {
      inside := true;
      if !({SEEKED, VOUT} <= state) {
        return;
      }
      frameSize := frameWidth * frameHeight * PIXEL_SIZE % TWO_TO_THE_32;
      assert frameSize == FrameSize(g) by {
        Products(g);
      }
      if !memory {
        frameData := null;
      } else {
        frameData, inside := NewFrame(thumbData, g, frameSize, frameWidth, thumbHeight, thumbPitch, blackBorders);
      }
      if inside {
        state := state + {DONE};
      }
    }
  }
}
