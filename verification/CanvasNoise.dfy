/** In-place canvas noise: the strided pixmap loop (PureCloakCanvasNoise, PureCloakCanvasNoiseExport) and the
    flat-buffer loop of ImageData::ValidateAndCreate. */
module CanvasNoise {

  import opened Bits
  import opened Division
  import opened Noise
  import opened Selection

  function Sign(n: int): int {
    if n > 0 then 1 else if n < 0 then -1 else 0
  }

  /** `std::clamp(n, 0, 255)`. */
  function Saturated(n: int): Byte {
    if n < 0 then 0 else if n > 255 then 255 else n
  }

  function Nudged(value: Byte, noise: int): Byte {
    Saturated(value + Sign(noise))
  }

  /** The noise of colour channel `c` (0 red, 1 green, 2 blue) of the pixel at row-major position `index`. */
  function ChannelNoise(index: nat, c: nat): int {
    PureCloakNoise(0, ToWord(index + c))
  }

  // --- Specification: each byte of the result in terms of the bytes before -------------------------

  /** Row-major position of pixel (x, y). */
  function PixelIndex(w: nat, x: nat, y: nat): nat {
    Product(y, w);
    y * w + x
  }

  /** Channel `c` of pixel (x, y) of a w-by-h image after the noise: alpha is channel 3. */
  function NoisyChannel(value: Byte, w: nat, h: nat, x: nat, y: nat, c: nat): Byte {
    if y < h && x < w && c < 3 && PixelSelected(x, y)
    then Nudged(value, ChannelNoise(PixelIndex(w, x, y), c))
    else value
  }

  /** The byte at offset `o` of a noisy w-by-h RGBA pixmap whose rows are `stride` bytes apart. */
  function PixmapByte(value: Byte, w: nat, h: nat, stride: nat, o: nat): Byte
    requires stride > 0
  {
    NoisyChannel(value, w, h, o % stride / 4, o / stride, o % stride % 4)
  }

  function NoisyPixmap(before: seq<Byte>, w: nat, h: nat, stride: nat): (after: seq<Byte>)
    requires stride > 0
    ensures |after| == |before|
  {
    seq(|before|, o requires 0 <= o < |before| => PixmapByte(before[o], w, h, stride, o))
  }

  /** The byte at offset `o` of a noisy w-by-h RGBA buffer without padding. */
  function FlatByte(value: Byte, w: nat, h: nat, o: nat): Byte {
    if w == 0 then value else NoisyChannel(value, w, h, o / 4 % w, o / 4 / w, o % 4)
  }

  // --- Offsets -----------------------------------------------------------------------------------------

  lemma Product(a: nat, b: nat)
    ensures 0 <= a * b
  {
  }

  lemma RowEnd(w: nat, y: nat)
    ensures (y + 1) * w == y * w + w
  {
  }

  lemma RowsBelow(w: nat, h: nat, x: nat, y: nat)
    requires x < w && y < h
    ensures 0 <= y * w && y * w + x + 1 <= h * w
  {
    RowEnd(w, y);
    Product(h - (y + 1), w);
    Product(y, w);
    assert h * w == (y + 1) * w + (h - (y + 1)) * w;
  }

  lemma PixelOffset(stride: nat, x: nat, y: nat, c: nat)
    requires 4 * x + c < stride && c < 4
    ensures var o := y * stride + 4 * x + c;
            0 <= o && o / stride == y && o % stride / 4 == x && o % stride % 4 == c
  {
    Product(y, stride);
    ResidueUnique(y * stride + 4 * x + c, stride, y, 4 * x + c);
  }

  lemma FlatOffset(w: nat, x: nat, y: nat, c: nat)
    requires x < w && c < 4
    ensures var o := 4 * (y * w + x) + c;
            0 <= o && o / 4 == y * w + x && o % 4 == c && o / 4 / w == y && o / 4 % w == x
  {
    Product(y, w);
    ResidueUnique(y * w + x, w, y, x);
  }

  lemma InsidePixmap(stride: nat, w: nat, h: nat, x: nat, y: nat)
    requires 4 * w <= stride && x < w && y < h
    ensures 0 <= y * stride && y * stride + 4 * x + 4 <= (h - 1) * stride + 4 * w
  {
    Product(h - 1 - y, stride);
    Product(y, stride);
    assert (h - 1) * stride == y * stride + (h - 1 - y) * stride;
  }

  /** What the noise does to the four bytes of pixel (x, y) of a pixmap. */
  lemma PixmapPixel(before: seq<Byte>, w: nat, h: nat, stride: nat, x: nat, y: nat)
    requires 0 < stride && 4 * w <= stride && x < w && y < h
    requires 0 <= y * stride && y * stride + 4 * x + 4 <= |before|
    ensures var p := y * stride + 4 * x;
            forall o :: p <= o < p + 4 ==>
              PixmapByte(before[o], w, h, stride, o) ==
                if o < p + 3 && PixelSelected(x, y) then Nudged(before[o], ChannelNoise(PixelIndex(w, x, y), o - p))
                                                    else before[o]
  {
    hide PixelIndex, PixelSelected, Nudged, ChannelNoise;
    var p := y * stride + 4 * x;
    forall o | p <= o < p + 4
      ensures PixmapByte(before[o], w, h, stride, o) == NoisyChannel(before[o], w, h, x, y, o - p)
    {
      PixelOffset(stride, x, y, o - p);
    }
  }

  /** What the noise does to the four bytes of pixel (x, y) of a flat buffer. */
  lemma FlatPixel(before: seq<Byte>, w: nat, h: nat, x: nat, y: nat)
    requires x < w && y < h
    requires 0 <= y * w && 4 * (y * w + x) + 4 <= |before|
    ensures var p := 4 * (y * w + x);
            forall o :: p <= o < p + 4 ==>
              FlatByte(before[o], w, h, o) ==
                if o < p + 3 && PixelSelected(x, y) then Nudged(before[o], ChannelNoise(PixelIndex(w, x, y), o - p))
                                                    else before[o]
  {
    hide PixelIndex, PixelSelected, Nudged, ChannelNoise;
    var p := 4 * (y * w + x);
    forall o | p <= o < p + 4
      ensures FlatByte(before[o], w, h, o) == NoisyChannel(before[o], w, h, x, y, o - p)
    {
      FlatOffset(w, x, y, o - p);
    }
  }

  /** Row padding stays as it was. */
  lemma PaddingKept(value: Byte, w: nat, h: nat, stride: nat, y: nat, o: nat)
    requires 0 < stride && 4 * w <= stride && y * stride + 4 * w <= o < (y + 1) * stride
    ensures PixmapByte(value, w, h, stride, o) == value
  {
    RowEnd(stride, y);
    ResidueUnique(o, stride, y, o - y * stride);
  }

  /** Bytes after the last row stay as they were. */
  lemma TailKept(value: Byte, w: nat, h: nat, stride: nat, o: nat)
    requires stride > 0 && o >= h * stride
    ensures PixmapByte(value, w, h, stride, o) == value
  {
    assert o == o / stride * stride + o % stride;
    MultipleOrZero(h - o / stride, stride);
    assert (h - o / stride) * stride == h * stride - o / stride * stride;
  }

  // --- The loops -------------------------------------------------------------------------------------

  /** Writes the three colour bytes of the selected pixel at byte offset `p`. */
  method NudgePixel(pixels: array<Byte>, p: nat, index: nat)
    requires p + 3 <= pixels.Length
    modifies pixels
    ensures forall o :: 0 <= o < pixels.Length ==>
              pixels[o] == if p <= o < p + 3 then Nudged(old(pixels[o]), ChannelNoise(index, o - p))
                                             else old(pixels[o])
  {
    hide PureCloakNoise, ToWord, Nudged;
    var rNoise := PureCloakNoise(0, ToWord(index));
    var gNoise := PureCloakNoise(0, ToWord(index + 1));
    var bNoise := PureCloakNoise(0, ToWord(index + 2));
    pixels[p] := Nudged(pixels[p], rNoise);
    pixels[p + 1] := Nudged(pixels[p + 1], gNoise);
    pixels[p + 2] := Nudged(pixels[p + 2], bNoise);
  }

  /** `PureCloakCanvasNoise` and `PureCloakCanvasNoiseExport` over a pixmap of any stride. */
  method ApplyToPixmap(pixels: array<Byte>, w: nat, h: nat, stride: nat)
    requires 0 < stride && 4 * w <= stride
    requires w > 0 && h > 0 ==> (h - 1) * stride + 4 * w <= pixels.Length
    modifies pixels
    ensures pixels[..] == NoisyPixmap(old(pixels[..]), w, h, stride)
  {
    hide PixelSelected, Nudged, ChannelNoise, PixmapByte;
    ghost var before := pixels[..];
    var y := 0;
    while y < h
      invariant 0 <= y <= h
      invariant forall o :: 0 <= o < pixels.Length ==>
                  pixels[o] == if o < y * stride then PixmapByte(before[o], w, h, stride, o) else before[o]
    {
      var x := 0;
      while x < w
        invariant 0 <= x <= w
        invariant forall o :: 0 <= o < pixels.Length ==>
                    pixels[o] == if o < y * stride + 4 * x then PixmapByte(before[o], w, h, stride, o) else before[o]
      {
        InsidePixmap(stride, w, h, x, y);
        PixmapPixel(before, w, h, stride, x, y);
        if PixelSelected(x, y) {
          NudgePixel(pixels, y * stride + 4 * x, PixelIndex(w, x, y));
        }
        x := x + 1;
      }
      forall o | y * stride + 4 * w <= o < (y + 1) * stride && o < pixels.Length
        ensures PixmapByte(before[o], w, h, stride, o) == before[o]
      {
        Product(y, stride);
        PaddingKept(before[o], w, h, stride, y, o);
      }
      RowEnd(stride, y);
      y := y + 1;
    }
    Product(h, stride);
    forall o | h * stride <= o < pixels.Length
      ensures PixmapByte(before[o], w, h, stride, o) == before[o]
    {
      TailKept(before[o], w, h, stride, o);
    }
  }

  /** The noise loop of `ImageData::ValidateAndCreate` over a freshly allocated RGBA8888 buffer. */
  method ApplyToFlatBuffer(rawBytes: array<Byte>, w: nat, h: nat)
    requires rawBytes.Length == 4 * (h * w)
    modifies rawBytes
    ensures forall o :: 0 <= o < rawBytes.Length ==> rawBytes[o] == FlatByte(old(rawBytes[o]), w, h, o)
  {
    hide PixelSelected, Nudged, ChannelNoise, FlatByte;
    ghost var before := rawBytes[..];
    var y := 0;
    while y < h
      invariant 0 <= y <= h
      invariant forall o :: 0 <= o < rawBytes.Length ==>
                  rawBytes[o] == if o < 4 * (y * w) then FlatByte(before[o], w, h, o) else before[o]
    {
      var x := 0;
      while x < w
        invariant 0 <= x <= w
        invariant forall o :: 0 <= o < rawBytes.Length ==>
                    rawBytes[o] == if o < 4 * (y * w + x) then FlatByte(before[o], w, h, o) else before[o]
      {
        RowsBelow(w, h, x, y);
        FlatPixel(before, w, h, x, y);
        var index := y * w + x;
        if PixelSelected(x, y) {
          NudgePixel(rawBytes, index * 4, index);
        }
        x := x + 1;
      }
      RowEnd(w, y);
      y := y + 1;
    }
  }

  // --- What the noise does to an image -----------------------------------------------------------------

  /** For every image of minimal stride the strided form and the flat byte-offset form give the same bytes. */
  lemma PixmapAndFlatAgree(value: Byte, w: nat, h: nat, o: nat)
    requires w > 0
    ensures PixmapByte(value, w, h, 4 * w, o) == FlatByte(value, w, h, o)
  {
    hide NoisyChannel;
    var index, c := o / 4, o % 4;
    var y, x := index / w, index % w;
    assert index == y * w + x;
    assert y * (4 * w) == 4 * (y * w);
    PixelOffset(4 * w, x, y, c);
  }

  /** The noise moves every byte by at most one within 0..255.  Alpha bytes, unselected pixels and padding
      stay put; a selected colour byte changes unless its noise is zero or it already sits at the end of
      the range it is pushed towards. */
  lemma NoiseIsImperceptible(value: Byte, w: nat, h: nat, x: nat, y: nat, c: nat)
    ensures -1 <= NoisyChannel(value, w, h, x, y, c) - value <= 1
    ensures NoisyChannel(value, w, h, x, y, c) != value <==>
              && y < h && x < w && c < 3 && PixelSelected(x, y)
              && var noise := ChannelNoise(PixelIndex(w, x, y), c);
                 (noise > 0 && value < 255) || (noise < 0 && value > 0)
  {
    hide PixelSelected, PixelIndex, ChannelNoise;
  }

  /** Which noise a selected colour byte gets: channel c of pixel (x, y) uses index y * w + x + c of the stream of
      seed 0, modulo 2^32, and moves by its sign. */
  lemma ColourNoiseIndex(value: Byte, w: nat, h: nat, x: nat, y: nat, c: nat)
    requires y < h && x < w && c < 3 && (x * 1009 + y * 3049) % 997 == 0
    ensures var noise := PureCloakNoise(0, (y * w + x + c) % 0x1_0000_0000);
            var moved := value + if noise > 0 then 1 else if noise < 0 then -1 else 0;
            NoisyChannel(value, w, h, x, y, c) == if moved < 0 then 0 else if moved > 255 then 255 else moved
  {
    hide PureCloakNoise;
    Product(y, w);
    assert PixelIndex(w, x, y) == y * w + x;
  }

  /** Reading a canvas back and drawing it again `times` times. */
  ghost function Repeated(before: seq<Byte>, w: nat, h: nat, stride: nat, times: nat): (after: seq<Byte>)
    requires stride > 0
    ensures |after| == |before|
  {
    if times == 0 then before else NoisyPixmap(Repeated(before, w, h, stride, times - 1), w, h, stride)
  }

  function ChannelPush(w: nat, h: nat, x: nat, y: nat, c: nat): int {
    if y < h && x < w && c < 3 && PixelSelected(x, y) then Sign(ChannelNoise(PixelIndex(w, x, y), c)) else 0
  }

  /** Which way the noise pushes the byte at offset `o`: 0 if it is not a colour byte of a selected pixel. */
  function Push(w: nat, h: nat, stride: nat, o: nat): int
    requires stride > 0
  {
    ChannelPush(w, h, o % stride / 4, o / stride, o % stride % 4)
  }

  lemma OneRound(value: Byte, w: nat, h: nat, stride: nat, o: nat)
    requires stride > 0
    ensures PixmapByte(value, w, h, stride, o) == Saturated(value + Push(w, h, stride, o))
    ensures -1 <= Push(w, h, stride, o) <= 1
  {
    hide PixelSelected, PixelIndex, ChannelNoise;
  }

  lemma AnotherRound(value: Byte, rounds: nat, push: int)
    requires -1 <= push <= 1
    ensures Saturated(Saturated(value + rounds * push) + push) == Saturated(value + (rounds + 1) * push)
  {
    assert push == 0 || push == 1 || push == -1;
  }

  /** The noise is not idempotent: it accumulates.  After n round trips every selected colour byte has moved
      n levels in the direction of its noise, until it saturates, and no other byte has moved. */
  lemma {:induction false} RepeatedNoiseAccumulates(before: seq<Byte>, w: nat, h: nat, stride: nat, times: nat, o: nat)
    requires stride > 0 && o < |before|
    ensures Repeated(before, w, h, stride, times)[o] == Saturated(before[o] + times * Push(w, h, stride, o))
  {
    hide PixmapByte, Push, Saturated;
    if times == 0 {
      assert Saturated(before[o]) == before[o] by { SaturatedByte(before[o]); }
    } else {
      RepeatedNoiseAccumulates(before, w, h, stride, times - 1, o);
      OneRound(Repeated(before, w, h, stride, times - 1)[o], w, h, stride, o);
      AnotherRound(before[o], times - 1, Push(w, h, stride, o));
    }
  }

  lemma SaturatedByte(value: Byte)
    ensures Saturated(value) == value
  {
  }
}
