/**
 * Image.swift: the image wrapper that the pipeline scales and filters.
 *
 * The platform image (an NSImage) is opaque. What the code asks of it,
 * its size, its decoded RGBA bytes and a resized copy, comes from a
 * `Platform` record of functions, because those are AppKit and
 * CoreGraphics calls.
 */
module Images {
  import opened Wrappers
  import opened Filters

  /** The platform image handle (NSImage). */
  type NativeImage

  /**
   * The platform services Image.swift calls.
   * `decode` stands for `getImageData` (cgImage, CFData copy or redraw),
   * `width`/`height` for `image.size`, `resize` for the AppKit redraw
   * inside `scaleImage`.
   */
  datatype Platform = Platform(
    decode: NativeImage -> Option<seq<byte>>,
    width: NativeImage -> real,
    height: NativeImage -> real,
    resize: (NativeImage, real) -> NativeImage)

  // ---------------------------------------------------------------------
  // Pixel filtering
  // ---------------------------------------------------------------------

  /** Number of whole RGBA pixels in a buffer; trailing bytes are not a pixel. */
  function PixelCount(data: seq<byte>): nat {
    |data| / 4
  }

  /** The filter rejects pixel `i` of `data`, read as (r, g, b, a). */
  predicate Rejects(filter: Filter, data: seq<byte>, i: nat)
    requires i < PixelCount(data)
  {
    !filter.f(data[4 * i], data[4 * i + 1], data[4 * i + 2], data[4 * i + 3])
  }

  /** Byte `k` of the filtered buffer: the alpha byte of a rejected pixel is 0. */
  function MaskedAt(data: seq<byte>, filter: Filter, k: nat): byte
    requires k < |data|
  {
    if k < 4 * PixelCount(data) && k % 4 == 3 && Rejects(filter, data, k / 4) then 0
    else data[k]
  }

  /** The buffer the loop of `applyFilter` leaves in its working copy. */
  function Masked(data: seq<byte>, filter: Filter): (r: seq<byte>)
    ensures |r| == |data|
  {
    seq(|data|, k requires 0 <= k < |data| => MaskedAt(data, filter, k))
  }

  lemma ByteOfPixel(i: nat, j: nat)
    requires j < 4
    ensures (4 * i + j) / 4 == i && (4 * i + j) % 4 == j
  {
  }

  /**
   * Pixel `i` after filtering: the colour bytes are the input's, and the
   * alpha byte is 0 if the filter rejects the pixel and the input's otherwise.
   */
  lemma MaskedPixel(data: seq<byte>, filter: Filter, i: nat)
    requires i < PixelCount(data)
    ensures var r := Masked(data, filter);
            && r[4 * i] == data[4 * i]
            && r[4 * i + 1] == data[4 * i + 1]
            && r[4 * i + 2] == data[4 * i + 2]
            && r[4 * i + 3] == if Rejects(filter, data, i) then 0 else data[4 * i + 3]
  {
    ByteOfPixel(i, 0);
    ByteOfPixel(i, 1);
    ByteOfPixel(i, 2);
    ByteOfPixel(i, 3);
  }

  /** The `|data| % 4` trailing bytes are never touched. */
  lemma MaskedTail(data: seq<byte>, filter: Filter, k: nat)
    requires 4 * PixelCount(data) <= k < |data|
    ensures Masked(data, filter)[k] == data[k]
  {
  }

  /** Filtering an already filtered buffer with the same filter changes nothing. */
  lemma MaskedIdempotent(data: seq<byte>, filter: Filter)
    ensures Masked(Masked(data, filter), filter) == Masked(data, filter)
  {
    var once := Masked(data, filter);
    var twice := Masked(once, filter);
    forall k | 0 <= k < |data|
      ensures twice[k] == once[k]
    {
      if k < 4 * PixelCount(data) {
        var i := k / 4;
        ByteOfPixel(i, k % 4);
        MaskedPixel(data, filter, i);
        MaskedPixel(once, filter, i);
      }
    }
  }

  /**
   * Filtering leaves a buffer as it is exactly when every whole pixel the
   * filter rejects already has alpha 0. So the buffer `applyFilter` returns
   * equals its working copy only for such buffers.
   */
  lemma {:induction false} MaskedUnchangedIff(data: seq<byte>, filter: Filter)
    ensures Masked(data, filter) == data <==>
            forall i :: 0 <= i < PixelCount(data) && Rejects(filter, data, i) ==> data[4 * i + 3] == 0
  {
    var r := Masked(data, filter);
    if r == data {
      forall i | 0 <= i < PixelCount(data) && Rejects(filter, data, i)
        ensures data[4 * i + 3] == 0
      {
        MaskedPixel(data, filter, i);
      }
    }
    if forall i :: 0 <= i < PixelCount(data) && Rejects(filter, data, i) ==> data[4 * i + 3] == 0 {
      forall k | 0 <= k < |data|
        ensures r[k] == data[k]
      {
        if k < 4 * PixelCount(data) {
          var i := k / 4;
          ByteOfPixel(i, k % 4);
          MaskedPixel(data, filter, i);
        }
      }
    }
  }

  /**
   * The loop of `applyFilter` on its working copy: for each whole pixel,
   * read its four bytes and zero its alpha byte if the filter rejects it.
   */
  method MaskRejected(pixels: array<byte>, filter: Filter)
    modifies pixels
    ensures pixels[..] == Masked(old(pixels[..]), filter)
  {
    ghost var input := pixels[..];
    var n := pixels.Length / 4;
    for i := 0 to n
      invariant pixels.Length == |input|
      invariant forall k :: 0 <= k < 4 * i ==> pixels[k] == MaskedAt(input, filter, k)
      invariant forall k :: 4 * i <= k < pixels.Length ==> pixels[k] == input[k]
    {
      var offset := i * 4;
      var r, g, b, a := pixels[offset + 0], pixels[offset + 1], pixels[offset + 2], pixels[offset + 3];
      assert Rejects(filter, input, i) == !filter.f(r, g, b, a);
      if !filter.f(r, g, b, a) {
        pixels[offset + 3] := 0;
      }
      ByteOfPixel(i, 0);
      ByteOfPixel(i, 1);
      ByteOfPixel(i, 2);
      ByteOfPixel(i, 3);
      assert pixels[offset] == MaskedAt(input, filter, offset);
      assert pixels[offset + 1] == MaskedAt(input, filter, offset + 1);
      assert pixels[offset + 2] == MaskedAt(input, filter, offset + 2);
      assert pixels[offset + 3] == MaskedAt(input, filter, offset + 3);
    }
    assert pixels[..] == Masked(input, filter);
  }

  // ---------------------------------------------------------------------
  // Scaling decision
  // ---------------------------------------------------------------------

  /** A CGFloat scale factor; `1 / CGFloat(0)` is positive infinity. */
  datatype Ratio = Finite(value: real) | Infinite

  /** `ratio < 1`, which is false for infinity. */
  predicate Shrinks(r: Ratio) {
    r.Finite? && r.value < 1.0
  }

  function Max(a: real, b: real): real {
    if a >= b then a else b
  }

  /** An explicit maximum dimension is given and is positive. */
  predicate PositiveMax(maxSize: Option<real>) {
    maxSize.Some? && maxSize.value > 0.0
  }

  /**
   * The factor `scaleTo` computes. A positive maximum dimension takes
   * precedence over the quality; it shrinks exactly when the longer side
   * exceeds it, and then brings the longer side down to it. Otherwise the
   * factor is `1 / quality`, which shrinks exactly when the quality is
   * above 1 or negative.
   */
  function ScaleRatio(width: real, height: real, maxSize: Option<real>, quality: int): (r: Ratio)
    ensures PositiveMax(maxSize) ==> (Shrinks(r) <==> Max(width, height) > maxSize.value)
    ensures PositiveMax(maxSize) && Shrinks(r) ==>
              0.0 < r.value && r.value * Max(width, height) == maxSize.value
    ensures PositiveMax(maxSize) && !Shrinks(r) ==> r == Finite(1.0)
    ensures !PositiveMax(maxSize) ==> (Shrinks(r) <==> quality > 1 || quality < 0)
    ensures !PositiveMax(maxSize) && quality != 0 ==> r.Finite? && r.value * quality as real == 1.0
    ensures !PositiveMax(maxSize) && quality == 0 ==> r.Infinite?
  {
    if PositiveMax(maxSize) then
      var maxSide := Max(width, height);
      if maxSide > maxSize.value then
        FractionBelowOne(maxSize.value, maxSide);
        Finite(maxSize.value / maxSide)
      else Finite(1.0)
    else if quality == 0 then Infinite
    else
      Reciprocal(quality);
      Finite(1.0 / quality as real)
  }

  lemma FractionBelowOne(m: real, s: real)
    requires 0.0 < m < s
    ensures 0.0 < m / s < 1.0 && (m / s) * s == m
  {
    var x := m / s;
    assert x * s == m;
    if x >= 1.0 {
      MulMonotone(1.0, x, s);
      assert false;
    }
  }

  lemma MulMonotone(a: real, b: real, c: real)
    requires a <= b && 0.0 <= c
    ensures a * c <= b * c
  {
  }

  lemma Reciprocal(q: int)
    requires q != 0
    ensures (1.0 / q as real) * q as real == 1.0
    ensures 1.0 / q as real < 1.0 <==> q > 1 || q < 0
  {
    var x := 1.0 / q as real;
    assert x * q as real == 1.0;
    if q > 1 {
      assert x > 0.0;
    }
  }

  /** An explicit positive maximum dimension makes the quality irrelevant. */
  lemma MaxDimensionOverridesQuality(width: real, height: real, maxSize: Option<real>, q1: int, q2: int)
    requires PositiveMax(maxSize)
    ensures ScaleRatio(width, height, maxSize, q1) == ScaleRatio(width, height, maxSize, q2)
  {
  }

  /** `scaleImage`: a factor of exactly 1 returns the image itself. */
  function ScaleImage(image: NativeImage, factor: real, platform: Platform): (r: NativeImage)
    ensures factor == 1.0 ==> r == image
    ensures factor != 1.0 ==> r == platform.resize(image, factor)
  {
    if factor == 1.0 then image else platform.resize(image, factor)
  }

  /** The image `scaleTo` leaves behind. */
  function Scaled(image: NativeImage, maxSize: Option<real>, quality: int, platform: Platform): NativeImage {
    var r := ScaleRatio(platform.width(image), platform.height(image), maxSize, quality);
    if Shrinks(r) then ScaleImage(image, r.value, platform) else image
  }

  // ---------------------------------------------------------------------
  // Bitmap compatibility
  // ---------------------------------------------------------------------

  /** CGColorSpaceModel. */
  datatype ColorModel = Unknown | Monochrome | RGB | CMYK | Lab | DeviceN | Indexed | Pattern | XYZ

  /**
   * The CoreGraphics constants `isCompatibleImage` compares against, as
   * raw CGBitmapInfo / CGImageAlphaInfo values. Their numeric values come
   * from the platform headers and are parameters here.
   */
  datatype BitmapConstants = BitmapConstants(
    alphaInfoMask: bv32,
    byteOrderMask: bv32,
    alphaLast: bv32,
    alphaNoneSkipLast: bv32,
    byteOrder32Little: bv32)

  /** The values lie inside their masks and the two masks do not overlap. */
  predicate ConstantsWellFormed(k: BitmapConstants) {
    && k.alphaLast & k.alphaInfoMask == k.alphaLast
    && k.alphaNoneSkipLast & k.alphaInfoMask == k.alphaNoneSkipLast
    && k.byteOrder32Little & k.byteOrderMask == k.byteOrder32Little
    && k.alphaInfoMask & k.byteOrderMask == 0
  }

  /** The CGImage fields `isCompatibleImage` reads. */
  datatype BitmapDescriptor = BitmapDescriptor(
    colorModel: Option<ColorModel>,   // None: the image has no colour space
    bitmapInfo: bv32,
    bitsPerComponent: int,
    bitsPerPixel: int,
    bytesPerRow: int,
    width: int)

  function AlphaBits(d: BitmapDescriptor, k: BitmapConstants): bv32 {
    d.bitmapInfo & k.alphaInfoMask
  }

  function ByteOrderBits(d: BitmapDescriptor, k: BitmapConstants): bv32 {
    d.bitmapInfo & k.byteOrderMask
  }

  /**
   * `isCompatibleImage`, as its chain of early returns: the bytes of a
   * compatible image can be copied out as they are.
   */
  function IsCompatibleImage(d: BitmapDescriptor, k: BitmapConstants): (ok: bool)
    ensures ok <==>
      && d.colorModel == Some(RGB)
      && (AlphaBits(d, k) == k.alphaLast || AlphaBits(d, k) == k.alphaNoneSkipLast)
      && ByteOrderBits(d, k) == k.byteOrder32Little
      && d.bitsPerComponent == 8
      && d.bitsPerPixel == 32
      && d.bytesPerRow == d.width * 4
  {
    if d.colorModel.None? then false
    else if d.colorModel.value != RGB then false
    else
      var alpha := AlphaBits(d, k);
      var alphaRequirement := alpha == k.alphaNoneSkipLast || alpha == k.alphaLast;
      var byteOrderRequirement := ByteOrderBits(d, k) == k.byteOrder32Little;
      if !(alphaRequirement && byteOrderRequirement) then false
      else if d.bitsPerComponent != 8 then false
      else if d.bitsPerPixel != 32 then false
      else if d.bytesPerRow != d.width * 4 then false
      else true
  }

  /**
   * The bitmap an incompatible image is redrawn into: device RGB,
   * noneSkipLast | byteOrder32Little, 8 bits per component, 4 bytes per
   * pixel, rows of 4 * width bytes.
   */
  function RedrawFormat(width: int, k: BitmapConstants): BitmapDescriptor {
    BitmapDescriptor(Some(RGB), k.alphaNoneSkipLast | k.byteOrder32Little, 8, 32, 4 * width, width)
  }

  /** Or-ing two values that lie in disjoint masks keeps each one recoverable by its mask. */
  lemma DisjointFields(a: bv32, b: bv32, ma: bv32, mb: bv32)
    requires a & ma == a && b & mb == b && ma & mb == 0
    ensures (a | b) & ma == a && (a | b) & mb == b
  {
  }

  lemma RedrawAlpha(width: int, k: BitmapConstants)
    requires ConstantsWellFormed(k)
    ensures AlphaBits(RedrawFormat(width, k), k) == k.alphaNoneSkipLast
  {
    DisjointFields(k.alphaNoneSkipLast, k.byteOrder32Little, k.alphaInfoMask, k.byteOrderMask);
  }

  lemma RedrawByteOrder(width: int, k: BitmapConstants)
    requires ConstantsWellFormed(k)
    ensures ByteOrderBits(RedrawFormat(width, k), k) == k.byteOrder32Little
  {
    DisjointFields(k.alphaNoneSkipLast, k.byteOrder32Little, k.alphaInfoMask, k.byteOrderMask);
  }

  /** The redraw target passes `isCompatibleImage` itself. */
  lemma RedrawTargetIsCompatible(width: int, k: BitmapConstants)
    requires ConstantsWellFormed(k)
    ensures IsCompatibleImage(RedrawFormat(width, k), k)
  {
    RedrawAlpha(width, k);
    RedrawByteOrder(width, k);
  }

  // ---------------------------------------------------------------------
  // The Image wrapper
  // ---------------------------------------------------------------------

  /** What `applyFilter` returns: the decoded bytes, or [] if there are none. */
  function DecodedOrEmpty(decoded: Option<seq<byte>>): seq<byte> {
    match decoded
    case None => []
    case Some(data) => data
  }

  class Image {
    var image: NativeImage

    constructor (image: NativeImage)
      ensures this.image == image
    {
      this.image := image;
    }

    /**
     * `applyFilter` as the code is written: it masks a copy of the decoded
     * bytes but returns the decoded bytes themselves. `working` is the copy.
     */
    method ApplyFilter(filter: Filter, platform: Platform) returns (result: seq<byte>, ghost working: seq<byte>)
      ensures platform.decode(image).None? ==> result == []
      ensures platform.decode(image).Some? ==> result == platform.decode(image).value
      ensures platform.decode(image).None? ==> working == []
      ensures platform.decode(image).Some? ==> working == Masked(platform.decode(image).value, filter)
    {
      var decoded := platform.decode(image);
      if decoded.None? {
        return [], [];
      }
      var imageData := decoded.value;
      var pixels := new byte[|imageData|](i requires 0 <= i < |imageData| => imageData[i]);
      assert pixels[..] == imageData;
      MaskRejected(pixels, filter);
      working := pixels[..];
      return imageData, working;
    }

    /** `applyFilter` returning its working copy, as the design intends. */
    method ApplyFilterIntended(filter: Filter, platform: Platform) returns (result: seq<byte>)
      ensures platform.decode(image).None? ==> result == []
      ensures platform.decode(image).Some? ==> result == Masked(platform.decode(image).value, filter)
    {
      var decoded := platform.decode(image);
      if decoded.None? {
        return [];
      }
      var imageData := decoded.value;
      var pixels := new byte[|imageData|](i requires 0 <= i < |imageData| => imageData[i]);
      assert pixels[..] == imageData;
      MaskRejected(pixels, filter);
      return pixels[..];
    }

    /** `scale(by:)`. */
    method Scale(factor: real, platform: Platform)
      modifies this
      ensures image == ScaleImage(old(image), factor, platform)
    {
      image := ScaleImage(image, factor, platform);
    }

    /** `scaleTo(size:quality:)`: shrink only when the factor is below 1. */
    method ScaleTo(maxSize: Option<real>, quality: int, platform: Platform)
      modifies this
      ensures image == Scaled(old(image), maxSize, quality, platform)
    {
      var width := platform.width(image);
      var height := platform.height(image);
      var ratio := Finite(1.0);
      if maxSize.Some? && maxSize.value > 0.0 {
        var maxSide := Max(width, height);
        if maxSide > maxSize.value {
          ratio := Finite(maxSize.value / maxSide);
        }
      } else {
        ratio := if quality == 0 then Infinite else Finite(1.0 / quality as real);
      }
      if ratio.Finite? && ratio.value < 1.0 {
        Scale(ratio.value, platform);
      }
    }
  }

  /**
   * The returned buffer ignores the filter: with a pixel the filter
   * rejects, it differs from the masked working copy.
   */
  lemma ReturnedBufferIgnoresFilter(id: FilterId)
    ensures var data: seq<byte> := [10, 20, 30, 255];
            var rejectAll := Filter(id, (r: byte, g: byte, b: byte, a: byte) => false);
            DecodedOrEmpty(Some(data)) != Masked(data, rejectAll)
  {
    var data: seq<byte> := [10, 20, 30, 255];
    var rejectAll := Filter(id, (r: byte, g: byte, b: byte, a: byte) => false);
    assert Masked(data, rejectAll)[3] == 0;
  }
}
