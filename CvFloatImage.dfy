/** The in-place pixel arithmetic of a one-channel float image
    (`ofxCvFloatImage`): scaling and dividing with the clamp to zero, the
    size-checked assignments, and the interpolation check of
    `scaleIntoMe`. The OpenCV conversions and the resize itself are
    foreign calls; their results are parameters. */
module CvFloatImage {
  import opened Util

  /** Results below this threshold are set to 0 after scaling. */
  const CLAMP_THRESHOLD: real := 0.00001

  /** OpenCV's interpolation methods. */
  const CV_INTER_NN: int := 0
  const CV_INTER_LINEAR: int := 1
  const CV_INTER_CUBIC: int := 2
  const CV_INTER_AREA: int := 3

  /** One pixel after `*= scalar`: the product, or 0 when it falls below
      the threshold (negative products included). */
  function ScaledPixel(x: real, scalar: real): (y: real)
    ensures y == 0.0 || y >= CLAMP_THRESHOLD
    ensures x * scalar >= CLAMP_THRESHOLD ==> y == x * scalar
    ensures x * scalar < CLAMP_THRESHOLD ==> y == 0.0
  {
    if x * scalar < CLAMP_THRESHOLD then 0.0 else x * scalar
  }

  /** The whole buffer after `*= scalar`. */
  function Scaled(s: seq<real>, scalar: real): (r: seq<real>)
    ensures |r| == |s|
    ensures forall i :: 0 <= i < |s| ==> r[i] == ScaledPixel(s[i], scalar)
  {
    seq(|s|, i requires 0 <= i < |s| => ScaledPixel(s[i], scalar))
  }

  /** On a clamped buffer, scaling by 1 changes nothing: the clamp is
      idempotent. */
  lemma ScaleByOneIdempotent(s: seq<real>)
    ensures Scaled(Scaled(s, 1.0), 1.0) == Scaled(s, 1.0)
  {
  }

  /** Scaling by a factor and then by its inverse treats every pixel that
      stayed at or above the threshold both times exactly. */
  lemma ScaleThenInverse(x: real, scalar: real)
    requires scalar != 0.0
    requires x * scalar >= CLAMP_THRESHOLD && x >= CLAMP_THRESHOLD
    ensures ScaledPixel(ScaledPixel(x, scalar), 1.0 / scalar) == x
  {
    assert x * scalar * (1.0 / scalar) == x;
  }

  /** The method `scaleIntoMe` passes on: an unknown one becomes
      nearest-neighbour. */
  function EffectiveInterpolation(interpolationMethod: int): (m: int)
    ensures m in {CV_INTER_NN, CV_INTER_LINEAR, CV_INTER_AREA, CV_INTER_CUBIC}
    ensures interpolationMethod in {CV_INTER_NN, CV_INTER_LINEAR, CV_INTER_AREA, CV_INTER_CUBIC} ==> m == interpolationMethod
    ensures !(interpolationMethod in {CV_INTER_NN, CV_INTER_LINEAR, CV_INTER_AREA, CV_INTER_CUBIC}) ==> m == CV_INTER_NN
  {
    if interpolationMethod != CV_INTER_NN && interpolationMethod != CV_INTER_LINEAR &&
       interpolationMethod != CV_INTER_AREA && interpolationMethod != CV_INTER_CUBIC
    then CV_INTER_NN
    else interpolationMethod
  }

  class FloatImage {
    var width: int
    var height: int
    var nChannels: int
    var depth: int
    /** The image data, `width * height` floats in a row. */
    var pixels: array<real>
    var bTextureDirty: bool

    predicate Valid()
      reads this
    {
      0 <= width && 0 <= height && pixels.Length == width * height
    }

    /** `allocate(w, h)` on a fresh image: a buffer of the given size
        (zeros here; OpenCV leaves it uninitialised), whose texture is
        marked dirty when the image uses one. Without a texture the flag
        keeps `dirty0`, the value the base image's constructor gave it. */
    constructor (w: nat, h: nat, channels: int, pixelDepth: int, useTexture: bool, dirty0: bool)
      ensures Valid() && width == w && height == h && nChannels == channels && depth == pixelDepth
      ensures fresh(pixels)
      ensures useTexture ==> bTextureDirty
      ensures !useTexture ==> bTextureDirty == dirty0
    {
      width := w;
      height := h;
      nChannels := channels;
      depth := pixelDepth;
      pixels := new real[w * h](_ => 0.0);
      bTextureDirty := dirty0;
      if useTexture {
        bTextureDirty := true;
      }
    }

    /** `operator*=(scalar)`: every pixel is multiplied in place and then
        clamped; the texture is marked dirty. An image without pixels is
        left alone, dirty flag included. */
    method MultiplyAssign(scalar: real)
      requires Valid()
      modifies pixels, this`bTextureDirty
      ensures pixels[..] == Scaled(old(pixels[..]), scalar)
      ensures bTextureDirty == (if width * height <= 0 then old(bTextureDirty) else true)
    {
      var totalPixels := width * height;
      if totalPixels <= 0 {
        return;
      }
      ScaleInPlace(scalar);
      bTextureDirty := true;
    }

    /** `operator/=(scalar)`: the same as multiplying by `1 / scalar`. A
        zero divisor or an image without pixels changes nothing. */
    method DivideAssign(scalar: real)
      requires Valid()
      modifies pixels, this`bTextureDirty
      ensures width * height == 0 || scalar == 0.0 ==> pixels[..] == old(pixels[..]) && bTextureDirty == old(bTextureDirty)
      ensures width * height != 0 && scalar != 0.0 ==> pixels[..] == Scaled(old(pixels[..]), 1.0 / scalar) && bTextureDirty
    {
      var totalPixels := width * height;
      if totalPixels == 0 || scalar == 0.0 {
        return;
      }
      var inverse := 1.0 / scalar;
      ScaleInPlace(inverse);
      bTextureDirty := true;
    }

    /** The loop both operators share: a pointer walks the buffer, scaling
        and clamping each pixel. */
    method ScaleInPlace(scalar: real)
      requires Valid()
      modifies pixels
      ensures pixels[..] == Scaled(old(pixels[..]), scalar)
    {
      ghost var original := pixels[..];
      var i := 0;
      while i < pixels.Length
        invariant 0 <= i <= pixels.Length
        invariant forall k :: 0 <= k < i ==> pixels[k] == ScaledPixel(original[k], scalar)
        invariant forall k :: i <= k < pixels.Length ==> pixels[k] == original[k]
      {
        pixels[i] := pixels[i] * scalar;
        if pixels[i] < CLAMP_THRESHOLD {
          pixels[i] := 0.0;
        }
        i := i + 1;
      }
    }

    /** `operator=(ofxCvFloatImage)`: an image of the same size is copied
        and the texture marked dirty; a different size changes nothing. */
    method Assign(mom: FloatImage)
      requires Valid() && mom.Valid()
      modifies pixels, this`bTextureDirty
      ensures mom.width == width && mom.height == height ==> pixels[..] == old(mom.pixels[..]) && bTextureDirty
      ensures !(mom.width == width && mom.height == height) ==> pixels[..] == old(pixels[..]) && bTextureDirty == old(bTextureDirty)
    {
      if mom.width == width && mom.height == height {
        forall k | 0 <= k < pixels.Length {
          pixels[k] := mom.pixels[k];
        }
        bTextureDirty := true;
      }
    }

    /** `operator=` from a grayscale or colour image: a source of the same
        size is converted into the buffer (the converted values are what
        `cvConvert` or `cvCvtColor` would produce); a different size
        changes nothing. */
    method AssignConverted(momWidth: int, momHeight: int, converted: seq<real>)
      requires Valid()
      requires momWidth == width && momHeight == height ==> |converted| == pixels.Length
      modifies pixels, this`bTextureDirty
      ensures momWidth == width && momHeight == height ==> pixels[..] == converted && bTextureDirty
      ensures !(momWidth == width && momHeight == height) ==> pixels[..] == old(pixels[..]) && bTextureDirty == old(bTextureDirty)
    {
      if momWidth == width && momHeight == height {
        forall k | 0 <= k < pixels.Length {
          pixels[k] := converted[k];
        }
        bTextureDirty := true;
      }
    }

    /** `scaleIntoMe(mom, interpolationMethod)`: only a source with the
        same channel count and depth is resized into this image, with an
        unknown method replaced by nearest-neighbour; the method used is
        returned, or `None` when the types differ. */
    method ScaleIntoMe(momChannels: int, momDepth: int, interpolationMethod: int) returns (used: Option<int>)
      modifies this`bTextureDirty
      ensures used.Some? <==> momChannels == nChannels && momDepth == depth
      ensures used.Some? ==> used.value == EffectiveInterpolation(interpolationMethod) && bTextureDirty
      ensures used.None? ==> bTextureDirty == old(bTextureDirty)
    {
      used := None;
      if momChannels == nChannels && momDepth == depth {
        var m := interpolationMethod;
        if m != CV_INTER_NN && m != CV_INTER_LINEAR && m != CV_INTER_AREA && m != CV_INTER_CUBIC {
          m := CV_INTER_NN;
        }
        used := Some(m);
        bTextureDirty := true;
      }
    }
  }
}
