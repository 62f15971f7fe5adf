/** The base GUI control: its name, its shape (a rectangle) and its four
    colours, and the stencil codec that packs the alpha channel of an image
    into bytes printed as a brace-delimited list of hexadecimal literals, and
    unpacks such bytes into an image. */
module BaseGui {
  import opened Util

  const TEXT_PADDING: int := 4
  const DEFAULT_WIDTH: int := 200
  const DEFAULT_HEIGHT: int := 16

  newtype byte = x: int | 0 <= x < 256

  /** A grey colour with the given alpha, as `ofColor(gray, alpha)` builds it. */
  function Gray(gray: int, alpha: int): Color { Color(gray, gray, gray, alpha) }

  // ---------------------------------------------------------------------
  // Bits and bytes

  function Pow2(k: nat): (r: nat)
    ensures r >= 1
  {
    if k == 0 then 1 else 2 * Pow2(k - 1)
  }

  /** Bit `j` of `b`: `(b >> j) & 1`. */
  function Bit(b: nat, j: nat): bool
  {
    if j == 0 then b % 2 == 1 else Bit(b / 2, j - 1)
  }

  /** The number whose bit `j` is `g[j]` (least significant bit first). */
  function Byte(g: seq<bool>): nat
  {
    if g == [] then 0 else (if g[0] then 1 else 0) + 2 * Byte(g[1..])
  }

  lemma {:induction false} ByteBound(g: seq<bool>)
    ensures Byte(g) < Pow2(|g|)
  {
    if g != [] { ByteBound(g[1..]); }
  }

  /** Setting the next higher bit adds its weight; as that bit is clear,
      this is the same as or-ing it in. */
  lemma {:induction false} ByteSnoc(g: seq<bool>, b: bool)
    ensures Byte(g + [b]) == Byte(g) + (if b then Pow2(|g|) else 0)
  {
    if g == [] {
      assert [b][1..] == [];
    } else {
      assert (g + [b])[1..] == g[1..] + [b];
      ByteSnoc(g[1..], b);
    }
  }

  /** Unpacking a packed group gives back its bits. */
  lemma {:induction false} BitOfByte(g: seq<bool>, j: nat)
    requires j < |g|
    ensures Bit(Byte(g), j) == g[j]
  {
    if j > 0 {
      assert Byte(g) / 2 == Byte(g[1..]);
      BitOfByte(g[1..], j - 1);
    }
  }

  /** Bits beyond a group's length are clear. */
  lemma {:induction false} BitOfByteBeyond(g: seq<bool>, j: nat)
    requires j >= |g|
    ensures !Bit(Byte(g), j)
  {
    if g == [] {
      ZeroBits(j);
    } else {
      assert Byte(g) / 2 == Byte(g[1..]);
      BitOfByteBeyond(g[1..], j - 1);
    }
  }

  lemma {:induction false} ZeroBits(j: nat)
    ensures !Bit(0, j)
  {
    if j > 0 { ZeroBits(j - 1); }
  }

  /** Whether pixel `i` of an RGBA buffer has alpha above 0, for the `n`
      first pixels. */
  function AlphaBits(pixels: seq<int>, n: nat): (bits: seq<bool>)
    requires 4 * n <= |pixels|
    ensures IsStencilOf(bits, pixels, n)
  {
    seq(n, i requires 0 <= i < n => pixels[4 * i + 3] > 0)
  }

  /** The bits of group `k`: pixels `8k` up to `8k + 8`, cut at the end. */
  function Group(bits: seq<bool>, k: nat): seq<bool>
    requires 8 * k <= |bits|
  {
    bits[8 * k .. if 8 * k + 8 <= |bits| then 8 * k + 8 else |bits|]
  }

  lemma GroupByte(bits: seq<bool>, k: nat)
    requires 8 * k <= |bits|
    ensures |Group(bits, k)| <= 8 && Byte(Group(bits, k)) < 256
  {
    ByteBound(Group(bits, k));
    if |Group(bits, k)| < 8 { Pow2Monotone(|Group(bits, k)|, 8); }
  }

  lemma {:induction false} Pow2Monotone(a: nat, b: nat)
    requires a <= b
    ensures Pow2(a) <= Pow2(b)
  {
    if a < b { Pow2Monotone(a, b - 1); }
  }

  /** The bytes of the first `q` complete groups of 8 bits. */
  function Groups(bits: seq<bool>, q: nat): (r: seq<byte>)
    requires 8 * q <= |bits|
    ensures |r| == q
    ensures forall k :: 0 <= k < q ==> r[k] as nat == Byte(bits[8 * k .. 8 * k + 8])
  {
    seq(q, k requires 0 <= k < q => GroupByte(bits, k); Byte(Group(bits, k)) as byte)
  }

  /** One byte per complete group of 8 bits; a trailing partial group is
      dropped. */
  function PackFull(bits: seq<bool>): (r: seq<byte>)
    ensures |r| == |bits| / 8
  {
    Groups(bits, |bits| / 8)
  }

  /** One byte per group of 8 bits, the last group padded with clear bits. */
  function PackAll(bits: seq<bool>): (r: seq<byte>)
    ensures |r| == (|bits| + 7) / 8
    ensures forall k :: 0 <= k < |r| ==> r[k] as nat == Byte(Group(bits, k))
  {
    seq((|bits| + 7) / 8, k requires 0 <= k < (|bits| + 7) / 8 =>
      GroupByte(bits, k); Byte(Group(bits, k)) as byte)
  }

  /** Pixel `i` of a stencil is set in the bytes when bit `i mod 8` of byte
      `i / 8` is. */
  predicate StencilBit(data: seq<byte>, i: nat)
    requires i / 8 < |data|
  {
    Bit(data[i / 8] as nat, i % 8)
  }

  /** Packing all groups keeps every bit. */
  lemma PackAllBits(bits: seq<bool>, i: nat)
    requires i < |bits|
    ensures StencilBit(PackAll(bits), i) == bits[i]
  {
    var k := i / 8;
    assert Group(bits, k)[i % 8] == bits[i];
    BitOfByte(Group(bits, k), i % 8);
  }

  /** Packing only the complete groups keeps every bit when the pixel count
      is a multiple of 8. */
  lemma PackFullBits(bits: seq<bool>, i: nat)
    requires |bits| % 8 == 0 && i < |bits|
    ensures StencilBit(PackFull(bits), i) == bits[i]
  {
    var k := i / 8;
    assert bits[8 * k .. 8 * k + 8][i % 8] == bits[i];
    BitOfByte(bits[8 * k .. 8 * k + 8], i % 8);
  }

  // ---------------------------------------------------------------------
  // Hexadecimal text

  function HexDigit(d: nat): (c: char)
    requires d < 16
    ensures DigitValue(c) == d
  {
    if d < 10 then ('0' as int + d) as char else ('a' as int + d - 10) as char
  }

  function DigitValue(c: char): nat
  {
    if '0' <= c <= '9' then (c - '0') as nat
    else if 'a' <= c <= 'f' then (c - 'a') as nat + 10
    else 0
  }

  /** `v` in lower-case hexadecimal without padding, as a stream with the
      `hex` manipulator prints it. */
  function Hex(v: nat): (s: string)
    ensures |s| >= 1
    ensures v < 16 ==> |s| == 1
  {
    if v < 16 then [HexDigit(v)] else Hex(v / 16) + [HexDigit(v % 16)]
  }

  /** The value of a hexadecimal numeral, read digit by digit. */
  function HexValue(s: string): nat
  {
    if s == [] then 0 else 16 * HexValue(s[..|s| - 1]) + DigitValue(s[|s| - 1])
  }

  /** Reading back a printed number gives the number. */
  lemma {:induction false} HexRoundTrip(v: nat)
    ensures HexValue(Hex(v)) == v
  {
    if v >= 16 {
      HexRoundTrip(v / 16);
      var s := Hex(v);
      assert s[..|s| - 1] == Hex(v / 16);
      assert DigitValue(s[|s| - 1]) == v % 16;
    }
  }

  /** One printed byte: `0x` and its digits. */
  function Token(b: byte): string
  {
    "0x" + Hex(b as nat)
  }

  /** The printed bytes with a comma between consecutive ones. */
  function Joined(bytes: seq<byte>): string
  {
    if |bytes| == 0 then ""
    else if |bytes| == 1 then Token(bytes[0])
    else Joined(bytes[..|bytes| - 1]) + "," + Token(bytes[|bytes| - 1])
  }

  /** The text `saveStencilToHex` produces for the bits of `n` pixels: the
      complete groups, and a stray comma when a partial group follows one. */
  function StencilText(bits: seq<bool>): string
  {
    "{" + Joined(PackFull(bits)) + (if |bits| / 8 > 0 && |bits| % 8 != 0 then "," else "") + "}"
  }

  /** The text of the corrected encoder: every group, the last one padded. */
  function StencilTextAll(bits: seq<bool>): string
  {
    "{" + Joined(PackAll(bits)) + "}"
  }

  /** As written, a pixel count above 8 that is not a multiple of 8 ends the
      text with a comma before the closing brace, and the partial group the
      decoder would read for the last pixels is missing. */
  lemma StencilTrailingComma(bits: seq<bool>)
    requires |bits| > 8 && |bits| % 8 != 0
    ensures var s := StencilText(bits); |s| >= 2 && s[|s| - 2..] == ",}"
    ensures |PackFull(bits)| < (|bits| + 7) / 8
  {
  }

  /** As written, 1 to 7 pixels never complete a group, so the text is `{}`
      with no byte and no comma, and every pixel is lost. */
  lemma StencilShortEmpty(bits: seq<bool>)
    requires 0 < |bits| < 8
    ensures StencilText(bits) == "{}"
    ensures |PackFull(bits)| == 0 < (|bits| + 7) / 8
  {
  }

  /** With a pixel count that is a multiple of 8 both encoders agree. */
  lemma StencilTextsAgree(bits: seq<bool>)
    requires |bits| % 8 == 0
    ensures StencilText(bits) == StencilTextAll(bits)
  {
    assert PackFull(bits) == PackAll(bits);
  }

  /** Appending a byte to the printed list. */
  lemma JoinedSnoc(bytes: seq<byte>, b: byte)
    ensures Joined(bytes + [b]) == (if bytes == [] then Token(b) else Joined(bytes) + "," + Token(b))
  {
    if bytes != [] {
      assert (bytes + [b])[..|bytes|] == bytes;
    }
  }

  /** A position written as `8 * q + shift` with `shift < 8` has quotient
      `q` and remainder `shift`. */
  lemma DivMod8(n: nat, q: nat, shift: nat)
    requires shift < 8 && n == 8 * q + shift
    ensures n / 8 == q && n % 8 == shift
  {
  }

  /** The pixel after position `8 * q + shift` closes a group exactly when
      `shift` is the last bit position. */
  lemma NextCloses(i: nat, q: nat, shift: nat)
    requires shift < 8 && i == 8 * q + shift
    ensures ((i + 1) % 8 == 0) == (shift == 7)
  {
    if shift == 7 { DivMod8(i + 1, q + 1, 0); } else { DivMod8(i + 1, q, shift + 1); }
  }

  /** The text the encoder has written once `8 * q + shift` pixels are
      processed (`shift < 8`): the opening brace, the `q` completed bytes,
      and the comma printed after the last of them when another pixel
      follows it. */
  function TextAfter(bits: seq<bool>, q: nat, shift: nat): string
    requires 8 * q + shift <= |bits|
  {
    "{" + Joined(Groups(bits, q))
      + (if q > 0 && (8 * q + shift < |bits| || shift != 0) then "," else "")
  }

  /** Adding one more complete group to the bytes. */
  lemma GroupsSnoc(bits: seq<bool>, q: nat)
    requires 8 * q + 8 <= |bits|
    ensures Byte(bits[8 * q .. 8 * q + 8]) < 256
    ensures Groups(bits, q + 1) == Groups(bits, q) + [Byte(bits[8 * q .. 8 * q + 8]) as byte]
  {
    GroupByte(bits, q);
    assert Group(bits, q) == bits[8 * q .. 8 * q + 8];
  }

  /** A pixel that closes a group prints the group's byte, and a comma when
      more pixels follow. */
  lemma TextAfterClose(bits: seq<bool>, q: nat)
    requires 8 * q + 8 <= |bits|
    ensures Byte(bits[8 * q .. 8 * q + 8]) < 256
    ensures TextAfter(bits, q + 1, 0) ==
      TextAfter(bits, q, 7) + Token(Byte(bits[8 * q .. 8 * q + 8]) as byte)
      + (if 8 * q + 8 < |bits| then "," else "")
  {
    GroupsSnoc(bits, q);
    var g := Groups(bits, q);
    var b := Byte(bits[8 * q .. 8 * q + 8]) as byte;
    var more := 8 * q + 8 < |bits|;
    CloseText(g, b, more);
    assert TextAfter(bits, q, 7) == "{" + Joined(g) + (if g != [] then "," else "");
    assert TextAfter(bits, q + 1, 0) == "{" + Joined(g + [b]) + (if more then "," else "");
  }

  /** The text around a closed group: the byte joins the list, after a
      comma when bytes came before. */
  lemma CloseText(g: seq<byte>, b: byte, more: bool)
    ensures "{" + Joined(g + [b]) + (if more then "," else "")
         == "{" + Joined(g) + (if g != [] then "," else "") + Token(b) + (if more then "," else "")
  {
    JoinedSnoc(g, b);
  }

  /** A pixel that does not close a group prints nothing. */
  lemma TextAfterInside(bits: seq<bool>, q: nat, shift: nat)
    requires shift < 7 && 8 * q + shift < |bits|
    ensures TextAfter(bits, q, shift + 1) == TextAfter(bits, q, shift)
  {
  }

  /** The running byte of the encoder after reading bits `lo` up to `hi`
      of the stencil: bit `j - lo` set for every set bit `j`. */
  function RunningByte(bits: seq<bool>, lo: nat, hi: nat): nat
    requires lo <= hi <= |bits|
    decreases hi
  {
    if hi == lo then 0 else RunningByte(bits, lo, hi - 1) + (if bits[hi - 1] then Pow2(hi - 1 - lo) else 0)
  }

  /** The running byte is the packed group of the bits read. */
  lemma {:induction false} RunningByteIsByte(bits: seq<bool>, lo: nat, hi: nat)
    requires lo <= hi <= |bits|
    ensures RunningByte(bits, lo, hi) == Byte(bits[lo .. hi])
    decreases hi
  {
    if hi > lo {
      RunningByteIsByte(bits, lo, hi - 1);
      assert bits[lo .. hi] == bits[lo .. hi - 1] + [bits[hi - 1]];
      ByteSnoc(bits[lo .. hi - 1], bits[hi - 1]);
    }
  }

  /** Closing group `q`: its running byte fits in a byte, and the text
      gains the byte and, when pixels follow, a comma. */
  lemma CloseStep(bits: seq<bool>, q: nat, cur: nat, s: string)
    requires 8 * q + 8 <= |bits|
    requires cur == RunningByte(bits, 8 * q, 8 * q + 8) && s == TextAfter(bits, q, 7)
    ensures cur < 256
    ensures s + Token(cur as byte) + (if 8 * q + 8 < |bits| then "," else "") == TextAfter(bits, q + 1, 0)
  {
    RunningByteIsByte(bits, 8 * q, 8 * q + 8);
    TextAfterClose(bits, q);
  }

  /** One pass of the encoder's loop body, from `i = 8 * q + shift` pixels
      to `i + 1`: the running byte takes the pixel's bit, and the text stays
      as it is within a group and gains the byte when the group closes. */
  lemma EncodeStep(bits: seq<bool>, pixels: seq<int>, n: nat, i: nat, q: nat, shift: nat,
                   prev: nat, cur: nat, s: string)
    requires IsStencilOf(bits, pixels, n) && i < n && shift < 8 && i == 8 * q + shift
    requires prev == RunningByte(bits, 8 * q, i) && s == TextAfter(bits, q, shift)
    requires cur == prev + (if pixels[i * 4 + 3] > 0 then Pow2(shift) else 0)
    ensures ((i + 1) % 8 == 0) == (shift == 7)
    ensures cur == RunningByte(bits, 8 * q, i + 1)
    ensures shift == 7 ==> cur < 256
    ensures shift == 7 ==> s + Token(cur as byte) == TextAfter(bits, q + 1, 0) || i + 1 < n
    ensures shift == 7 ==> s + Token(cur as byte) + "," == TextAfter(bits, q + 1, 0) || i + 1 == n
    ensures shift != 7 ==> s == TextAfter(bits, q, shift + 1)
  {
    NextCloses(i, q, shift);
    assert bits[i] == (pixels[4 * i + 3] > 0);
    if shift == 7 {
      CloseStep(bits, q, cur, s);
    } else {
      TextAfterInside(bits, q, shift);
    }
  }

  /** When the loop ends after `8 * q + shift` pixels, `q` and `shift` are
      the quotient and remainder of the pixel count, and the running byte
      is the packed partial group. */
  lemma EncodeDone(bits: seq<bool>, q: nat, shift: nat, cur: nat)
    requires shift < 8 && 8 * q + shift == |bits| && cur == RunningByte(bits, 8 * q, |bits|)
    ensures |bits| / 8 == q && |bits| % 8 == shift
    ensures cur == Byte(bits[8 * q ..])
  {
    DivMod8(|bits|, q, shift);
    RunningByteIsByte(bits, 8 * q, |bits|);
    assert bits[8 * q .. |bits|] == bits[8 * q ..];
  }

  /** `bits` holds, for each of the `n` first pixels of the RGBA buffer
      `pixels`, whether its alpha is above 0. */
  predicate IsStencilOf(bits: seq<bool>, pixels: seq<int>, n: nat)
  {
    4 * n <= |pixels| && |bits| == n && forall i :: 0 <= i < n ==> bits[i] == (pixels[4 * i + 3] > 0)
  }

  /** The loop of `saveStencilToHex` over the `n` pixels of the RGBA buffer
      `pixels`, whose stencil is `bits`. It ends with the running byte `cur`
      of the last, partial group and its bit position `shift`. */
  method EncodeGroups(n: nat, pixels: seq<int>, ghost bits: seq<bool>) returns (s: string, cur: nat, shift: nat)
    requires IsStencilOf(bits, pixels, n)
    ensures shift == n % 8 && 8 * (n / 8) + shift == n
    ensures s == TextAfter(bits, n / 8, shift)
    ensures cur == Byte(bits[8 * (n / 8) ..])
  {
    ghost var q := 0;
    cur := 0;
    shift := 0;
    s := "{";
    var i := 0;
    while i < n
      invariant shift < 8 && i == 8 * q + shift <= n
      invariant cur == RunningByte(bits, 8 * q, i)
      invariant s == TextAfter(bits, q, shift)
    {
      s, cur, shift, q := EncodePixel(n, pixels, bits, i, s, cur, shift, q);
      i := i + 1;
    }
    EncodeDone(bits, q, shift, cur);
  }

  /** One turn of the loop of `saveStencilToHex`: pixel `i` sets its bit of
      the running byte, and the byte is printed once it holds 8 bits. */
  method EncodePixel(n: nat, pixels: seq<int>, ghost bits: seq<bool>, i: nat, s: string, cur: nat, shift: nat, ghost q: nat)
    returns (s': string, cur': nat, shift': nat, ghost q': nat)
    requires IsStencilOf(bits, pixels, n) && i < n && shift < 8 && i == 8 * q + shift
    requires cur == RunningByte(bits, 8 * q, i) && s == TextAfter(bits, q, shift)
    ensures shift' < 8 && i + 1 == 8 * q' + shift'
    ensures cur' == RunningByte(bits, 8 * q', i + 1) && s' == TextAfter(bits, q', shift')
  {
    cur' := cur;
    if pixels[i * 4 + 3] > 0 {
      cur' := cur + Pow2(shift);
    }
    EncodeStep(bits, pixels, n, i, q, shift, cur, cur', s);
    if (i + 1) % 8 == 0 {
      s' := s + Token(cur' as byte);
      cur' := 0;
      shift' := 0;
      q' := q + 1;
      if i + 1 < n {
        s' := s' + ",";
      }
    } else {
      s', shift', q' := s, shift + 1, q;
    }
  }

  /** Encodes the stencil of a `width` by `height` RGBA image held in
      `pixels`, as the source does: only complete groups of 8 pixels are
      printed. */
  method SaveStencilToHex(width: nat, height: nat, pixels: seq<int>) returns (s: string)
    requires 4 * (width * height) <= |pixels|
    ensures s == StencilText(AlphaBits(pixels, width * height))
  {
    var cur, shift;
    ghost var bits := AlphaBits(pixels, width * height);
    s, cur, shift := EncodeGroups(width * height, pixels, bits);
    s := s + "}";
  }

  /** Packing every group is packing the complete ones and then the padded
      partial one, if any. */
  lemma PackAllSplit(bits: seq<bool>, q: nat, shift: nat)
    requires shift < 8 && 8 * q + shift == |bits|
    ensures Byte(bits[8 * q ..]) < 256
    ensures shift == 0 ==> PackAll(bits) == Groups(bits, q)
    ensures shift != 0 ==> PackAll(bits) == Groups(bits, q) + [Byte(bits[8 * q ..]) as byte]
  {
    DivMod8(|bits|, q, shift);
    if shift == 0 { DivMod8(|bits| + 7, q, 7); } else { DivMod8(|bits| + 7, q + 1, shift - 1); }
    GroupByte(bits, q);
    assert Group(bits, q) == bits[8 * q ..];
    forall k | 0 <= k < q ensures PackAll(bits)[k] == Groups(bits, q)[k] {
      assert Group(bits, k) == bits[8 * k .. 8 * k + 8];
    }
  }

  /** After the loop over a pixel count that is a multiple of 8, the
      closing brace completes the text with every group. */
  lemma FinishAligned(bits: seq<bool>, q: nat, s: string)
    requires 8 * q == |bits| && s == TextAfter(bits, q, 0)
    ensures s + "}" == StencilTextAll(bits)
  {
    PackAllSplit(bits, q, 0);
    assert s == "{" + Joined(Groups(bits, q));
  }

  /** After the loop over a pixel count that is not a multiple of 8,
      printing the partial group and the closing brace completes the text
      with every group. */
  lemma FinishPartial(bits: seq<bool>, q: nat, shift: nat, cur: nat, s: string)
    requires 0 < shift < 8 && 8 * q + shift == |bits|
    requires s == TextAfter(bits, q, shift) && cur == Byte(bits[8 * q ..])
    ensures cur < 256
    ensures s + Token(cur as byte) + "}" == StencilTextAll(bits)
  {
    PackAllSplit(bits, q, shift);
    var g := Groups(bits, q);
    var t := Token(cur as byte);
    assert PackAll(bits) == g + [cur as byte];
    JoinedSnoc(g, cur as byte);
    if q == 0 {
      assert s == "{" && Joined(PackAll(bits)) == t;
    } else {
      assert s == "{" + Joined(g) + ",";
      var j := Joined(g) + "," + t;
      assert Joined(PackAll(bits)) == j;
      assert s + t == "{" + j;
    }
  }

  /** The encoder with the final partial group printed too, so that the
      decoder finds a byte for every pixel. */
  method SaveStencilToHexAll(width: nat, height: nat, pixels: seq<int>) returns (s: string)
    requires 4 * (width * height) <= |pixels|
    ensures s == StencilTextAll(AlphaBits(pixels, width * height))
  {
    ghost var bits := AlphaBits(pixels, width * height);
    var cur, shift;
    s, cur, shift := EncodeGroups(width * height, pixels, bits);
    if shift != 0 {
      FinishPartial(bits, |bits| / 8, shift, cur, s);
      s := s + Token(cur as byte);
    } else {
      FinishAligned(bits, |bits| / 8, s);
    }
    s := s + "}";
  }

  /** The alpha that `loadStencilFromHex` gives pixel `i`. */
  function DecodedAlpha(data: seq<byte>, i: nat): int
    requires i / 8 < |data|
  {
    if StencilBit(data, i) then 255 else 0
  }

  /** Pixel `p` of the RGBA buffer `img` holds what the decoder writes
      for it: white, with the alpha of its stencil bit. */
  ghost predicate PixelDone(img: array<int>, data: seq<byte>, p: nat)
    requires 4 * p + 3 < img.Length && p / 8 < |data|
    reads img
  {
    img[4 * p] == 255 && img[4 * p + 1] == 255 && img[4 * p + 2] == 255
    && img[4 * p + 3] == DecodedAlpha(data, p)
  }

  /** `img.setColor` on pixel `p` of an RGBA buffer: the four channels of
      that pixel are set, nothing else changes. */
  method SetColor(img: array<int>, p: nat, c: Color)
    requires 4 * p + 3 < img.Length
    modifies img
    ensures img[4 * p] == c.r && img[4 * p + 1] == c.g && img[4 * p + 2] == c.b && img[4 * p + 3] == c.a
    ensures forall j :: 0 <= j < img.Length && (j < 4 * p || j > 4 * p + 3) ==> img[j] == old(img[j])
  {
    img[4 * p] := c.r;
    img[4 * p + 1] := c.g;
    img[4 * p + 2] := c.b;
    img[4 * p + 3] := c.a;
  }

  /** Pixel `x` of row `y` lies inside a `w` by `h` image. */
  lemma RowIndex(y: nat, x: nat, w: nat, h: nat)
    requires y < h && x < w
    ensures y * w + x < w * h
  {
    assert y * w + x < (y + 1) * w;
    assert (y + 1) * w <= h * w by { MulMonotone(y + 1, h, w); }
  }

  lemma MulMonotone(a: nat, b: nat, c: nat)
    requires a <= b
    ensures a * c <= b * c
  {
  }

  /** Decodes `data` into the RGBA buffer `img` of a `width` by `height`
      image, row by row: every pixel becomes white, opaque where its bit is
      set and transparent elsewhere. */
  method LoadStencilFromHex(img: array<int>, width: nat, height: nat, data: seq<byte>)
    requires img.Length == 4 * (width * height)
    requires (width * height + 7) / 8 <= |data|
    modifies img
    ensures forall p :: 0 <= p < width * height ==> PixelDone(img, data, p)
  {
    var n := width * height;
    var on := Gray(255, 255);
    var off := Gray(255, 0);
    var i := 0;
    var y := 0;
    while y < height
      invariant 0 <= y <= height && i == y * width && i <= n
      invariant forall p :: 0 <= p < i ==> PixelDone(img, data, p)
    {
      var x := 0;
      while x < width
        invariant 0 <= x <= width && i == y * width + x && i <= n
        invariant forall p :: 0 <= p < i ==> PixelDone(img, data, p)
      {
        RowIndex(y, x, width, height);
        DecodePixel(img, n, data, i, on, off);
        i := i + 1;
        x := x + 1;
      }
      assert (y + 1) * width == y * width + width;
      y := y + 1;
    }
  }

  /** One turn of the loop of `loadStencilFromHex`: pixel `i` becomes `on`
      or `off` as its bit says; the pixels before it keep their colours. */
  method DecodePixel(img: array<int>, n: nat, data: seq<byte>, i: nat, on: Color, off: Color)
    requires img.Length == 4 * n && (n + 7) / 8 <= |data| && i < n
    requires on == Gray(255, 255) && off == Gray(255, 0)
    requires forall p :: 0 <= p < i ==> PixelDone(img, data, p)
    modifies img
    ensures forall p :: 0 <= p < i + 1 ==> PixelDone(img, data, p)
  {
    var shift := i % 8;
    var offset := i / 8;
    var cur := Bit(data[offset] as nat, shift);
    label before:
    SetColor(img, i, if cur then on else off);
    assert PixelDone(img, data, i);
    forall p | 0 <= p < i ensures PixelDone(img, data, p) {
      assert old@before(PixelDone(img, data, p));
      assert 4 * p + 3 < 4 * i;
    }
  }

  /** Decoding the bytes of a stencil whose pixel count is a multiple of 8
      gives alpha 255 exactly where the original alpha was above 0. */
  lemma StencilRoundTrip(pixels: seq<int>, n: nat, i: nat)
    requires 4 * n <= |pixels| && n % 8 == 0 && i < n
    ensures DecodedAlpha(PackFull(AlphaBits(pixels, n)), i) == (if pixels[4 * i + 3] > 0 then 255 else 0)
  {
    PackFullBits(AlphaBits(pixels, n), i);
  }

  /** With every group printed, decoding gives back the stencil for any
      pixel count. */
  lemma StencilRoundTripAll(pixels: seq<int>, n: nat, i: nat)
    requires 4 * n <= |pixels| && i < n
    ensures DecodedAlpha(PackAll(AlphaBits(pixels, n)), i) == (if pixels[4 * i + 3] > 0 then 255 else 0)
  {
    PackAllBits(AlphaBits(pixels, n), i);
  }

  // ---------------------------------------------------------------------
  // The control

  /** The state every control shares. `kind` stands for the control's
      dynamic type. */
  class Control {
    const kind: nat
    var name: string
    var b: Rect
    var headerBackgroundColor: Color
    var backgroundColor: Color
    var textColor: Color
    var fillColor: Color
    var guiActive: bool
    var currentFrame: int

    constructor (kind: nat)
      ensures this.kind == kind && name == "" && b == Rect(0.0, 0.0, 0.0, 0.0)
      ensures headerBackgroundColor == Gray(64, 255) && backgroundColor == Gray(0, 255)
      ensures textColor == Gray(255, 255) && fillColor == Gray(128, 255)
      ensures !guiActive && currentFrame == 0
    {
      this.kind := kind;
      name := "";
      b := Rect(0.0, 0.0, 0.0, 0.0);
      guiActive := false;
      currentFrame := 0;
      headerBackgroundColor := Gray(64, 255);
      backgroundColor := Gray(0, 255);
      textColor := Gray(255, 255);
      fillColor := Gray(128, 255);
    }

    function GetName(): string reads this { name }

    method SetName(newName: string)
      modifies this`name
      ensures name == newName
    {
      name := newName;
    }

    /** Moves the control; its size is kept. */
    method SetPosition(x: real, y: real)
      modifies this`b
      ensures b.x == x && b.y == y
      ensures b.width == old(b.width) && b.height == old(b.height)
    {
      b := b.(x := x, y := y);
    }

    /** Resizes the control; its position is kept. */
    method SetSize(w: real, h: real)
      modifies this`b
      ensures b.width == w && b.height == h
      ensures b.x == old(b.x) && b.y == old(b.y)
    {
      b := b.(width := w, height := h);
    }

    method SetShape(x: real, y: real, w: real, h: real)
      modifies this`b
      ensures b == Rect(x, y, w, h)
    {
      b := Rect(x, y, w, h);
    }

    function GetPosition(): (real, real) reads this { (b.x, b.y) }
    function GetShape(): Rect reads this { b }
    function GetWidth(): real reads this { b.width }
    function GetHeight(): real reads this { b.height }

    method SetHeaderBackgroundColor(c: Color)
      modifies this`headerBackgroundColor
      ensures headerBackgroundColor == c
    {
      headerBackgroundColor := c;
    }

    method SetBackgroundColor(c: Color)
      modifies this`backgroundColor
      ensures backgroundColor == c
    {
      backgroundColor := c;
    }

    method SetTextColor(c: Color)
      modifies this`textColor
      ensures textColor == c
    {
      textColor := c;
    }

    method SetFillColor(c: Color)
      modifies this`fillColor
      ensures fillColor == c
    {
      fillColor := c;
    }
  }
}
