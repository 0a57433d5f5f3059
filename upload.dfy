/**
 * Upload planning of `TextureCacheData::UploadToGPU`: the host transfer format
 * fixed by the texture type, the mip-chain transfers read from one smallest-first
 * buffer, and the software renderer's 2x2 wrap-around texel quads.
 */
module Upload {
  import opened GlTypes
  import opened TexMath

  // ---------------------------------------------------------------------------
  // Format selection

  /** Components per texel of a transfer layout. */
  function ComponentCount(c: Comps): nat
  {
    match c
    case Rgb => 3
    case Rgba => 4
    case OtherComps => 0
  }

  /** Bytes one texel occupies in host memory for a transfer format. */
  function HostBytesPerTexel(f: HostFormat): nat
  {
    match f.pixelType
    case UnsignedByte => ComponentCount(f.comps)
    case OtherPixelType => 0
    case _ => 2
  }

  /** Components packed into one value of a packed pixel type (0 for unpacked types). */
  function PackedComponents(t: PixelType): nat
  {
    match t
    case UShort5551 => 4
    case UShort565 => 3
    case UShort4444 => 4
    case _ => 0
  }

  /** Bytes per texel the mip loop steps by: 4 for 8888 and 2 otherwise. */
  function MipBpp(t: TextureType): nat
  {
    if t == Tex8888 then 4 else 2
  }

  /**
   * The transfer format of a texture type, or None for a type the uploader dies on.
   * The layout agrees with the packed type and with the stride the mip loop uses.
   */
  function UploadFormat(t: TextureType): (r: Option<HostFormat>)
    ensures r.None? <==> t == TexOther
    ensures r.Some? ==> HostBytesPerTexel(r.value) == MipBpp(t)
    ensures r.Some? && r.value.pixelType != UnsignedByte ==>
      PackedComponents(r.value.pixelType) == ComponentCount(r.value.comps)
    ensures r.Some? && r.value.comps == Rgb ==> t == Tex565
  {
    match t
    case Tex5551 => Some(HostFormat(Rgba, UShort5551))
    case Tex565 => Some(HostFormat(Rgb, UShort565))
    case Tex4444 => Some(HostFormat(Rgba, UShort4444))
    case Tex8888 => Some(HostFormat(Rgba, UnsignedByte))
    case TexOther => None
  }

  /** Bits per texel of a sized internal format. */
  function InternalBits(f: InternalFormat): nat
  {
    match f
    case Rgb5A1 => 16
    case Rgb565 => 16
    case Rgba4 => 16
    case Rgba8 => 32
  }

  /** The immutable-storage format of a supported type; same texel size as its transfer format. */
  function InternalFormatOf(t: TextureType): (r: InternalFormat)
    requires t != TexOther
    ensures InternalBits(r) == 8 * HostBytesPerTexel(UploadFormat(t).value)
  {
    match t
    case Tex5551 => Rgb5A1
    case Tex565 => Rgb565
    case Tex4444 => Rgba4
    case Tex8888 => Rgba8
  }

  // ---------------------------------------------------------------------------
  // The transfers UploadToGPU issues

  /** Iteration `i` of the mip loop: the 2^i x 2^i image, GL level L-1-i, read at MipOffset(i). */
  function MipImage(storage: bool, levels: nat, i: nat, f: HostFormat, bpp: nat): GlCall
    requires i < levels
  {
    if storage then
      TexSubImage2D(levels - 1 - i, Pow2(i), Pow2(i), f.comps, f.pixelType, MipOffset(i, bpp))
    else
      TexImage2D(levels - 1 - i, Pow2(i), Pow2(i), f.comps, f.pixelType, MipOffset(i, bpp))
  }

  function MipImages(storage: bool, levels: nat, f: HostFormat, bpp: nat): (r: seq<GlCall>)
    ensures |r| == levels
  {
    seq(levels, i requires 0 <= i < levels => MipImage(storage, levels, i, f, bpp))
  }

  /**
   * Everything the GL branch of UploadToGPU sends to the device for a texture of
   * type `t` on its `updates`-th materialisation.
   */
  function GpuUpload(t: TextureType, updates: int, width: nat, height: int,
                     mipmapped: bool, texStorage: bool): Result<seq<GlCall>>
  {
    match UploadFormat(t)
    case None => Die(UnsupportedTextureType)
    case Some(f) =>
      if !mipmapped then
        Ok([SetBaseLevel(0), SetMaxLevel(0), TexImage2D(0, width, height, f.comps, f.pixelType, 0)])
      else
        var levels := BitLength(width);
        if texStorage then
          Ok((if updates == 1 then [TexStorage2D(levels, InternalFormatOf(t), width, height)] else [])
             + MipImages(true, levels, f, MipBpp(t)))
        else
          Ok([SetBaseLevel(0), SetMaxLevel(levels as int - 1)] + MipImages(false, levels, f, MipBpp(t)))
  }

  /** Without mipmapping exactly one image is sent: level 0, full size, max level 0. */
  lemma GpuUploadSingleLevel(t: TextureType, updates: int, width: nat, height: int, texStorage: bool)
    requires t != TexOther
    ensures var r := GpuUpload(t, updates, width, height, false, texStorage);
      r.Ok? && |r.value| == 3 && r.value[0] == SetBaseLevel(0) && r.value[1] == SetMaxLevel(0) &&
      r.value[2].IsImage() &&
      (forall j :: 0 <= j < 3 && r.value[j].IsImage() ==>
         r.value[j] == TexImage2D(0, width, height, UploadFormat(t).value.comps,
                                  UploadFormat(t).value.pixelType, 0))
  {
  }

  /** Immutable storage is allocated only on the first materialisation of a mipmapped texture. */
  lemma StorageOnlyOnFirstUpdate(t: TextureType, updates: int, width: nat, height: int,
                                 mipmapped: bool, texStorage: bool)
    ensures var r := GpuUpload(t, updates, width, height, mipmapped, texStorage);
      r.Ok? ==> forall j :: 0 <= j < |r.value| && r.value[j].TexStorage2D? ==>
        j == 0 && updates == 1 && mipmapped && texStorage &&
        r.value[j] == TexStorage2D(BitLength(width), InternalFormatOf(t), width, height)
  {
    var r := GpuUpload(t, updates, width, height, mipmapped, texStorage);
    if r.Ok? && mipmapped {
      var f := UploadFormat(t).value;
      var levels := BitLength(width);
      var imgs := MipImages(texStorage, levels, f, MipBpp(t));
      var head: seq<GlCall> :=
        if !texStorage then [SetBaseLevel(0), SetMaxLevel(levels as int - 1)]
        else if updates == 1 then [TexStorage2D(levels, InternalFormatOf(t), width, height)]
        else [];
      assert r.value == head + imgs;
      forall j | |head| <= j < |r.value|
        ensures r.value[j].IsImage()
      {
        assert r.value[j] == MipImage(texStorage, levels, j - |head|, f, MipBpp(t));
      }
    }
  }

  /**
   * The mip chain: the images go from 1x1 up, each read right after the previous one
   * in the buffer, so the whole chain consumes bpp * (4^L - 1) / 3 bytes; the last
   * image is GL level 0 and is the full `width` when `width` is a power of two.
   */
  lemma MipChainLayout(storage: bool, width: nat, f: HostFormat, bpp: nat)
    ensures forall i :: 0 <= i < BitLength(width) ==>
      var img := MipImages(storage, BitLength(width), f, bpp)[i];
      img.IsImage() && img.level == BitLength(width) - 1 - i &&
      img.width == img.height == Pow2(i) &&
      3 * img.offset + bpp == bpp * Pow2(2 * i)
    ensures forall i :: 0 <= i < BitLength(width) - 1 ==>
      var imgs := MipImages(storage, BitLength(width), f, bpp);
      imgs[i + 1].offset == imgs[i].offset + ImageBytes(imgs[i], bpp)
    ensures BitLength(width) > 0 ==>
      var last := MipImages(storage, BitLength(width), f, bpp)[BitLength(width) - 1];
      3 * (last.offset + ImageBytes(last, bpp)) + bpp == bpp * Pow2(2 * BitLength(width))
    ensures IsPow2(width) ==>
      BitLength(width) > 0 && MipImages(storage, BitLength(width), f, bpp)[BitLength(width) - 1].width == width
  {
    var levels := BitLength(width);
    var imgs := MipImages(storage, levels, f, bpp);
    forall i | 0 <= i < levels
      ensures imgs[i].IsImage() && imgs[i].level == levels - 1 - i
      ensures imgs[i].width == imgs[i].height == Pow2(i)
      ensures 3 * imgs[i].offset + bpp == bpp * Pow2(2 * i)
      ensures imgs[i].offset == MipOffset(i, bpp)
      ensures imgs[i].offset + ImageBytes(imgs[i], bpp) == MipOffset(i + 1, bpp)
    {
      MipImageLayout(storage, levels, i, f, bpp);
    }
    if levels > 0 {
      MipOffsetTimesThree(levels, bpp);
    }
    if IsPow2(width) {
      PowerOfTwoWidth(width);
    }
  }

  /** Bytes an image transfer reads from the buffer. */
  function ImageBytes(c: GlCall, bpp: nat): int
    requires c.IsImage()
  {
    c.width * c.height * bpp
  }

  lemma MipImageLayout(storage: bool, levels: nat, i: nat, f: HostFormat, bpp: nat)
    requires i < levels
    ensures var img := MipImage(storage, levels, i, f, bpp);
      img.IsImage() && img.level == levels - 1 - i &&
      img.width == img.height == Pow2(i) &&
      3 * img.offset + bpp == bpp * Pow2(2 * i) &&
      img.offset + ImageBytes(img, bpp) == MipOffset(i + 1, bpp)
  {
    var img := MipImage(storage, levels, i, f, bpp);
    var a := Pow2(i);
    MipOffsetStep(i, bpp);
    MipOffsetTimesThree(i, bpp);
    Pow2Add(i, i);
    assert i + i == 2 * i;
    var b := Pow2(2 * i);
    assert b == a * a;
    assert img.width * img.height * bpp == b * bpp;
  }

  /** A power-of-two width is 2^(L-1) for its bit length L. */
  lemma PowerOfTwoWidth(width: nat)
    requires IsPow2(width)
    ensures BitLength(width) >= 1 && Pow2(BitLength(width) - 1) == width
  {
    var k := PowerOfTwoLog(width);
    BitLengthOfPow2(k);
  }

  lemma {:induction false} PowerOfTwoLog(n: nat) returns (k: nat)
    requires IsPow2(n)
    ensures Pow2(k) == n
  {
    if n == 1 {
      k := 0;
    } else {
      var k' := PowerOfTwoLog(n / 2);
      k := k' + 1;
    }
  }

  // ---------------------------------------------------------------------------
  // The loops of UploadToGPU

  /** The mip-level count loop: shift the width right until it is zero. */
  method MipLevelCount(width: nat) returns (levels: nat)
    ensures levels == BitLength(width)
    ensures width > 0 ==> Pow2(levels - 1) <= width < Pow2(levels)
  {
    levels := 0;
    var dim := width;
    while dim != 0
      invariant levels + BitLength(dim) == BitLength(width)
    {
      levels := levels + 1;
      dim := dim / 2;
    }
    if width > 0 {
      BitLengthBounds(width);
    }
  }

  /**
   * The GL branch of UploadToGPU: pick the format (or die), then either one level-0
   * image or the mip loop that advances through the buffer one image at a time.
   */
  method PlanGpuUpload(t: TextureType, updates: int, width: nat, height: int,
                       mipmapped: bool, texStorage: bool) returns (r: Result<seq<GlCall>>)
    ensures r == GpuUpload(t, updates, width, height, mipmapped, texStorage)
  {
    var f: HostFormat;
    match UploadFormat(t) {
      case None =>
        return Die(UnsupportedTextureType);
      case Some(hf) =>
        f := hf;
    }
    if !mipmapped {
      return Ok([SetBaseLevel(0), SetMaxLevel(0), TexImage2D(0, width, height, f.comps, f.pixelType, 0)]);
    }
    var levels := MipLevelCount(width);
    var bpp := if t == Tex8888 then 4 else 2;
    var calls: seq<GlCall>;
    if texStorage {
      calls := if updates == 1 then [TexStorage2D(levels, InternalFormatOf(t), width, height)] else [];
    } else {
      calls := [SetBaseLevel(0), SetMaxLevel(levels as int - 1)];
    }
    ghost var head := calls;
    var offset := 0;
    var i := 0;
    while i < levels
      invariant 0 <= i <= levels
      invariant offset == MipOffset(i, bpp)
      invariant calls == head + MipImages(texStorage, levels, f, bpp)[..i]
    {
      var size := Pow2(i);
      var image := if texStorage
        then TexSubImage2D(levels - i - 1, size, size, f.comps, f.pixelType, offset)
        else TexImage2D(levels - i - 1, size, size, f.comps, f.pixelType, offset);
      calls := calls + [image];
      MipOffsetStep(i, bpp);
      offset := offset + Pow2(2 * i) * bpp;
      assert MipImages(texStorage, levels, f, bpp)[..i + 1]
          == MipImages(texStorage, levels, f, bpp)[..i] + [image];
      i := i + 1;
    }
    assert MipImages(texStorage, levels, f, bpp)[..levels] == MipImages(texStorage, levels, f, bpp);
    r := Ok(calls);
  }

  // ---------------------------------------------------------------------------
  // Software-renderer expansion

  /** Texel (x, y) of a w-wide image stored row by row. */
  function TexelIndex(x: nat, y: nat, w: nat): nat
  {
    x + y * w
  }

  /**
   * The source texel that corner `k` of the quad for (x, y) is read from:
   * ((x+1)%w, (y+1)%h), (x, (y+1)%h), ((x+1)%w, y), (x, y) for k = 0..3.
   */
  function QuadSource(x: nat, y: nat, k: nat, w: nat, h: nat): (r: nat)
    requires x < w && y < h && k < 4
    ensures r < w * h
  {
    var sx := if k == 0 || k == 2 then (x + 1) % w else x;
    var sy := if k == 0 || k == 1 then (y + 1) % h else y;
    GridIndexBound(sx, sy, w, h);
    TexelIndex(sx, sy, w)
  }

  lemma GridIndexBound(x: nat, y: nat, w: nat, h: nat)
    requires x < w && y < h
    ensures x + y * w < w * h
  {
    assert y * w <= (h - 1) * w;
  }

  lemma RowBound(y: nat, w: nat, h: nat)
    requires y < h
    ensures y * w + w <= w * h
  {
    assert y * w + w == (y + 1) * w;
    MulMonotone(y + 1, h, w);
  }

  /** A texel buffer and palette row the software path can read: w*h 16-bit texels, 65536 colours. */
  predicate SoftSourceOk(texels: seq<int>, palette: seq<int>, w: nat, h: nat)
  {
    |texels| >= w * h && |palette| == 65536 &&
    forall i :: 0 <= i < |texels| ==> 0 <= texels[i] < 65536
  }

  /** The flat pData index `j` names a pixel of the w x h grid and one of its four corners. */
  lemma FlatIndex(j: nat, w: nat, h: nat)
    requires j < 4 * (w * h)
    ensures w > 0 && h > 0
    ensures (j / 4) % w < w && (j / 4) / w < h
  {
    var p := j / 4;
    assert p < w * h;
    assert w > 0 && h > 0;
    var q := p / w;
    assert q * w <= p;
    if q >= h {
      MulMonotone(h, q, w);
    }
  }

  /** Value `j` of the software texture: a decoded colour of the source texel its corner reads. */
  function SoftTexel(texels: seq<int>, palette: seq<int>, w: nat, h: nat, j: nat): int
    requires SoftSourceOk(texels, palette, w, h) && j < 4 * (w * h)
  {
    FlatIndex(j, w, h);
    palette[texels[QuadSource((j / 4) % w, (j / 4) / w, j % 4, w, h)]]
  }

  /** The whole pData buffer: w*h groups of four colours. */
  function SoftExpansion(texels: seq<int>, palette: seq<int>, w: nat, h: nat): (r: seq<int>)
    requires SoftSourceOk(texels, palette, w, h)
    ensures |r| == 4 * (w * h)
  {
    seq(4 * (w * h), j requires 0 <= j < 4 * (w * h) => SoftTexel(texels, palette, w, h, j))
  }

  /** The group for (x, y) sits at 4*(x + y*w) and holds the four corners in order. */
  lemma SoftExpansionAt(texels: seq<int>, palette: seq<int>, w: nat, h: nat, x: nat, y: nat, k: nat)
    requires SoftSourceOk(texels, palette, w, h) && x < w && y < h && k < 4
    ensures 4 * TexelIndex(x, y, w) + k < 4 * (w * h)
    ensures SoftExpansion(texels, palette, w, h)[4 * TexelIndex(x, y, w) + k]
         == palette[texels[QuadSource(x, y, k, w, h)]]
  {
    GroupTexel(texels, palette, w, h, x, y, k);
  }

  lemma GroupTexel(texels: seq<int>, palette: seq<int>, w: nat, h: nat, x: nat, y: nat, k: nat)
    requires SoftSourceOk(texels, palette, w, h) && x < w && y < h && k < 4
    ensures 4 * TexelIndex(x, y, w) + k < 4 * (w * h)
    ensures SoftTexel(texels, palette, w, h, 4 * TexelIndex(x, y, w) + k)
         == palette[texels[QuadSource(x, y, k, w, h)]]
  {
    GridIndexBound(x, y, w, h);
    DecodeIndex(x, y, k, w);
  }

  /** Division and remainder recover (x, y, k) from 4*(x + y*w) + k. */
  lemma DecodeIndex(x: nat, y: nat, k: nat, w: nat)
    requires x < w && k < 4
    ensures (4 * TexelIndex(x, y, w) + k) / 4 == TexelIndex(x, y, w)
    ensures (4 * TexelIndex(x, y, w) + k) % 4 == k
    ensures TexelIndex(x, y, w) % w == x && TexelIndex(x, y, w) / w == y
  {
    var p := TexelIndex(x, y, w);
    DivModUnique(4 * p + k, 4, p, k);
    DivModUnique(p, w, y, x);
  }

  lemma DivModUnique(a: int, d: int, q: int, m: int)
    requires d > 0 && 0 <= m < d && a == q * d + m
    ensures a / d == q && a % d == m
  {
    var q', m' := a / d, a % d;
    assert a == q' * d + m';
    if q' > q {
      MulMonotone(q + 1, q', d);
    } else if q' < q {
      MulMonotone(q', q - 1, d);
    }
  }

  lemma MulMonotone(x: int, y: int, d: int)
    requires x <= y && d >= 0
    ensures x * d <= y * d
  {
    assert y * d - x * d == (y - x) * d;
  }

  /** One iteration of the inner loop: write the four corners of the group for (x, y). */
  method FillQuad(pData: array<int>, texels: seq<int>, palette: seq<int>, w: nat, h: nat, x: nat, y: nat, base: nat)
    requires SoftSourceOk(texels, palette, w, h) && x < w && y < h
    requires base == 4 * TexelIndex(x, y, w) && base + 4 <= pData.Length
    modifies pData
    ensures forall j :: 0 <= j < pData.Length && !(base <= j < base + 4) ==> pData[j] == old(pData[j])
    ensures pData[base] == palette[texels[QuadSource(x, y, 0, w, h)]]
    ensures pData[base + 1] == palette[texels[QuadSource(x, y, 1, w, h)]]
    ensures pData[base + 2] == palette[texels[QuadSource(x, y, 2, w, h)]]
    ensures pData[base + 3] == palette[texels[QuadSource(x, y, 3, w, h)]]
  {
    pData[base] := palette[texels[QuadSource(x, y, 0, w, h)]];
    pData[base + 1] := palette[texels[QuadSource(x, y, 1, w, h)]];
    pData[base + 2] := palette[texels[QuadSource(x, y, 2, w, h)]];
    pData[base + 3] := palette[texels[QuadSource(x, y, 3, w, h)]];
  }

  /** The inner loop for row y: extend the filled prefix of pData by the row's w groups. */
  method FillRow(pData: array<int>, texels: seq<int>, palette: seq<int>, w: nat, h: nat, y: nat, row: nat)
    requires SoftSourceOk(texels, palette, w, h) && y < h && row == y * w
    requires pData.Length == 4 * (w * h) && row + w <= w * h
    requires forall j :: 0 <= j < 4 * row ==> pData[j] == SoftTexel(texels, palette, w, h, j)
    modifies pData
    ensures forall j :: 0 <= j < 4 * (row + w) ==> pData[j] == SoftTexel(texels, palette, w, h, j)
  {
    var x := 0;
    while x < w
      invariant 0 <= x <= w
      invariant forall j :: 0 <= j < 4 * (row + x) ==> pData[j] == SoftTexel(texels, palette, w, h, j)
    {
      var base := 4 * (row + x);
      FillQuad(pData, texels, palette, w, h, x, y, base);
      GroupTexel(texels, palette, w, h, x, y, 0);
      GroupTexel(texels, palette, w, h, x, y, 1);
      GroupTexel(texels, palette, w, h, x, y, 2);
      GroupTexel(texels, palette, w, h, x, y, 3);
      x := x + 1;
    }
  }

  /**
   * The software branch of UploadToGPU: a fresh buffer of w*h groups, filled row by
   * row with the decoded colours of each texel's 2x2 wrap-around neighbourhood.
   */
  method ExpandQuads(texels: seq<int>, palette: seq<int>, w: nat, h: nat) returns (pData: array<int>)
    requires SoftSourceOk(texels, palette, w, h)
    ensures fresh(pData)
    ensures pData[..] == SoftExpansion(texels, palette, w, h)
  {
    pData := new int[4 * (w * h)];
    var y, row := 0, 0;
    while y < h
      invariant 0 <= y <= h && row == y * w && row <= w * h
      invariant forall j :: 0 <= j < 4 * row ==> pData[j] == SoftTexel(texels, palette, w, h, j)
    {
      RowBound(y, w, h);
      FillRow(pData, texels, palette, w, h, y, row);
      y, row := y + 1, row + w;
      assert row == y * w;
    }
    assert row == w * h;
  }
}
