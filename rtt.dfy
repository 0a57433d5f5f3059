/**
 * The arithmetic of the render-to-texture bridge: the padded render-target size
 * (`BindRTT`), and the clip/stride clamp, the video-memory pages to unlock, the
 * direct-readback test and the texture key a finished target is published under
 * (`ReadRTTBuffer`). All `u32` arithmetic of the source is written out with Wrap32.
 */
module Rtt {
  import opened GlTypes
  import opened TexMath

  // ---------------------------------------------------------------------------
  // BindRTT: padding and upscaling

  /** The doubling loop of BindRTT: start at 2 and double while below the request. */
  method PadToPow2(n: nat) returns (p: nat)
    ensures IsPow2(p) && p >= 2 && p >= n
    ensures p == 2 || p / 2 < n
    ensures p == RoundUpPow2(n)
  {
    p := 2;
    assert IsPow2(2) by { assert 2 / 2 == 1; }
    while p < n
      invariant IsPow2(p) && p >= 2
      invariant p == 2 || p / 2 < n
      invariant RoundUpFrom(p, n) == RoundUpPow2(n)
      decreases n - p
    {
      assert (2 * p) / 2 == p;
      p := 2 * p;
    }
  }

  /** The render-to-texture settings BindRTT and ReadRTTBuffer consult. */
  datatype Settings = Settings(upscale: int, rttBuffer: bool)

  /** The upscale factor actually applied: only above 1 and only outside buffer mode. */
  function EffectiveScale(s: Settings): (r: int)
    ensures r >= 1
    ensures r == 1 <==> s.upscale <= 1 || s.rttBuffer
    ensures s.upscale > 1 && !s.rttBuffer ==> r == s.upscale
  {
    if s.upscale > 1 && !s.rttBuffer then s.upscale else 1
  }

  /** Viewport size and allocated texture size of a render target. */
  datatype RttGeometry = RttGeometry(viewWidth: nat, viewHeight: nat, texWidth: nat, texHeight: nat)

  /** BindRTT's sizes for a requested fbw x fbh target. */
  function RttGeometryOf(fbw: nat, fbh: nat, s: Settings): RttGeometry
  {
    var k := EffectiveScale(s);
    RttGeometry(fbw * k, fbh * k, RoundUpPow2(fbw) * k, RoundUpPow2(fbh) * k)
  }

  /**
   * The viewport always fits in the allocated texture, and the texture is the
   * smallest scaled power of two (at least 2) that does.
   */
  lemma RttGeometryFits(fbw: nat, fbh: nat, s: Settings)
    ensures var g := RttGeometryOf(fbw, fbh, s);
      g.viewWidth <= g.texWidth && g.viewHeight <= g.texHeight
    ensures var g := RttGeometryOf(fbw, fbh, s);
      EffectiveScale(s) == 1 ==> IsPow2(g.texWidth) && IsPow2(g.texHeight) && g.texWidth >= 2 && g.texHeight >= 2
    ensures var g := RttGeometryOf(fbw, fbh, s); var k := EffectiveScale(s);
      g.texWidth == RoundUpPow2(fbw) * k && g.texHeight == RoundUpPow2(fbh) * k &&
      IsPow2(RoundUpPow2(fbw)) && IsPow2(RoundUpPow2(fbh))
    ensures var g := RttGeometryOf(fbw, fbh, s); var k := EffectiveScale(s);
      forall q: nat :: IsPow2(q) && q >= 2 && q >= fbw ==> g.texWidth <= q * k
    ensures var g := RttGeometryOf(fbw, fbh, s); var k := EffectiveScale(s);
      forall q: nat :: IsPow2(q) && q >= 2 && q >= fbh ==> g.texHeight <= q * k
  {
    var k := EffectiveScale(s);
    var pw, ph := RoundUpPow2(fbw), RoundUpPow2(fbh);
    RoundUpPow2IsLeast(fbw);
    RoundUpPow2IsLeast(fbh);
    ScaleLe(fbw, pw, k);
    ScaleLe(fbh, ph, k);
    if k == 1 {
      assert pw * k == pw && ph * k == ph;
    }
    forall q: nat | IsPow2(q) && q >= 2 && q >= fbw
      ensures pw * k <= q * k
    {
      ScaleLe(pw, q, k);
    }
    forall q: nat | IsPow2(q) && q >= 2 && q >= fbh
      ensures ph * k <= q * k
    {
      ScaleLe(ph, q, k);
    }
  }

  lemma ScaleLe(a: nat, b: nat, k: nat)
    requires a <= b
    ensures a * k <= b * k
  {
    assert b * k - a * k == (b - a) * k;
  }

  // ---------------------------------------------------------------------------
  // ReadRTTBuffer: clip, stride and size

  /** `max - min + 1` in `u32`: an empty or inverted clip wraps around. */
  function ClipExtent(min: int, max: int): (r: int)
    requires 0 <= min < U32_LIMIT && 0 <= max < U32_LIMIT
    ensures 0 <= r < U32_LIMIT
    ensures min <= max && max - min + 1 < U32_LIMIT ==> r == max - min + 1
    ensures max + 1 == min ==> r == 0
    ensures max + 1 < min ==> r == max - min + 1 + U32_LIMIT
  {
    Wrap32(max - min + 1)
  }

  /** Width and stride after the stride rule: a zero stride is derived, a short one narrows w. */
  datatype Span = Span(width: int, stride: int)

  /**
   * The stride rule on `u32` values: a zero stride becomes 2w, a stride below 2w
   * cuts w to stride/2. Afterwards 2w (in `u32`) never exceeds the stride.
   */
  function ClampWidthToStride(w: int, stride: int): (r: Span)
    requires 0 <= w < U32_LIMIT && 0 <= stride < U32_LIMIT
    ensures 0 <= r.width <= w && 0 <= r.stride < U32_LIMIT
    ensures Wrap32(2 * r.width) <= r.stride
    ensures stride == 0 ==> r.width == w && r.stride == Wrap32(2 * w)
    ensures stride != 0 ==> r.stride == stride
    ensures stride != 0 ==> r.width == (if Wrap32(2 * w) <= stride then w else stride / 2)
  {
    if stride == 0 then Span(w, Wrap32(w * 2))
    else if Wrap32(w * 2) > stride then Span(stride / 2, stride)
    else Span(w, stride)
  }

  /** Width, height, stride and byte size of the image ReadRTTBuffer reads back. */
  datatype ReadbackDims = ReadbackDims(width: int, height: int, stride: int, size: int)

  /** The clip rectangle and line-stride register turned into the readback dimensions. */
  function FinalDims(xmin: int, xmax: int, ymin: int, ymax: int, lineStride: int): (r: ReadbackDims)
    requires 0 <= xmin < U32_LIMIT && 0 <= xmax < U32_LIMIT
    requires 0 <= ymin < U32_LIMIT && 0 <= ymax < U32_LIMIT
    requires 0 <= lineStride < U32_LIMIT
    ensures 0 <= r.width < U32_LIMIT && 0 <= r.height < U32_LIMIT && 0 <= r.size < U32_LIMIT
    ensures Wrap32(2 * r.width) <= r.stride
    ensures r.height == ClipExtent(ymin, ymax) && r.width <= ClipExtent(xmin, xmax)
    ensures var sp := ClampWidthToStride(ClipExtent(xmin, xmax), Wrap32(lineStride * 8));
      r.width == sp.width && r.stride == sp.stride
    ensures r.width * r.height * 2 < U32_LIMIT ==> r.size == r.width * r.height * 2
  {
    var span := ClampWidthToStride(ClipExtent(xmin, xmax), Wrap32(lineStride * 8));
    var w: nat := span.width;
    var h: nat := ClipExtent(ymin, ymax);
    var bytes: nat := w * h * 2;
    ReadbackDims(w, h, span.stride, Wrap32(bytes))
  }

  /** The fast path: pack mode 565, an unpadded stride, and a device that reads back RGB/565. */
  predicate DirectReadback(packmode: int, stride: int, width: int, fmt: ReadFormat)
  {
    packmode == 1 && stride == Wrap32(width * 2) && fmt == ReadFormat(Rgb, UShort565)
  }

  /** A direct read is only taken for a 565 target whose rows are exactly 2w bytes apart. */
  lemma DirectReadbackIsTight(packmode: int, stride: int, width: int, fmt: ReadFormat)
    requires DirectReadback(packmode, stride, width, fmt) && 0 <= width < U32_LIMIT / 2
    ensures RttPixelFmt(packmode) == Pixel565 && stride == 2 * width
  {
  }

  /** The target is published as a texture only when both sides fit 1024 and buffer mode is off. */
  predicate PublishesTarget(width: int, height: int, rttBuffer: bool)
  {
    width <= 1024 && height <= 1024 && !rttBuffer
  }

  // ---------------------------------------------------------------------------
  // ReadRTTBuffer: pages of video memory to unlock

  const PAGE_SIZE: int := 4096

  /** `a & PAGE_MASK`: the start of the page holding `a`. */
  function PageBase(a: int): (r: int)
    requires 0 <= a
    ensures 0 <= r <= a < r + PAGE_SIZE && r % PAGE_SIZE == 0
  {
    a - a % PAGE_SIZE
  }

  /**
   * The byte length of the unlock range, rounded up to whole pages in `u32`:
   * the range starts at the page base, so it is `size` plus the offset into the page.
   */
  function PageSpan(texAddr: int, size: int): (r: int)
    requires 0 <= texAddr < U32_LIMIT && 0 <= size < U32_LIMIT
    ensures 0 <= r <= U32_LIMIT - PAGE_SIZE && r % PAGE_SIZE == 0
  {
    var pageSize := Wrap32(size + texAddr - PageBase(texAddr));
    var pages := Wrap32(pageSize - 1) / PAGE_SIZE + 1;
    Wrap32(pages * PAGE_SIZE)
  }

  /** The page addresses the unlock loop visits, in order. */
  function PagesToUnlock(texAddr: int, size: int): (r: seq<int>)
    requires 0 <= texAddr < U32_LIMIT && 0 <= size < U32_LIMIT
    ensures forall i :: 0 <= i < |r| ==> r[i] % PAGE_SIZE == 0
  {
    var base := PageBase(texAddr);
    var span := PageSpan(texAddr, size);
    if base + span < U32_LIMIT then
      seq(span / PAGE_SIZE, i requires 0 <= i => base + i * PAGE_SIZE)
    else
      []
  }

  /** The unlock loop, in `u32`: from the page base, one page at a time, below base + span. */
  method UnlockPages(texAddr: int, size: int) returns (pages: seq<int>)
    requires 0 <= texAddr < U32_LIMIT && 0 <= size < U32_LIMIT
    ensures pages == PagesToUnlock(texAddr, size)
  {
    var pageTexAddr := texAddr - texAddr % PAGE_SIZE;
    var pageSize := Wrap32(size + texAddr - pageTexAddr);
    pageSize := Wrap32((Wrap32(pageSize - 1) / PAGE_SIZE + 1) * PAGE_SIZE);
    var end := Wrap32(pageTexAddr + pageSize);
    ghost var expected := PagesToUnlock(texAddr, size);
    var page := pageTexAddr;
    pages := [];
    if pageTexAddr + pageSize >= U32_LIMIT {
      assert end < pageTexAddr;
    }
    while page < end
      invariant pageTexAddr + pageSize < U32_LIMIT ==>
        page == pageTexAddr + |pages| * PAGE_SIZE && page <= end && end == pageTexAddr + pageSize &&
        pages == expected[..|pages|]
      invariant pageTexAddr + pageSize >= U32_LIMIT ==> pages == [] && page == pageTexAddr
      decreases end - page
    {
      pages := pages + [page];
      page := Wrap32(page + PAGE_SIZE);
    }
    if pageTexAddr + pageSize < U32_LIMIT {
      assert |pages| == |expected|;
      assert pages == expected[..|expected|];
    }
  }

  /**
   * For a non-empty range that does not wrap, the pages start at the page holding
   * `texAddr`, step one page at a time, cover [texAddr, texAddr + size) and end less
   * than one page past it.
   */
  lemma PagesCoverRange(texAddr: int, size: int)
    requires 0 <= texAddr < U32_LIMIT && 0 < size
    requires PageBase(texAddr) + size + PAGE_SIZE * 2 <= U32_LIMIT
    ensures var pages := PagesToUnlock(texAddr, size);
      |pages| > 0 && pages[0] == PageBase(texAddr) &&
      (forall i :: 0 < i < |pages| ==> pages[i] == pages[i - 1] + PAGE_SIZE) &&
      texAddr + size <= pages[|pages| - 1] + PAGE_SIZE < texAddr + size + PAGE_SIZE
  {
    var base := PageBase(texAddr);
    var o := texAddr - base;
    var ps := size + o;
    assert Wrap32(ps - 1) == ps - 1;
    var n := (ps - 1) / PAGE_SIZE + 1;
    RoundUpPages(ps);
    assert Wrap32(n * PAGE_SIZE) == n * PAGE_SIZE;
    var span := PageSpan(texAddr, size);
    assert span == n * PAGE_SIZE;
    var pages := PagesToUnlock(texAddr, size);
    assert |pages| == n;
    assert pages[n - 1] == base + (n - 1) * PAGE_SIZE;
  }

  /** Whole pages: n = (ps-1)/4096 + 1 pages of 4096 hold ps bytes, with less than a page to spare. */
  lemma RoundUpPages(ps: int)
    requires ps > 0
    ensures var n := (ps - 1) / PAGE_SIZE + 1;
      n >= 1 && ps <= n * PAGE_SIZE < ps + PAGE_SIZE
  {
  }

  /**
   * A zero size (an empty clip) unlocks nothing at an aligned address, because
   * `page_size - 1` wraps and the rounded span wraps to 0; at an unaligned address
   * it unlocks the one page holding it.
   */
  lemma ZeroSizePages(texAddr: int)
    requires 0 <= texAddr < U32_LIMIT
    ensures texAddr % PAGE_SIZE == 0 ==> PagesToUnlock(texAddr, 0) == []
    ensures texAddr % PAGE_SIZE != 0 && texAddr < U32_LIMIT - PAGE_SIZE ==>
      PagesToUnlock(texAddr, 0) == [PageBase(texAddr)]
    ensures texAddr >= U32_LIMIT - PAGE_SIZE ==> PagesToUnlock(texAddr, 0) == []
  {
    if texAddr % PAGE_SIZE == 0 {
      assert Wrap32(-1) == U32_LIMIT - 1;
      assert PageSpan(texAddr, 0) == 0;
    } else {
      assert PageSpan(texAddr, 0) == PAGE_SIZE;
    }
  }

  // ---------------------------------------------------------------------------
  // ReadRTTBuffer: the texture key of a published target

  /** The texture pixel formats a render target is published as. */
  datatype PixelFmt = Pixel1555 | Pixel565 | Pixel4444

  /** Pack modes 0 and 3 (and any other) give 1555, 1 gives 565, 2 gives 4444. */
  function RttPixelFmt(packmode: int): (r: PixelFmt)
    ensures r == Pixel565 <==> packmode == 1
    ensures r == Pixel4444 <==> packmode == 2
    ensures r == Pixel1555 <==> packmode != 1 && packmode != 2
  {
    if packmode == 1 then Pixel565
    else if packmode == 2 then Pixel4444
    else Pixel1555
  }

  /** The search loop from `k`: step while k <= 7 and 8 << k is still below n. */
  function TexSizeFrom(k: nat, n: nat): nat
    decreases 8 - k
  {
    if k <= 7 && 8 * Pow2(k) < n then TexSizeFrom(k + 1, n) else k
  }

  /** The TexU/TexV code of a side of n texels: log2 of the texture side over 8. */
  function TexSizeLog(n: nat): nat
  {
    TexSizeFrom(0, n)
  }

  lemma {:induction false} TexSizeFromIsLeast(k: nat, n: nat)
    requires k <= 8 && n <= 1024
    requires forall j :: 0 <= j < k ==> 8 * Pow2(j) < n
    ensures var r := TexSizeFrom(k, n);
      r <= 7 && n <= 8 * Pow2(r) && forall j :: 0 <= j < r ==> 8 * Pow2(j) < n
    decreases 8 - k
  {
    Pow2Seven();
    if k <= 7 && 8 * Pow2(k) < n {
      TexSizeFromIsLeast(k + 1, n);
    }
  }

  lemma Pow2Seven()
    ensures 8 * Pow2(7) == 1024
  {
  }

  /**
   * For a side of at most 1024 texels the code is the least k in 0..7 whose
   * 8 << k covers it.
   */
  lemma TexSizeLogIsLeast(n: nat)
    requires n <= 1024
    ensures var k := TexSizeLog(n);
      k <= 7 && n <= 8 * Pow2(k) && forall j :: 0 <= j < k ==> 8 * Pow2(j) < n
  {
    TexSizeFromIsLeast(0, n);
  }

  /**
   * The declared texture side 8 << TexSizeLog(n) is the padded side BindRTT would
   * allocate for n, except that it never goes below 8.
   */
  lemma TexSizeMatchesPadding(n: nat)
    requires n <= 1024
    ensures 8 * Pow2(TexSizeLog(n)) == (if n <= 8 then 8 else RoundUpPow2(n))
  {
    var k := TexSizeLog(n);
    TexSizeLogIsLeast(n);
    RoundUpPow2IsLeast(n);
    var r := RoundUpPow2(n);
    var s := 8 * Pow2(k);
    Pow2IsPow2(k + 3);
    assert s == Pow2(k + 3) by {
      Pow2Add(3, k);
    }
    if n > 8 {
      assert k > 0;
      assert 8 * Pow2(k - 1) < n;
      assert r <= s;
      if r < s {
        Pow2Gap(r, s);
      }
    }
  }

  /** The search loop for TexU and TexV. */
  method SelectTexSize(n: nat) returns (k: nat)
    requires n <= 1024
    ensures k == TexSizeLog(n)
    ensures k <= 7 && n <= 8 * Pow2(k)
    ensures forall j :: 0 <= j < k ==> 8 * Pow2(j) < n
  {
    k := 0;
    while k <= 7 && 8 * Pow2(k) < n
      invariant k <= 8
      invariant TexSizeFrom(k, n) == TexSizeLog(n)
      decreases 8 - k
    {
      k := k + 1;
    }
    TexSizeLogIsLeast(n);
  }

  /** The texture-parameter word: the size codes, plus everything else (zero for a render target). */
  datatype Tsp = Tsp(texU: nat, texV: nat, other: int)

  /** The texture-control word: VRAM address in 8-byte units, layout bits and pixel format. */
  datatype Tcw = Tcw(texAddr: int, reserved: int, strideSel: int, scanOrder: int, pixelFmt: PixelFmt, other: int)

  /** The key of the texture cache. */
  datatype TexKey = TexKey(tsp: Tsp, tcw: Tcw)

  /** The key a finished render target of w x h at `texAddr` is published under. */
  function RttKey(texAddr: int, packmode: int, w: nat, h: nat): TexKey
  {
    TexKey(Tsp(TexSizeLog(w), TexSizeLog(h), 0), Tcw(texAddr, 0, 0, 1, RttPixelFmt(packmode), 0))
  }

  /**
   * A published target's key declares the smallest 8 << k texture (k <= 7) that
   * covers it on each side, with its address and the pack mode's pixel format.
   */
  lemma RttKeyCovers(texAddr: int, packmode: int, w: nat, h: nat)
    requires w <= 1024 && h <= 1024
    ensures var key := RttKey(texAddr, packmode, w, h);
      key.tcw.texAddr == texAddr && key.tcw.pixelFmt == RttPixelFmt(packmode) &&
      key.tsp.texU <= 7 && key.tsp.texV <= 7 &&
      w <= 8 * Pow2(key.tsp.texU) && h <= 8 * Pow2(key.tsp.texV) &&
      (key.tsp.texU > 0 ==> 8 * Pow2(key.tsp.texU - 1) < w) &&
      (key.tsp.texV > 0 ==> 8 * Pow2(key.tsp.texV - 1) < h)
  {
    TexSizeLogIsLeast(w);
    TexSizeLogIsLeast(h);
  }
}
