/**
 * The OpenGL side of the texture cache as a state machine. The device is an
 * abstract handle allocator (fresh non-zero names, a set of live handles); the
 * state holds the render-to-texture record, the output-framebuffer record, the
 * texture-cache entries and the lookup/hit counters.
 */
module GlTex {
  import opened GlTypes
  import opened TexMath
  import opened Upload
  import opened Rtt

  /** `gl.rtt`: the render target of the current render-to-texture pass. */
  datatype RttRecord = RttRecord(fbo: nat, tex: nat, depthb: nat, texAddr: int)

  /** `gl.ofbo`: the output framebuffer and its attachments. */
  datatype OutputFbo = OutputFbo(width: int, height: int, fbo: nat, depthb: nat, tex: nat, colorb: nat)

  datatype Size = Size(width: int, height: int)

  /** What the base cache entry derives from its key when it is (re)created. */
  datatype Shape = Shape(texType: TextureType, width: nat, height: nat)

  /**
   * One texture-cache entry: device handle, software buffer, dirty flag, whether it
   * holds a video-memory lock, update counter, and decoded type and size.
   */
  datatype Entry = Entry(texID: nat, pData: Option<seq<int>>, dirty: bool, lockHeld: bool,
                         updates: int, texType: TextureType, w: nat, h: nat)

  /** The zeroed entry the cache inserts on a miss. */
  const EmptyEntry: Entry := Entry(0, None, false, false, 0, TexOther, 0, 0)

  /**
   * Base-class `Create`: type and size from the key, update count reset, marked for
   * decoding. Its code is not part of this model; it is taken to leave the handle,
   * the software buffer and the lock as they were.
   */
  function Created(e: Entry, s: Shape): Entry
  {
    e.(texType := s.texType, w := s.width, h := s.height, updates := 0, dirty := true)
  }

  /**
   * Base-class `Update`: one more materialisation, no longer dirty. The software
   * buffer it may rebuild is supplied by the caller where it matters (raw_GetTexture).
   */
  function Updated(e: Entry): Entry
  {
    e.(updates := e.updates + 1, dirty := false)
  }

  /** The entry a published render target leaves behind. */
  function Handover(e: Entry, s: Shape, tex: nat): Entry
  {
    var base := if e.texID != 0 then e else Created(e, s);
    base.(texID := tex, dirty := false, lockHeld := true)
  }

  /**
   * A published target owns the render texture, is clean and locked; an entry that
   * had no handle is created first, one that had a handle keeps its decoded data.
   */
  lemma HandoverFacts(e: Entry, s: Shape, tex: nat)
    ensures var r := Handover(e, s, tex);
      r.texID == tex && !r.dirty && r.lockHeld && r.pData == e.pData &&
      (e.texID == 0 ==> r.updates == 0 && r.texType == s.texType && r.w == s.width && r.h == s.height) &&
      (e.texID != 0 ==> r.updates == e.updates && r.texType == e.texType && r.w == e.w && r.h == e.h)
  {
  }

  /** What `raw_GetTexture` returns. */
  datatype TextInfo = TextInfo(height: nat, width: nat, pData: Option<seq<int>>, texType: TextureType)

  /** The buffer-mode read-back: where it writes, which pages it unlocks, and how it reads. */
  datatype Writeback = Writeback(texAddr: int, pages: seq<int>, direct: bool, width: int, height: int)

  /** Everything ReadRTTBuffer decides besides the state change. */
  datatype RttOutcome = RttOutcome(writeback: Option<Writeback>, published: Option<TexKey>, lockAcquired: bool)

  // ---------------------------------------------------------------------------
  // Invariants of the renderer state, stated on values

  /** The non-zero handles of a render-to-texture record. */
  function RttHandles(r: RttRecord): set<nat>
  {
    {r.fbo, r.tex, r.depthb} - {0}
  }

  /** The non-zero handles of an output-framebuffer record. */
  function OfboHandles(o: OutputFbo): set<nat>
  {
    {o.fbo, o.depthb, o.tex, o.colorb} - {0}
  }

  /** The device hands out names above every name in use; 0 is never a name. */
  predicate AllocatorWf(live: set<nat>, next: nat)
  {
    0 < next && forall h :: h in live ==> 0 < h < next
  }

  /**
   * Every handle the two records hold is live, the records share none, and within
   * a record no two attachments are the same object.
   */
  predicate RecordsWf(live: set<nat>, r: RttRecord, o: OutputFbo)
  {
    RttHandles(r) <= live && OfboHandles(o) <= live && RttHandles(r) !! OfboHandles(o) &&
    (r.fbo != 0 ==> r.fbo != r.tex && r.fbo != r.depthb) &&
    (r.tex != 0 ==> r.tex != r.depthb) &&
    (o.fbo != 0 ==> o.fbo != o.depthb && o.fbo != o.tex && o.fbo != o.colorb) &&
    (o.depthb != 0 ==> o.depthb != o.tex && o.depthb != o.colorb) &&
    (o.tex != 0 ==> o.tex != o.colorb)
  }

  /**
   * An output framebuffer is all zero, or a depth buffer plus exactly the colour
   * attachment the GL major version asks for: a texture below 3, a renderbuffer from 3 on.
   */
  predicate OfboShapeWf(o: OutputFbo, glMajor: int)
  {
    if o.fbo == 0 then
      o.depthb == 0 && o.tex == 0 && o.colorb == 0
    else if glMajor < 3 then
      o.depthb != 0 && o.tex != 0 && o.colorb == 0
    else
      o.depthb != 0 && o.colorb != 0 && o.tex == 0
  }

  /**
   * Entry handles were handed out by the device, are none of the `held` record
   * handles, and no two entries share one. (A deleted entry keeps its stale name.)
   */
  predicate EntriesWf(cache: map<TexKey, Entry>, next: nat, held: set<nat>)
  {
    (forall k :: k in cache ==> cache[k].texID < next && cache[k].texID !in held) &&
    (forall k1, k2 :: k1 in cache && k2 in cache && k1 != k2 && cache[k1].texID != 0 ==>
       cache[k1].texID != cache[k2].texID)
  }

  /** Allocating more names and trading record handles for fresh ones keeps the entries apart from them. */
  lemma EntriesWfWeaken(cache: map<TexKey, Entry>, next: nat, held: set<nat>, next': nat, held': set<nat>)
    requires EntriesWf(cache, next, held) && next <= next'
    requires forall h :: h in held' ==> h in held || h >= next
    ensures EntriesWf(cache, next', held')
  {
  }

  /** Storing an entry whose handle is unchanged, empty or fresh keeps the entries apart. */
  lemma EntriesWfUpdate(cache: map<TexKey, Entry>, next: nat, held: set<nat>, next': nat, key: TexKey, e: Entry)
    requires EntriesWf(cache, next, held) && next <= next'
    requires e.texID < next' && e.texID !in held
    requires e.texID == 0 || e.texID >= next || (key in cache && e.texID == cache[key].texID)
    ensures EntriesWf(cache[key := e], next', held)
  {
  }

  /** An entry may take over a record handle, once that handle is no longer counted as held. */
  lemma EntriesWfTakeOver(cache: map<TexKey, Entry>, next: nat, held: set<nat>, held': set<nat>,
                          key: TexKey, e: Entry)
    requires EntriesWf(cache, next, held) && held' <= held
    requires e.texID < next && e.texID !in held'
    requires e.texID == 0 || e.texID in held
    ensures EntriesWf(cache[key := e], next, held')
  {
  }

  /** A name allocated and deleted again leaves no trace. */
  lemma ReplaceFresh(live: set<nat>, n: nat, m: nat)
    requires n !in live
    ensures live + {n} - {n} + {m} == live + {m}
  {
  }

  /** BindRTT's exchange: the old render-target handles die, three fresh ones take their place. */
  lemma RecordsWfRebind(live: set<nat>, live': set<nat>, r: RttRecord, o: OutputFbo, n: nat, addr: int)
    requires RecordsWf(live, r, o) && AllocatorWf(live, n)
    requires live' == live - RttHandles(r) + {n} + {n + 1} + {n + 2}
    ensures RecordsWf(live', RttRecord(n + 2, n + 1, n, addr), o)
  {
  }

  /** Dropping the render target: whatever dies, the output framebuffer's handles stay live. */
  lemma RecordsWfDropRtt(live: set<nat>, live': set<nat>, r: RttRecord, o: OutputFbo, addr: int)
    requires RecordsWf(live, r, o)
    requires forall h :: h in OfboHandles(o) ==> h in live'
    ensures RecordsWf(live', RttRecord(0, 0, 0, addr), o)
  {
  }

  /** Freeing the output framebuffer: its handles die and the record is zeroed. */
  lemma RecordsWfFreeOfbo(live: set<nat>, r: RttRecord, o: OutputFbo)
    requires RecordsWf(live, r, o)
    ensures RecordsWf(live - OfboHandles(o), r, o.(fbo := 0, depthb := 0, tex := 0, colorb := 0))
  {
  }

  /** Creating the output framebuffer from fresh names n (depth), n+1 (colour) and n+2 (framebuffer). */
  lemma RecordsWfCreateOfbo(live: set<nat>, live': set<nat>, r: RttRecord, o: OutputFbo, n: nat, colourIsTexture: bool)
    requires RecordsWf(live, r, o) && AllocatorWf(live, n) && OfboHandles(o) == {}
    requires live' == live + {n} + {n + 1} + {n + 2}
    ensures RecordsWf(live', r,
      o.(fbo := n + 2, depthb := n, tex := if colourIsTexture then n + 1 else 0,
         colorb := if colourIsTexture then 0 else n + 1))
  {
  }

  /** Deleting a handle no record holds, or allocating new ones, leaves the records intact. */
  lemma RecordsWfOther(live: set<nat>, live': set<nat>, r: RttRecord, o: OutputFbo)
    requires RecordsWf(live, r, o)
    requires forall h :: h in live && h !in live' ==> h !in RttHandles(r) && h !in OfboHandles(o)
    ensures RecordsWf(live', r, o)
  {
  }

  class Renderer {
    const glMajor: int
    const glMinor: int
    const isGles: bool
    /** Built without GLES2 and not for Darwin: the immutable-storage path is compiled in. */
    const texStorageBuild: bool
    /** Built with the software renderer. */
    const softRend: bool
    /** The base entry's decoding of a key into type and size. */
    const shapeOf: TexKey -> Shape
    /** `decoded_colors[tex_type]`: the software renderer's colour row for a texture type. */
    const decodedColors: TextureType -> seq<int>

    var live: set<nat>
    var nextName: nat
    var rtt: RttRecord
    /** The padded size the render texture and its depth buffer are allocated with. */
    var rttStorage: Size
    var ofbo: OutputFbo
    var viewport: Size
    var cache: map<TexKey, Entry>
    var lookups: int
    var hits: int

    predicate AllocatorOk()
      reads this`live, this`nextName
    {
      AllocatorWf(live, nextName)
    }

    predicate Valid()
      reads this`live, this`nextName, this`rtt, this`ofbo, this`cache, this`lookups, this`hits
    {
      AllocatorWf(live, nextName) && RecordsWf(live, rtt, ofbo) && OfboShapeWf(ofbo, glMajor) &&
      EntriesWf(cache, nextName, RttHandles(rtt) + OfboHandles(ofbo)) && 0 <= hits <= lookups
    }

    /** `TexCache.getTextureCacheData` as a read: the entry, or the zeroed one a miss inserts. */
    function Lookup(key: TexKey): Entry
      reads this`cache
    {
      if key in cache then cache[key] else EmptyEntry
    }

    /** GL 4.2+ or GLES 3+, in a build that has the immutable-storage path. */
    predicate TexStoragePath()
    {
      texStorageBuild && (glMajor > 4 || (glMajor == 4 && glMinor >= 2) || (isGles && glMajor >= 3))
    }

    constructor (glMajor: int, glMinor: int, isGles: bool, texStorageBuild: bool, softRend: bool,
                 shapeOf: TexKey -> Shape, decodedColors: TextureType -> seq<int>)
      ensures Valid()
      ensures this.glMajor == glMajor && this.glMinor == glMinor && this.isGles == isGles
      ensures this.texStorageBuild == texStorageBuild && this.softRend == softRend && this.shapeOf == shapeOf
      ensures this.decodedColors == decodedColors
      ensures live == {} && nextName == 1 && cache == map[] && lookups == 0 && hits == 0
      ensures rtt == RttRecord(0, 0, 0, 0) && ofbo == OutputFbo(0, 0, 0, 0, 0, 0)
    {
      this.glMajor := glMajor;
      this.glMinor := glMinor;
      this.isGles := isGles;
      this.texStorageBuild := texStorageBuild;
      this.softRend := softRend;
      this.shapeOf := shapeOf;
      this.decodedColors := decodedColors;
      live := {};
      nextName := 1;
      rtt := RttRecord(0, 0, 0, 0);
      rttStorage := Size(0, 0);
      ofbo := OutputFbo(0, 0, 0, 0, 0, 0);
      viewport := Size(0, 0);
      cache := map[];
      lookups := 0;
      hits := 0;
    }

    // -------------------------------------------------------------------------
    // The device as a handle allocator

    /** glGen*: a name never handed out before. */
    method GenName() returns (h: nat)
      requires AllocatorOk()
      modifies this`live, this`nextName
      ensures h == old(nextName) && h > 0 && nextName == h + 1 && live == old(live) + {h}
      ensures AllocatorOk()
    {
      h := nextName;
      nextName := nextName + 1;
      live := live + {h};
    }

    /** glDelete*: the object is gone; deleting 0 or a dead name changes nothing. */
    method DeleteName(h: nat)
      requires AllocatorOk()
      modifies this`live
      ensures live == old(live) - {h}
      ensures AllocatorOk()
    {
      live := live - {h};
    }

    // -------------------------------------------------------------------------
    // TextureCacheData

    /**
     * UploadToGPU for the entry at `key`: with a device handle, the transfers the GL
     * branch issues; without one, the software buffer built from the decoded texels
     * and the colour row of the entry's type, or a fatal error when software rendering is not built.
     */
    method UploadToGpu(key: TexKey, width: nat, height: int, mipmapped: bool,
                       texels: seq<int>) returns (r: Result<seq<GlCall>>)
      requires Valid() && key in cache
      requires cache[key].texID == 0 && softRend ==> SoftSourceOk(texels, decodedColors(cache[key].texType), cache[key].w, cache[key].h)
      modifies this`cache
      ensures Valid()
      ensures var e := old(cache[key]);
        e.texID != 0 ==>
          r == GpuUpload(e.texType, e.updates, width, height, mipmapped, TexStoragePath()) &&
          cache == old(cache)
      ensures var e := old(cache[key]);
        e.texID == 0 && !softRend ==> r == Die(SoftRendDisabled) && cache == old(cache)
      ensures var e := old(cache[key]);
        e.texID == 0 && softRend ==>
          r == Ok([]) &&
          cache == old(cache)[key := e.(pData := Some(SoftExpansion(texels, decodedColors(e.texType), e.w, e.h)))]
    {
      var e := cache[key];
      if e.texID != 0 {
        r := PlanGpuUpload(e.texType, e.updates, width, height, mipmapped, TexStoragePath());
      } else if !softRend {
        r := Die(SoftRendDisabled);
      } else {
        var buffer := ExpandQuads(texels, decodedColors(e.texType), e.w, e.h);
        cache := cache[key := e.(pData := Some(buffer[..]))];
        r := Ok([]);
      }
    }

    /**
     * TextureCacheData::Delete: nothing when the base entry refuses; otherwise the
     * software buffer is dropped and the device texture deleted. The entry keeps the
     * deleted name in texID.
     */
    method DeleteEntry(key: TexKey, baseDeleted: bool) returns (r: Result<bool>)
      requires Valid() && key in cache
      modifies this`cache, this`live
      ensures Valid()
      ensures var e := old(cache[key]);
        !baseDeleted ==> r == Ok(false) && cache == old(cache) && live == old(live)
      ensures var e := old(cache[key]);
        baseDeleted && e.pData.Some? && !softRend ==>
          r == Die(SoftRendDisabled) && cache == old(cache) && live == old(live)
      ensures var e := old(cache[key]);
        baseDeleted && (e.pData.None? || softRend) ==>
          r == Ok(true) && cache == old(cache)[key := e.(pData := None)] &&
          cache[key].texID == e.texID && live == old(live) - {e.texID}
    {
      if !baseDeleted {
        return Ok(false);
      }
      var e := cache[key];
      if e.pData.Some? {
        if !softRend {
          return Die(SoftRendDisabled);
        }
        cache := cache[key := e.(pData := None)];
      }
      if e.texID != 0 {
        DeleteName(e.texID);
      }
      r := Ok(true);
    }

    // -------------------------------------------------------------------------
    // Render to texture

    /**
     * BindRTT: release the previous target, record the address in 8-byte units,
     * allocate depth buffer, texture and framebuffer at the padded (and possibly
     * upscaled) size, and set the viewport to the requested (and possibly upscaled) size.
     */
    method BindRtt(addy: int, fbw: nat, fbh: nat, s: Settings)
      requires Valid() && 0 <= addy < U32_LIMIT
      modifies this`live, this`nextName, this`rtt, this`rttStorage, this`viewport
      ensures Valid()
      ensures var n := old(nextName);
        rtt == RttRecord(n + 2, n + 1, n, addy / 8) && nextName == n + 3 &&
        live == old(live) - RttHandles(old(rtt)) + {n} + {n + 1} + {n + 2}
      ensures var g := RttGeometryOf(fbw, fbh, s);
        viewport == Size(g.viewWidth, g.viewHeight) && rttStorage == Size(g.texWidth, g.texHeight)
    {
      ReleaseRtt();
      var texAddr := addy / 8;

      var fbh2 := PadToPow2(fbh);
      var fbw2 := PadToPow2(fbw);
      var w, h := fbw, fbh;
      if s.upscale > 1 && !s.rttBuffer {
        w, h := w * s.upscale, h * s.upscale;
        fbw2, fbh2 := fbw2 * s.upscale, fbh2 * s.upscale;
      }

      var depthb := GenName();
      var tex := GenName();
      var fbo := GenName();
      rtt := RttRecord(fbo, tex, depthb, texAddr);
      rttStorage := Size(fbw2, fbh2);
      viewport := Size(w, h);
      RecordsWfRebind(old(live), live, old(rtt), ofbo, old(nextName), texAddr);
      EntriesWfWeaken(cache, old(nextName), RttHandles(old(rtt)) + OfboHandles(ofbo),
                      nextName, RttHandles(rtt) + OfboHandles(ofbo));
    }

    /** The releases at the top of BindRTT: every non-zero render-target handle is deleted. */
    method ReleaseRtt()
      requires AllocatorOk()
      modifies this`live
      ensures live == old(live) - RttHandles(rtt) && AllocatorOk()
    {
      if rtt.fbo != 0 { DeleteName(rtt.fbo); }
      if rtt.tex != 0 { DeleteName(rtt.tex); }
      if rtt.depthb != 0 { DeleteName(rtt.depthb); }
    }

    /** The tail of ReadRTTBuffer: delete and zero the framebuffer and depth buffer. */
    method ReleaseRttBuffers()
      requires AllocatorOk()
      modifies this`live, this`rtt
      ensures rtt == old(rtt).(fbo := 0, depthb := 0)
      ensures live == old(live) - {old(rtt.fbo), old(rtt.depthb)} && AllocatorOk()
    {
      if rtt.fbo != 0 {
        DeleteName(rtt.fbo);
        rtt := rtt.(fbo := 0);
      }
      if rtt.depthb != 0 {
        DeleteName(rtt.depthb);
        rtt := rtt.(depthb := 0);
      }
    }

    /**
     * ReadRTTBuffer: clamp the clip width by the line stride; in buffer mode, unlock
     * the pages under the target and read it back (directly when the formats allow);
     * then either discard the render texture or publish it as the texture at the
     * target's address; finally release framebuffer and depth buffer.
     */
    method ReadRttBuffer(xmin: int, xmax: int, ymin: int, ymax: int, lineStride: int,
                         packmode: int, readFmt: ReadFormat, s: Settings) returns (out: RttOutcome)
      requires Valid()
      requires 0 <= xmin < U32_LIMIT && 0 <= xmax < U32_LIMIT
      requires 0 <= ymin < U32_LIMIT && 0 <= ymax < U32_LIMIT
      requires 0 <= lineStride < U32_LIMIT
      modifies this`live, this`rtt, this`cache
      ensures Valid()
      ensures var d := FinalDims(xmin, xmax, ymin, ymax, lineStride);
        var texAddr := Wrap32(old(rtt.texAddr) * 8);
        out.writeback == if s.rttBuffer
          then Some(Writeback(texAddr, PagesToUnlock(texAddr, d.size),
                              DirectReadback(packmode, d.stride, d.width, readFmt), d.width, d.height))
          else None
      ensures var d := FinalDims(xmin, xmax, ymin, ymax, lineStride);
        out.published.Some? <==> PublishesTarget(d.width, d.height, s.rttBuffer)
      ensures var d := FinalDims(xmin, xmax, ymin, ymax, lineStride);
        out.published.Some? ==>
          var key := RttKey(old(rtt.texAddr), packmode, d.width, d.height);
          var e := old(Lookup(key));
          out.published.value == key &&
          cache == old(cache)[key := Handover(e, shapeOf(key), old(rtt.tex))] &&
          out.lockAcquired == !(if e.texID != 0 then e else Created(e, shapeOf(key))).lockHeld &&
          live == old(live) - {e.texID} - {old(rtt.fbo), old(rtt.depthb)}
      ensures out.published.None? ==>
        cache == old(cache) && !out.lockAcquired &&
        live == old(live) - {old(rtt.tex)} - {old(rtt.fbo), old(rtt.depthb)}
      ensures rtt == RttRecord(0, 0, 0, old(rtt.texAddr))
    {
      var d := FinalDims(xmin, xmax, ymin, ymax, lineStride);
      var wb := PlanWriteback(Wrap32(rtt.texAddr * 8), d, packmode, readFmt, s);
      if d.width > 1024 || d.height > 1024 || s.rttBuffer {
        RetireRtt(None);
        out := RttOutcome(wb, None, false);
      } else {
        var texU := SelectTexSize(d.width);
        var texV := SelectTexSize(d.height);
        var key := TexKey(Tsp(texU, texV, 0), Tcw(rtt.texAddr, 0, 0, 1, RttPixelFmt(packmode), 0));
        var e := Lookup(key);
        var acquired := !(if e.texID != 0 then e else Created(e, shapeOf(key))).lockHeld;
        RetireRtt(Some(key));
        out := RttOutcome(wb, Some(key), acquired);
      }
    }

    /**
     * The state change that ends ReadRTTBuffer: the render texture is deleted, or
     * handed to the entry at `target`; then framebuffer and depth buffer go too.
     */
    method RetireRtt(target: Option<TexKey>)
      requires Valid()
      modifies this`live, this`rtt, this`cache
      ensures Valid()
      ensures target.Some? ==>
        var e := old(Lookup(target.value));
        cache == old(cache)[target.value := Handover(e, shapeOf(target.value), old(rtt.tex))] &&
        live == old(live) - {e.texID} - {old(rtt.fbo), old(rtt.depthb)}
      ensures target.None? ==>
        cache == old(cache) && live == old(live) - {old(rtt.tex)} - {old(rtt.fbo), old(rtt.depthb)}
      ensures rtt == RttRecord(0, 0, 0, old(rtt.texAddr))
    {
      ghost var held := RttHandles(rtt) + OfboHandles(ofbo);
      if target.None? {
        DeleteName(rtt.tex);
        EntriesWfWeaken(cache, nextName, held, nextName, OfboHandles(ofbo));
      } else {
        Publish(target.value);
      }
      rtt := rtt.(tex := 0);
      ReleaseRttBuffers();
      RecordsWfDropRtt(old(live), live, old(rtt), ofbo, rtt.texAddr);
      EntriesWfWeaken(cache, nextName, OfboHandles(ofbo), nextName, RttHandles(rtt) + OfboHandles(ofbo));
    }

    /** The buffer-mode half of ReadRTTBuffer: unlock the target's pages and choose how to read back. */
    static method PlanWriteback(texAddr: int, d: ReadbackDims, packmode: int, readFmt: ReadFormat, s: Settings)
      returns (wb: Option<Writeback>)
      requires 0 <= texAddr < U32_LIMIT && 0 <= d.size < U32_LIMIT
      ensures wb == if s.rttBuffer
        then Some(Writeback(texAddr, PagesToUnlock(texAddr, d.size),
                            DirectReadback(packmode, d.stride, d.width, readFmt), d.width, d.height))
        else None
    {
      wb := None;
      if s.rttBuffer {
        var pages := UnlockPages(texAddr, d.size);
        wb := Some(Writeback(texAddr, pages, DirectReadback(packmode, d.stride, d.width, readFmt), d.width, d.height));
      }
    }

    /** The publish branch: the entry at `key` gives up its handle (or is created) and takes the render texture. */
    method Publish(key: TexKey)
      requires Valid()
      modifies this`cache, this`live
      ensures cache == old(cache)[key := Handover(old(Lookup(key)), shapeOf(key), old(rtt.tex))]
      ensures live == old(live) - {old(Lookup(key)).texID}
      ensures AllocatorWf(live, nextName) && RecordsWf(live, rtt, ofbo)
      ensures EntriesWf(cache, nextName, OfboHandles(ofbo))
    {
      var e := Lookup(key);
      if e.texID != 0 {
        DeleteName(e.texID);
      } else {
        e := Created(e, shapeOf(key));
      }
      e := e.(texID := rtt.tex, dirty := false, lockHeld := true);
      assert rtt.tex == 0 || rtt.tex in RttHandles(rtt);
      RecordsWfOther(old(live), live, rtt, ofbo);
      EntriesWfTakeOver(cache, nextName, RttHandles(rtt) + OfboHandles(ofbo), OfboHandles(ofbo), key, e);
      cache := cache[key := e];
    }

    // -------------------------------------------------------------------------
    // Cache front end

    /**
     * gl_GetTexture: count the lookup; give a handle-less entry a fresh handle;
     * update it if it needs it, otherwise count a hit and, when a custom texture is
     * available, swap in a fresh handle; return the entry's handle.
     */
    method GetTexture(key: TexKey, needsUpdate: bool, customAvailable: bool) returns (id: nat)
      requires Valid()
      modifies this`lookups, this`hits, this`cache, this`live, this`nextName
      ensures Valid()
      ensures lookups == old(lookups) + 1
      ensures hits == old(hits) + (if needsUpdate then 0 else 1)
      ensures id != 0 && key in cache && cache[key].texID == id
      ensures var e0 := old(Lookup(key));
        var e1 := if e0.texID == 0 then Created(e0, shapeOf(key)) else e0;
        cache == old(cache)[key := (if needsUpdate then Updated(e1) else e1).(texID := id)]
      ensures var e0 := old(Lookup(key));
        e0.texID != 0 && (needsUpdate || !customAvailable) ==>
          id == e0.texID && live == old(live) && nextName == old(nextName)
      ensures var e0 := old(Lookup(key));
        e0.texID == 0 && (needsUpdate || !customAvailable) ==>
          id == old(nextName) && live == old(live) + {id} && nextName == old(nextName) + 1
      ensures var e0 := old(Lookup(key));
        e0.texID != 0 && !needsUpdate && customAvailable ==>
          id == old(nextName) && live == old(live) - {e0.texID} + {id} && nextName == old(nextName) + 1
      ensures var e0 := old(Lookup(key));
        e0.texID == 0 && !needsUpdate && customAvailable ==>
          id == old(nextName) + 1 && live == old(live) + {id} && nextName == old(nextName) + 2
    {
      lookups := lookups + 1;
      var e0 := Lookup(key);
      var e := if e0.texID == 0 then Created(e0, shapeOf(key)) else e0;
      id := e0.texID;
      if id == 0 {
        id := GenName();
      }
      if needsUpdate {
        e := Updated(e);
      } else {
        if customAvailable {
          DeleteName(id);
          id := GenName();
          ReplaceFresh(old(live), old(nextName), id);
        }
        hits := hits + 1;
      }
      RecordsWfOther(old(live), live, rtt, ofbo);
      EntriesWfUpdate(cache, old(nextName), RttHandles(rtt) + OfboHandles(ofbo), nextName, key, e.(texID := id));
      cache := cache[key := e.(texID := id)];
    }

    /**
     * raw_GetTexture: create the entry if it has no software buffer, update it if
     * needed, and return its size, buffer and type as they stand after the update;
     * counters and handles are untouched. `updatedData` is the software buffer the
     * base `Update` leaves behind (it re-decodes and re-uploads the texture).
     */
    method RawGetTexture(key: TexKey, needsUpdate: bool, updatedData: Option<seq<int>>) returns (info: TextInfo)
      requires Valid()
      modifies this`cache
      ensures Valid()
      ensures var e0 := old(Lookup(key));
        var e1 := if e0.pData.None? then Created(e0, shapeOf(key)) else e0;
        cache == old(cache)[key := if needsUpdate then Updated(e1).(pData := updatedData) else e1]
      ensures key in cache &&
        info == TextInfo(cache[key].h, cache[key].w, cache[key].pData, cache[key].texType)
      ensures needsUpdate ==> info.pData == updatedData
      ensures !needsUpdate ==> info.pData == old(Lookup(key)).pData
    {
      var e := Lookup(key);
      if e.pData.None? {
        e := Created(e, shapeOf(key));
      }
      if needsUpdate {
        e := Updated(e).(pData := updatedData);
      }
      cache := cache[key := e];
      info := TextInfo(e.h, e.w, e.pData, e.texType);
    }

    // -------------------------------------------------------------------------
    // Output framebuffer

    /**
     * init_output_framebuffer: on a size change free the old framebuffer and record
     * the new size; create one if there is none; set the viewport; return it.
     */
    method InitOutputFramebuffer(width: int, height: int) returns (fbo: nat)
      requires Valid()
      modifies this`live, this`nextName, this`ofbo, this`viewport
      ensures Valid()
      ensures fbo != 0 && fbo == ofbo.fbo && ofbo.width == width && ofbo.height == height
      ensures viewport == Size(width, height)
      ensures glMajor < 3 ==> ofbo.tex != 0 && ofbo.colorb == 0
      ensures glMajor >= 3 ==> ofbo.colorb != 0 && ofbo.tex == 0
      ensures old(ofbo.width) == width && old(ofbo.height) == height && old(ofbo.fbo) != 0 ==>
        ofbo == old(ofbo) && live == old(live) && nextName == old(nextName)
      ensures !(old(ofbo.width) == width && old(ofbo.height) == height && old(ofbo.fbo) != 0) ==>
        var n := old(nextName);
        ofbo == OutputFbo(width, height, n + 2, n, if glMajor < 3 then n + 1 else 0, if glMajor < 3 then 0 else n + 1) &&
        nextName == n + 3
      ensures old(ofbo.width) != width || old(ofbo.height) != height ==>
        var n := old(nextName);
        live == old(live) - OfboHandles(old(ofbo)) + {n} + {n + 1} + {n + 2}
      ensures old(ofbo.width) == width && old(ofbo.height) == height && old(ofbo.fbo) == 0 ==>
        var n := old(nextName);
        live == old(live) + {n} + {n + 1} + {n + 2}
    {
      if width != ofbo.width || height != ofbo.height {
        FreeOutputFramebuffer();
        ofbo := ofbo.(width := width, height := height);
      }
      if ofbo.fbo == 0 {
        CreateOutputFramebuffer();
      }
      viewport := Size(width, height);
      fbo := ofbo.fbo;
    }

    /** The creating half of init_output_framebuffer: depth buffer, colour attachment, framebuffer. */
    method CreateOutputFramebuffer()
      requires Valid() && ofbo.fbo == 0
      modifies this`live, this`nextName, this`ofbo
      ensures Valid()
      ensures var n := old(nextName);
        ofbo == old(ofbo).(fbo := n + 2, depthb := n, tex := if glMajor < 3 then n + 1 else 0,
                           colorb := if glMajor < 3 then 0 else n + 1) &&
        nextName == n + 3 && live == old(live) + {n} + {n + 1} + {n + 2}
    {
      var depthb := GenName();
      ofbo := ofbo.(depthb := depthb);
      if glMajor < 3 {
        var tex := GenName();
        ofbo := ofbo.(tex := tex);
      } else {
        var colorb := GenName();
        ofbo := ofbo.(colorb := colorb);
      }
      var f := GenName();
      ofbo := ofbo.(fbo := f);
      RecordsWfCreateOfbo(old(live), live, rtt, old(ofbo), old(nextName), glMajor < 3);
      EntriesWfWeaken(cache, old(nextName), RttHandles(rtt) + OfboHandles(old(ofbo)),
                      nextName, RttHandles(rtt) + OfboHandles(ofbo));
    }

    /** free_output_framebuffer: delete and zero every handle; nothing to do when there is no framebuffer. */
    method FreeOutputFramebuffer()
      requires Valid()
      modifies this`live, this`ofbo
      ensures Valid()
      ensures ofbo == old(ofbo).(fbo := 0, depthb := 0, tex := 0, colorb := 0)
      ensures live == old(live) - OfboHandles(old(ofbo))
      ensures old(ofbo.fbo) == 0 ==> ofbo == old(ofbo) && live == old(live)
    {
      if ofbo.fbo != 0 {
        DeleteName(ofbo.fbo);
        ofbo := ofbo.(fbo := 0);
        DeleteName(ofbo.depthb);
        ofbo := ofbo.(depthb := 0);
        if ofbo.tex != 0 {
          DeleteName(ofbo.tex);
          ofbo := ofbo.(tex := 0);
        }
        if ofbo.colorb != 0 {
          DeleteName(ofbo.colorb);
          ofbo := ofbo.(colorb := 0);
        }
      }
    }
  }
}
