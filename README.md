# OpenGL texture cache and render-to-texture bridge (flycast `gltex.cpp`)

This project models the OpenGL side of flycast's texture cache in Dafny. The
graphics device is an abstract handle allocator: it hands out fresh non-zero
names and keeps the set of live ones. The renderer state is one class,
`GlTex.Renderer`, holding:

- the render-to-texture record `gl.rtt` (`fbo`, `tex`, `depthb`, `TexAddr`);
- the output-framebuffer record `gl.ofbo` (`width`, `height`, `fbo`, `depthb`, `tex`, `colorb`);
- the texture cache, a map from `(tsp, tcw)` keys to entries (`texID`, `pData`, `dirty`, lock held, `Updates`);
- the counters `TexCacheLookups` and `TexCacheHits`.

Its `Valid()` invariant says the following:

- Every handle a record holds is live.
- The two records share no handle.
- No cache entry holds a record's handle, and no two entries share a handle.
- The output framebuffer is either all zero or a depth buffer plus the colour attachment the GL version calls for.
- `0 <= hits <= lookups`.

Modules:

- `TexMath` (`tex_math.dfy`): the integer arithmetic. This covers `u32` wrap-around, powers of two, rounding up to a power of two, the bit length that gives the mip count, and the smallest-first mip-buffer offsets.
- `Upload` (`upload.dfy`): `TextureCacheData::UploadToGPU`. This covers the transfer format fixed by the texture type, the device calls of the plain and the two mipmapped paths (as a call trace), and the software renderer's 2x2 wrap-around quad expansion into a `pData` array.
- `Rtt` (`rtt.dfy`): the arithmetic of `BindRTT` and `ReadRTTBuffer`. This covers padding and upscaling, the clip/stride clamp, the pages of video memory to unlock, the direct-readback test, the pack-mode pixel format and the TexU/TexV search.
- `GlTex` (`gltex.dfy`): the stateful operations on `Renderer`.
- `GlTypes` (`gl_types.dfy`): shared datatypes.

Three behaviours of the code are worth stating plainly, since a reader might expect otherwise:

- The mip level count is the bit length of `width` alone; `height` is not consulted (`gltex.cpp:105-111`). For square power-of-two textures this is one plus log2 of the side.
- The 1024 cap in `ReadRTTBuffer` tests the clipped and stride-clamped `w`/`h` (`gltex.cpp:357`), not the padded render-target size.
- Nothing in this file keeps an entry from holding both a device handle and a software buffer: `raw_GetTexture` re-creates an entry whose `pData` is null even when it has a `texID` (`gltex.cpp:448-449`), so the model claims no such exclusion.

## Model

| member | source | states |
|---|---|---|
| `TexMath.RoundUpPow2IsLeast` | core/rend/gles/gltex.cpp:225-231 | the padded size is a power of two, at least 2 and at least the request, and no smaller such power of two exists |
| `TexMath.BitLengthBounds` | core/rend/gles/gltex.cpp:105-111 | a positive width lies in [2^(L-1), 2^L) for its level count L |
| `TexMath.BitLengthOfPow2` | core/rend/gles/gltex.cpp:105-111 | a width of 2^k yields k+1 mip levels (256 gives 9) |
| `TexMath.TexelsBelowClosedForm` | core/rend/gles/gltex.cpp:138-153 | the images 1x1 … 2^(i-1)x2^(i-1) hold exactly (4^i-1)/3 texels |
| `TexMath.MipOffsetStep` | core/rend/gles/gltex.cpp:141 | each mip image starts where the previous 2^i x 2^i image of bpp-byte texels ends |
| `TexMath.MipOffsetClosedForm` | core/rend/gles/gltex.cpp:138-153 | image i is read at byte offset bpp·(4^i-1)/3, with no remainder |
| `Upload.UploadFormat` | core/rend/gles/gltex.cpp:82-102 | 5551, 565, 4444 and 8888 each get their transfer layout and type, any other type has none (the die path); the layout's texel size equals the mip loop's bpp and a packed type's component count matches the layout |
| `Upload.InternalFormatOf` | core/rend/gles/gltex.cpp:117-132 | the immutable-storage format has the same texel size as the transfer format |
| `Upload.GpuUploadSingleLevel` | core/rend/gles/gltex.cpp:156-161 | without mipmapping the trace is base level 0, max level 0, then exactly one image: level 0, full width x height, offset 0 |
| `Upload.StorageOnlyOnFirstUpdate` | core/rend/gles/gltex.cpp:112-137 | immutable storage is allocated only on the immutable-storage path, only when `Updates == 1`, only first, and with L levels of width x height |
| `Upload.MipChainLayout` | core/rend/gles/gltex.cpp:103-154 | iteration i sends a 2^i x 2^i image as level L-1-i; consecutive images are contiguous in the buffer; the chain consumes bpp·(4^L-1)/3 bytes; the last image is the full width when it is a power of two |
| `Upload.MipImageLayout` | core/rend/gles/gltex.cpp:138-153 | one mip image's level, size and buffer offset, and where the next image starts |
| `Upload.MipLevelCount` | core/rend/gles/gltex.cpp:105-111 | the shift loop returns the bit length of the width, so 2^(L-1) <= width < 2^L |
| `Upload.PlanGpuUpload` | core/rend/gles/gltex.cpp:78-162 | the GL branch, with its offset-advancing mip loop, issues exactly the calls of the upload plan or dies on an unsupported type |
| `Upload.QuadSource` | core/rend/gles/gltex.cpp:184-187 | every corner of a quad reads a texel inside the w x h source |
| `Upload.SoftExpansion` | core/rend/gles/gltex.cpp:179-189 | the software buffer holds w·h groups of four colours |
| `Upload.SoftExpansionAt` | core/rend/gles/gltex.cpp:180-189 | the group for (x, y) sits at 4·(x+y·w) and holds the decoded colours of ((x+1)%w,(y+1)%h), (x,(y+1)%h), ((x+1)%w,y), (x,y) in that order |
| `Upload.FillQuad` | core/rend/gles/gltex.cpp:182-187 | one inner iteration writes the four corners of one group and nothing else |
| `Upload.FillRow` | core/rend/gles/gltex.cpp:181-188 | the inner loop extends the correctly filled prefix of the buffer by one row |
| `Upload.ExpandQuads` | core/rend/gles/gltex.cpp:174-189 | the nested loops fill a fresh buffer equal to the software expansion |
| `Rtt.PadToPow2` | core/rend/gles/gltex.cpp:226-231 | the doubling loop ends at the least power of two that is at least 2 and at least the request |
| `Rtt.EffectiveScale` | core/rend/gles/gltex.cpp:233-239 | the factor is the configured upscale when that is above 1 and buffer mode is off, and 1 otherwise |
| `Rtt.RttGeometryFits` | core/rend/gles/gltex.cpp:225-239 | each texture side is the padded power of two times the effective upscale factor; the (possibly upscaled) viewport fits it, and on each side no smaller scaled power of two (at least 2) covering the request exists |
| `Rtt.ClipExtent` | core/rend/gles/gltex.cpp:298-299 | the clip width is max-min+1 in u32, wrapping to 0 or around for an empty or inverted clip |
| `Rtt.ClampWidthToStride` | core/rend/gles/gltex.cpp:301-307 | a zero stride becomes 2w; otherwise w is cut to stride/2 exactly when the u32 product 2w exceeds the stride, and afterwards 2w <= stride |
| `Rtt.FinalDims` | core/rend/gles/gltex.cpp:298-308 | the read-back width and stride are the stride rule applied to the clip width and `stride * 8`, the height is the clip height, 2w <= stride, and size = 2·w·h when it fits in u32 |
| `Rtt.DirectReadbackIsTight` | core/rend/gles/gltex.cpp:331 | the direct read is taken only for pack mode 565 with stride exactly 2w |
| `Rtt.PageBase` | core/rend/gles/gltex.cpp:318 | the page base is page aligned and at most one page below the address |
| `Rtt.PageSpan` | core/rend/gles/gltex.cpp:319-320 | the rounded unlock range is a whole number of pages |
| `Rtt.PagesToUnlock` | core/rend/gles/gltex.cpp:318-322 | every page the unlock loop visits is page aligned |
| `Rtt.UnlockPages` | core/rend/gles/gltex.cpp:318-322 | the u32 page loop visits exactly the unlock pages, in order |
| `Rtt.PagesCoverRange` | core/rend/gles/gltex.cpp:318-322 | for a non-empty range whose end does not wrap past 2^32 the pages start at the page holding tex_addr, step by one page, cover [tex_addr, tex_addr+size) and end less than a page past it |
| `Rtt.ZeroSizePages` | core/rend/gles/gltex.cpp:319-321 | with size 0, `page_size - 1` wraps: an aligned address unlocks nothing, an unaligned one unlocks its own page |
| `Rtt.RttPixelFmt` | core/rend/gles/gltex.cpp:364-375 | pack mode 1 gives 565, 2 gives 4444, every other mode (0 and 3 explicitly) gives 1555 |
| `Rtt.TexSizeLogIsLeast` | core/rend/gles/gltex.cpp:377-378 | for a side of at most 1024, TexU/TexV is the least k in 0..7 with 8<<k covering it |
| `Rtt.TexSizeMatchesPadding` | core/rend/gles/gltex.cpp:377-378 | the declared side 8<<k equals the power-of-two padding of the side, but never below 8 |
| `Rtt.SelectTexSize` | core/rend/gles/gltex.cpp:377-378 | the search loop returns that least k |
| `Rtt.RttKeyCovers` | core/rend/gles/gltex.cpp:362-378 | the published key carries the target address and the pack mode's format, and declares the smallest covering 8<<k texture on each side |
| `GlTex.HandoverFacts` | core/rend/gles/gltex.cpp:380-388 | a published entry owns the render texture, is clean and locked; an entry without a handle is created first |
| `GlTex.Renderer.constructor` | core/rend/gles/gltex.cpp:397-398 | the renderer starts with no handles, an empty cache and zero counters, satisfying the invariant |
| `GlTex.Renderer.UploadToGpu` | core/rend/gles/gltex.cpp:76-193 | with a handle, the upload plan for the entry's type and update count; without one, the software buffer (the quad expansion of the texels through the `decoded_colors` row of the entry's own type) replaces any old one, or the build without software rendering dies |
| `GlTex.Renderer.DeleteEntry` | core/rend/gles/gltex.cpp:196-215 | nothing happens when the base delete refuses; otherwise pData is dropped (or the build dies) and the entry's texture is deleted |
| `GlTex.Renderer.BindRtt` | core/rend/gles/gltex.cpp:217-295 | the old target's handles die and three fresh ones replace them; TexAddr = addy>>3; storage and viewport follow the padded and unpadded geometry |
| `GlTex.Renderer.ReleaseRtt` | core/rend/gles/gltex.cpp:219-221 | every non-zero render-target handle is deleted |
| `GlTex.Renderer.ReleaseRttBuffers` | core/rend/gles/gltex.cpp:392-393 | the framebuffer and depth buffer are deleted and zeroed |
| `GlTex.Renderer.ReadRttBuffer` | core/rend/gles/gltex.cpp:297-395 | buffer mode reads back after unlocking the target's pages, directly when allowed; the target is published iff w <= 1024, h <= 1024 and buffer mode is off, else its texture is deleted; a lock is acquired iff the entry has none after the `Create` that a handle-less entry gets; gl.rtt's handles end at 0 |
| `GlTex.Renderer.RetireRtt` | core/rend/gles/gltex.cpp:357-393 | the render texture is deleted or handed to the entry, then framebuffer and depth buffer go |
| `GlTex.Renderer.PlanWriteback` | core/rend/gles/gltex.cpp:312-349 | in buffer mode, the pages to unlock and the fast-path choice; otherwise no read-back |
| `GlTex.Renderer.Publish` | core/rend/gles/gltex.cpp:380-388 | the entry's old texture is deleted (or the entry created), it takes the render texture and is clean and locked |
| `GlTex.Renderer.GetTexture` | core/rend/gles/gltex.cpp:401-438 | lookups +1, hits +1 iff no update is needed; a handle is allocated only when texID is 0 and swapped for a fresh one when a custom texture is available; returns the entry's non-zero texID |
| `GlTex.Renderer.RawGetTexture` | core/rend/gles/gltex.cpp:441-463 | creates the entry when it has no pData, updates it if needed, returns its size, buffer and type as they stand after the update, and touches neither counters nor handles |
| `GlTex.Renderer.InitOutputFramebuffer` | core/rend/gles/gltex.cpp:495-575 | frees and resizes only on a size change, creates only when there is no framebuffer, otherwise changes nothing; the stored size equals the argument and the colour attachment is tex below GL 3 and colorb from GL 3 on |
| `GlTex.Renderer.CreateOutputFramebuffer` | core/rend/gles/gltex.cpp:503-567 | allocates the depth buffer, the colour attachment the GL version calls for and the framebuffer |
| `GlTex.Renderer.FreeOutputFramebuffer` | core/rend/gles/gltex.cpp:577-596 | deletes and zeroes every handle, and is a no-op when there is no framebuffer |

## Left out

- `dumpRtTexture` (`gltex.cpp:35-74`): PNG encoding and file I/O for debugging.
- OpenGL semantics: texture contents, `glReadPixels`, sampler parameters and the depth-format choice by extension flag. Device calls are handle allocation and deletion, plus a trace of the upload calls.
- The framebuffer-completeness `verify` (`gltex.cpp:292`, `:562`) is assumed to pass.
- `BaseTextureCacheData` is not part of this model.
  - `NeedsUpdate`, `IsCustomTextureAvailable` and the base `Delete` verdict are parameters.
  - `Create` sets type and size from the key through an uninterpreted `shapeOf` and marks the entry for decoding.
  - `Update` counts one more update and clears `dirty`.
  - `CheckCustomTexture` is not modelled.
- `GlTex.Created`: the base `Create` is taken to keep `texID`, `pData` and the lock. So `ReadRttBuffer` acquires a lock for a handle-less entry only if that entry held none before; had `Create` dropped the lock, every such entry would get a new one.
- `GlTex.Updated`: the base `Update` is taken to leave `pData` alone on entries with a device handle, as `UploadToGPU`'s GL branch does. `GetTexture` relies on this. `RawGetTexture` takes the buffer `Update` leaves behind as the parameter `updatedData` and returns it.
- `TexCache.getTextureCacheData` is modelled as inserting a zeroed entry on a miss.
- `libCore_vramlock_Lock` is the entry's lock flag. `VramLockedWriteOffset` and `WriteTextureToVRam` are not part of this model. The read-back is reported as the pages to unlock, the address, the size and the fast-path choice.
- The contents of `decoded_colors` are the renderer constant `decodedColors`, indexed by the entry's texture type.
- `GlTex.Renderer.UploadToGpu`: `decoded_colors` is declared with 3 rows (`gltex.cpp:32`) while four or more texture types reach the software branch, so at least one type reads past the table. The model gives every type a 65536-entry row and requires it; the out-of-range read is not modelled.
- `PAGE_SIZE` and `PAGE_MASK` are defined outside this file. They are taken as 4096 and the page-base mask, as the page-rounding arithmetic at `gltex.cpp:319-320` requires.
- `RenderFramebuffer` (`gltex.cpp:471-493`): it depends on `ReadFramebuffer`, which is not part of this model.
- The asynchronous write tracking of the page locks and the stats timing (commented out) are left out. So are the empty `DoCleanup` and the unused `kval_bit`/`fb_alpha_threshold` locals.
- `GlTex.Renderer.BindRtt`: does not model 32-bit wrap-around of the requested, padded or upscaled sizes; they are unbounded naturals.
- `GlTex.Renderer.GetTexture`: does not model the overflow of the `static int` counters `TexCacheLookups`/`TexCacheHits` (`gltex.cpp:397-398`). The counters are unbounded, so `hits <= lookups` in `Valid()` holds only while neither has passed 2^31 - 1.
- `Upload.PlanGpuUpload`: does not model `int` overflow of the shifts `1 << i` and `1 << (2 * i)` (`gltex.cpp:140-141`, `:151-152`). `Pow2` is unbounded, which matches the source only for widths below 2^15, where the byte step `(1 << (2 * i)) * bpp` still fits in a 32-bit `int`.
- `Rtt.RttKeyCovers`: the TCW and TSP bit-field widths (21-bit address, 3-bit size codes) are not modelled, because the address is below 2^20 for the 8 MB video memory and the size codes stay within 0..7.
- `Rtt.SelectTexSize`: requires a side of at most 1024, which the publish branch guarantees; for larger sides the 3-bit field would wrap.
