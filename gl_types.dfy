/** Values exchanged with the host graphics device and the fatal-error outcome. */
module GlTypes {

  datatype Option<T> = None | Some(value: T)

  /** The two `die(...)` paths of the texture uploader and deleter. */
  datatype Fatal = UnsupportedTextureType | SoftRendDisabled

  /** Either a value or the fatal error that aborts the emulator. */
  datatype Result<T> = Ok(value: T) | Die(reason: Fatal)

  /** The canonical texture types a cache entry is decoded to; `TexOther` is every other value. */
  datatype TextureType = Tex5551 | Tex565 | Tex4444 | Tex8888 | TexOther

  /** GL pixel-transfer component layouts (`OtherComps` only ever comes back from a device query). */
  datatype Comps = Rgb | Rgba | OtherComps

  /** GL pixel-transfer types. */
  datatype PixelType = UShort5551 | UShort565 | UShort4444 | UnsignedByte | OtherPixelType

  /** Sized internal formats used for immutable mip storage. */
  datatype InternalFormat = Rgb5A1 | Rgb565 | Rgba4 | Rgba8

  /** The layout and type a texture is transferred with. */
  datatype HostFormat = HostFormat(comps: Comps, pixelType: PixelType)

  /**
   * One texture call issued to the device. `offset` is the byte offset into the
   * caller's decoded buffer from which the image is read.
   */
  datatype GlCall =
    | SetBaseLevel(level: int)
    | SetMaxLevel(level: int)
    | TexStorage2D(levels: nat, internalFormat: InternalFormat, width: int, height: int)
    | TexImage2D(level: int, width: int, height: int, comps: Comps, pixelType: PixelType, offset: nat)
    | TexSubImage2D(level: int, width: int, height: int, comps: Comps, pixelType: PixelType, offset: nat)
  {
    predicate IsImage() { TexImage2D? || TexSubImage2D? }
  }

  /** The native read-back format/type the device reports for the bound framebuffer. */
  datatype ReadFormat = ReadFormat(comps: Comps, pixelType: PixelType)
}
