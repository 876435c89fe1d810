/**
 * Bytes-per-pixel fallback used for memory estimates: the internal format is
 * ignored and the pixel type alone selects an RGBA size.
 */
module Estimates {

  const FLOAT: int := 0x1406
  const HALF_FLOAT: int := 0x8D61
  const HALF_FLOAT_OES: int := 0x140B

  /** Bytes of one channel of the given pixel type, as the fallback assumes it. */
  function ChannelBytes(pixelType: int): nat {
    if pixelType == FLOAT then 4
    else if pixelType == HALF_FLOAT || pixelType == HALF_FLOAT_OES then 2
    else 1
  }

  /** `bppFor(internalFormat, type)`: four channels of the type's size; the format plays no part. */
  function BppFor(internalFormat: int, pixelType: int): (bpp: nat)
    ensures bpp == 4 * ChannelBytes(pixelType)
    ensures bpp in {4, 8, 16}
    ensures pixelType == FLOAT <==> bpp == 16
    ensures (pixelType == HALF_FLOAT || pixelType == HALF_FLOAT_OES) <==> bpp == 8
  {
    if pixelType == FLOAT then 16
    else if pixelType == HALF_FLOAT || pixelType == HALF_FLOAT_OES then 8
    else 4
  }
}
