/**
 * The public data types of the WS2812B driver (src/me_Ws2812b.h): a pixel,
 * the state of a stripe, and the byte layout of a pixel buffer in memory.
 */
module Ws2812bTypes {

  /** TUint_1 used as a number (the pin identifier). */
  newtype uint8 = x: int | 0 <= x < 0x100

  /** TUint_2: an unsigned 16-bit number (pixel counts, byte sizes, addresses). */
  newtype uint16 = x: int | 0 <= x < 0x1_0000

  /** sizeof(TPixel): a pixel is exactly three bytes. */
  const PixelSize: nat := 3

  /**
   * A pixel. The field order Green, Red, Blue is the order in which the
   * device expects the colour bytes on the wire.
   */
  datatype Pixel = Pixel(green: bv8, red: bv8, blue: bv8)

  /**
   * The state applied to a stripe: the pixel memory the `Pixels` pointer
   * addresses (it may extend past `length`), the number of pixels to send,
   * and the output pin.
   */
  datatype LedStripeState = LedStripeState(pixels: seq<Pixel>, length: uint16, pin: uint8)

  /**
   * The pixel memory read as bytes, in memory order: pixel i occupies
   * offsets 3i (Green), 3i+1 (Red) and 3i+2 (Blue).
   */
  function Flatten(pixels: seq<Pixel>): (bytes: seq<bv8>)
    ensures |bytes| == PixelSize * |pixels|
  {
    if pixels == [] then []
    else [pixels[0].green, pixels[0].red, pixels[0].blue] + Flatten(pixels[1..])
  }

  /** Pixel i lies at offsets 3i, 3i+1 and 3i+2, in the order Green, Red, Blue. */
  lemma {:induction false} FlattenAt(pixels: seq<Pixel>, i: nat)
    requires i < |pixels|
    ensures Flatten(pixels)[PixelSize * i] == pixels[i].green
    ensures Flatten(pixels)[PixelSize * i + 1] == pixels[i].red
    ensures Flatten(pixels)[PixelSize * i + 2] == pixels[i].blue
  {
    if i > 0 {
      FlattenAt(pixels[1..], i - 1);
      assert PixelSize * i == PixelSize + PixelSize * (i - 1);
    }
  }

  /** The pixels a receiver reads back from a byte stream, three bytes each. */
  function Unflatten(bytes: seq<bv8>): (pixels: seq<Pixel>)
    requires |bytes| % PixelSize == 0
    ensures |pixels| == |bytes| / PixelSize
  {
    if bytes == [] then []
    else [Pixel(bytes[0], bytes[1], bytes[2])] + Unflatten(bytes[PixelSize..])
  }

  /** Reading the flattened bytes back three at a time gives the same pixels: nothing is reordered or lost. */
  lemma {:induction false} UnflattenFlatten(pixels: seq<Pixel>)
    ensures Unflatten(Flatten(pixels)) == pixels
  {
    if pixels != [] {
      var head, rest := [pixels[0].green, pixels[0].red, pixels[0].blue], Flatten(pixels[1..]);
      assert Flatten(pixels) == head + rest;
      assert (head + rest)[PixelSize..] == rest;
      UnflattenFlatten(pixels[1..]);
      assert Unflatten(head + rest) == [pixels[0]] + Unflatten(rest);
      assert pixels == [pixels[0]] + pixels[1..];
    }
  }

  /** The first n pixels occupy exactly the first 3n bytes of the pixel memory. */
  lemma {:induction false} FlattenPrefix(pixels: seq<Pixel>, n: nat)
    requires n <= |pixels|
    ensures Flatten(pixels[..n]) == Flatten(pixels)[..PixelSize * n]
  {
    if n > 0 {
      FlattenPrefix(pixels[1..], n - 1);
      assert pixels[..n][1..] == pixels[1..][..n - 1];
    }
  }
}
