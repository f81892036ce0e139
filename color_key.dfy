/**
 * The white-to-transparent colour-key conversion of trans.py: every RGBA
 * pixel whose red, green and blue channels are all brighter than 200 becomes
 * fully transparent white, every other pixel is kept as it is.
 */
module ColorKey {

  /** One 8-bit channel of an RGBA pixel. */
  type Channel = x: int | 0 <= x < 256

  /** A pixel as produced by `getdata()` on an "RGBA" image. */
  datatype Pixel = Pixel(r: Channel, g: Channel, b: Channel, a: Channel)

  /** Channels strictly above this value count as "white". */
  const Threshold: int := 200

  /** The pixel written in place of a white one: fully transparent white. */
  const Transparent: Pixel := Pixel(255, 255, 255, 0)

  /** The test of trans.py:10 — strict on all three colour channels. */
  predicate IsNearWhite(p: Pixel)
  {
    p.r > Threshold && p.g > Threshold && p.b > Threshold
  }

  /** The per-pixel decision of trans.py:10-13. */
  function KeyPixel(p: Pixel): Pixel
  {
    if IsNearWhite(p) then Transparent else p
  }

  /**
   * The list the loop of trans.py:8-14 builds, defined the way it is built:
   * the answer for a prefix, extended by the decision for the next pixel.
   */
  function Keyed(data: seq<Pixel>): seq<Pixel>
  {
    if data == [] then [] else Keyed(data[..|data| - 1]) + [KeyPixel(data[|data| - 1])]
  }

  /** Same number of pixels, and output pixel i is decided by input pixel i alone. */
  lemma {:induction false} KeyedAt(data: seq<Pixel>)
    ensures |Keyed(data)| == |data|
    ensures forall i :: 0 <= i < |data| ==> Keyed(data)[i] == KeyPixel(data[i])
  {
    if data != [] {
      KeyedAt(data[..|data| - 1]);
    }
  }

  /** Keying distributes over concatenation: no pixel influences another. */
  lemma KeyedAppend(a: seq<Pixel>, b: seq<Pixel>)
    ensures Keyed(a + b) == Keyed(a) + Keyed(b)
  {
    KeyedAt(a);
    KeyedAt(b);
    KeyedAt(a + b);
  }

  /**
   * Output pixel i is (255, 255, 255, 0) when red, green and blue of input
   * pixel i are all above 200, whatever its alpha, and is input pixel i,
   * alpha included, when any of the three is 200 or less.
   */
  lemma KeyedPixelCases(data: seq<Pixel>, i: int)
    requires 0 <= i < |data|
    ensures |Keyed(data)| == |data|
    ensures data[i].r > 200 && data[i].g > 200 && data[i].b > 200 ==> Keyed(data)[i] == Pixel(255, 255, 255, 0)
    ensures data[i].r <= 200 || data[i].g <= 200 || data[i].b <= 200 ==> Keyed(data)[i] == data[i]
    ensures Keyed(data)[i] == data[i] || Keyed(data)[i] == Pixel(255, 255, 255, 0)
  {
    KeyedAt(data);
  }

  /** Running the conversion on its own output changes nothing (255 > 200). */
  lemma {:induction false} KeyedIdempotent(data: seq<Pixel>)
    ensures Keyed(Keyed(data)) == Keyed(data)
  {
    KeyedAt(data);
    KeyedAt(Keyed(data));
  }

  /** A pixel with a channel of exactly 200 is not keyed, whatever its alpha. */
  lemma ThresholdIsStrict(a: Channel)
    ensures Keyed([Pixel(200, 255, 255, a)]) == [Pixel(200, 255, 255, a)]
    ensures Keyed([Pixel(255, 200, 255, a)]) == [Pixel(255, 200, 255, a)]
    ensures Keyed([Pixel(255, 255, 200, a)]) == [Pixel(255, 255, 200, a)]
    ensures Keyed([Pixel(201, 201, 201, a)]) == [Transparent]
  {
    assert [Pixel(200, 255, 255, a)][..0] == [];
    assert [Pixel(255, 200, 255, a)][..0] == [];
    assert [Pixel(255, 255, 200, a)][..0] == [];
    assert [Pixel(201, 201, 201, a)][..0] == [];
  }

  /**
   * The pixel loop of trans.py:7-14: walk `getdata()` in order and append
   * each pixel's replacement to `newData`.
   */
  method KeyPixels(datas: seq<Pixel>) returns (newData: seq<Pixel>)
    ensures newData == Keyed(datas)
    ensures |newData| == |datas|
    ensures forall i :: 0 <= i < |datas| ==> newData[i] == KeyPixel(datas[i])
  {
    newData := [];
    for n := 0 to |datas|
      invariant newData == Keyed(datas[..n])
    {
      assert datas[..n + 1][..n] == datas[..n];
      newData := newData + [KeyPixel(datas[n])];
    }
    assert datas[..|datas|] == datas;
    KeyedAt(datas);
  }

  /**
   * `white_to_transparent` on an image already converted to RGBA: the pixel
   * buffer `img` is read, keyed, and written back (`putdata`, trans.py:15).
   */
  method WhiteToTransparent(img: array<Pixel>)
    modifies img
    ensures img[..] == Keyed(old(img[..]))
  {
    var newData := KeyPixels(img[..]);
    forall i | 0 <= i < img.Length {
      img[i] := newData[i];
    }
  }
}
