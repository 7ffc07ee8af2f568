/**
  Packed 32-bit ARGB colours (`uint32_t`), as src/light.c and src/display.c
  read and build them. Channel 3 is alpha (bits 24-31), 2 red, 1 green and
  0 blue. A mask-and-shift `(c & 0x00FF0000) >> 16` is a division by a power
  of 256 followed by `% 256`; an OR of fields that do not overlap is their sum.
*/
module Color {

  const Max32: int := 0x1_0000_0000

  type Color = c: int | 0 <= c < Max32

  type Channel = b: int | 0 <= b < 256

  /** The weight of channel k in the packed word: 256^k. */
  function Place(k: int): (p: int)
    requires 0 <= k < 4
    ensures p > 0
  {
    if k == 0 then 1 else if k == 1 then 0x100 else if k == 2 then 0x1_0000 else 0x100_0000
  }

  /** Channel k of a packed colour: `(c >> 8k) & 0xFF`. */
  function ChannelOf(c: Color, k: int): Channel
    requires 0 <= k < 4
  {
    (c / Place(k)) % 256
  }

  /** `(a << 24) | (r << 16) | (g << 8) | b` for four 8-bit fields. */
  function Pack(a: Channel, r: Channel, g: Channel, b: Channel): (c: Color)
    ensures ChannelOf(c, 3) == a && ChannelOf(c, 2) == r
    ensures ChannelOf(c, 1) == g && ChannelOf(c, 0) == b
  {
    var c := a * 0x100_0000 + r * 0x1_0000 + g * 0x100 + b;
    assert c / 0x100 == a * 0x1_0000 + r * 0x100 + g;
    assert c / 0x1_0000 == a * 0x100 + r;
    assert c / 0x100_0000 == a;
    c
  }

  /** Packing the four channels of a colour gives the colour back. */
  lemma PackChannels(c: Color)
    ensures Pack(ChannelOf(c, 3), ChannelOf(c, 2), ChannelOf(c, 1), ChannelOf(c, 0)) == c
  {
    var b, q1 := c % 0x100, c / 0x100;
    var g, q2 := q1 % 0x100, q1 / 0x100;
    var r, a := q2 % 0x100, q2 / 0x100;
    assert c == q2 * 0x1_0000 + (g * 0x100 + b);
    assert c / 0x1_0000 == q2;
    assert c == a * 0x100_0000 + (r * 0x1_0000 + g * 0x100 + b);
    assert c / 0x100_0000 == a;
    assert a < 0x100;
    assert ChannelOf(c, 0) == b && ChannelOf(c, 1) == g;
    assert ChannelOf(c, 2) == r && ChannelOf(c, 3) == a;
  }
}
