/** Hex colour decoding and the target palette (CubeKiller/UIColor.swift). */
module Colors {
  import Number

  /** The three 8-bit channels a hex literal is split into. */
  datatype Rgb = Rgb(red: int, green: int, blue: int)

  /** A UIColor: components scaled to [0, 1] and an alpha. */
  datatype Color = Color(red: real, green: real, blue: real, alpha: real)

  predicate IsByte(c: int) {
    0 <= c < 0x100
  }

  predicate IsUnit(x: real) {
    0.0 <= x <= 1.0
  }

  /** `(hex & 0xFF0000) >> 16`. On a two's-complement Int the mask-and-shift is
      the Euclidean quotient by 2^16 reduced modulo 2^8, negative hex included. */
  function Red(hex: int): (c: int)
    ensures IsByte(c)
  {
    (hex / 0x1_0000) % 0x100
  }

  /** `(hex & 0x00FF00) >> 8`. */
  function Green(hex: int): (c: int)
    ensures IsByte(c)
  {
    (hex / 0x100) % 0x100
  }

  /** `hex & 0x0000FF`. */
  function Blue(hex: int): (c: int)
    ensures IsByte(c)
  {
    hex % 0x100
  }

  function Channels(hex: int): (c: Rgb)
    ensures IsByte(c.red) && IsByte(c.green) && IsByte(c.blue)
  {
    Rgb(Red(hex), Green(hex), Blue(hex))
  }

  /** The 0xRRGGBB literal a triple of channels is written as. */
  function ToHex(c: Rgb): int
  {
    c.red * 0x1_0000 + c.green * 0x100 + c.blue
  }

  /** Scaling of one channel by `/ 255.0`. */
  function Component(c: int): (x: real)
    requires IsByte(c)
    ensures IsUnit(x)
    ensures x * 255.0 == c as real
  {
    c as real / 255.0
  }

  /** `UIColor.init(hex:)`. */
  function FromHex(hex: int): (color: Color)
    ensures IsUnit(color.red) && IsUnit(color.green) && IsUnit(color.blue)
    ensures color.red * 255.0 == Red(hex) as real
    ensures color.green * 255.0 == Green(hex) as real
    ensures color.blue * 255.0 == Blue(hex) as real
    ensures color.alpha == 1.0
  {
    Color(Component(Red(hex)), Component(Green(hex)), Component(Blue(hex)), 1.0)
  }

  /** A 24-bit hex literal is reassembled from its three channels. */
  lemma ChannelsToHex(hex: int)
    requires 0 <= hex <= 0xFF_FFFF
    ensures ToHex(Channels(hex)) == hex
  {
  }

  /** Splitting the literal of three byte channels gives those channels back. */
  lemma HexToChannels(c: Rgb)
    requires IsByte(c.red) && IsByte(c.green) && IsByte(c.blue)
    ensures 0 <= ToHex(c) <= 0xFF_FFFF
    ensures Channels(ToHex(c)) == c
  {
  }

  /** Bits above bit 23 do not reach any channel. */
  lemma HighBitsIgnored(hex: int, k: int)
    ensures Channels(hex + k * 0x100_0000) == Channels(hex)
  {
    var h := hex + k * 0x100_0000;
    assert h % 0x100 == hex % 0x100 by {
      assert h == hex + (k * 0x1_0000) * 0x100;
    }
    assert h / 0x100 == hex / 0x100 + k * 0x1_0000 by {
      assert h == (hex / 0x100 + k * 0x1_0000) * 0x100 + hex % 0x100;
    }
    assert h / 0x1_0000 == hex / 0x1_0000 + k * 0x100 by {
      assert h == (hex / 0x1_0000 + k * 0x100) * 0x1_0000 + hex % 0x1_0000;
    }
  }

  /** Two different 24-bit literals decode to two different colours. */
  lemma FromHexInjective(h1: int, h2: int)
    requires 0 <= h1 <= 0xFF_FFFF && 0 <= h2 <= 0xFF_FFFF
    requires FromHex(h1) == FromHex(h2)
    ensures h1 == h2
  {
    ChannelsToHex(h1);
    ChannelsToHex(h2);
  }

  /** `UIColorList`: the eighteen tints a target may get. */
  function Palette(): (p: seq<int>)
    ensures |p| == 18
    ensures forall i :: 0 <= i < |p| ==> 0 <= p[i] <= 0xFF_FFFF
  {
    [ 0x1abc9c, 0x2ecc71, 0x3498db, 0x9b59b6, 0x34495e, 0x16a085,
      0x27ae60, 0x2980b9, 0x8e44ad, 0x2c3e50, 0xf1c40f, 0xe67e22,
      0xe74c3c, 0x95a5a6, 0xf39c12, 0xd35400, 0xc0392b, 0x7f8c8d ]
  }

  /** A colour of the palette. */
  predicate InPalette(color: Color) {
    exists i :: 0 <= i < |Palette()| && color == FromHex(Palette()[i])
  }

  /** The palette literal `arc4random_uniform(count)` selects. */
  function RandomHex(draw: nat): (hex: int)
    requires Number.IsUniformDraw(|Palette()|, draw)
    ensures hex in Palette()
    ensures 0 <= hex <= 0xFF_FFFF
  {
    Palette()[draw]
  }

  /** `UIColor.random()`: the palette entry at `arc4random_uniform(count)`. */
  function RandomColor(draw: nat): (color: Color)
    requires Number.IsUniformDraw(|Palette()|, draw)
    ensures draw < |Palette()|
    ensures InPalette(color)
    ensures color.alpha == 1.0
  {
    FromHex(RandomHex(draw))
  }

  /** The eighteen palette literals are pairwise different. */
  lemma PaletteDistinct()
    ensures forall i, j :: 0 <= i < j < |Palette()| ==> Palette()[i] != Palette()[j]
  {
  }

  /** Different draws give different colours: `random()` can yield eighteen
      distinct tints. */
  lemma RandomColorInjective(i: nat, j: nat)
    requires i < |Palette()| && j < |Palette()|
    ensures RandomColor(i) == RandomColor(j) <==> i == j
  {
    PaletteDistinct();
    if RandomColor(i) == RandomColor(j) {
      FromHexInjective(Palette()[i], Palette()[j]);
    }
  }
}
