/** Colour decoding and the three colour adjustments used by the theme
    system: `ImGui::HexToImVec4` and `ImGui::ColorUtils::Lighten`, `Darken`
    and `Saturate`. The palette namespace `ImGui::Colors` is not modelled
    here. A colour is an `ImVec4` with `x, y, z, w` = red, green, blue,
    alpha, each channel nominally in [0, 1]; float arithmetic is modelled on
    the reals. */
module Colors {

  /** `uint32_t`. */
  type Uint32 = x: int | 0 <= x < 0x1_0000_0000

  /** One 8-bit channel value. */
  type Byte = x: int | 0 <= x < 0x100

  datatype Color = Color(x: real, y: real, z: real, w: real)

  /** All four channels lie in [0, 1]. */
  predicate InUnit(c: Color) {
    0.0 <= c.x <= 1.0 && 0.0 <= c.y <= 1.0 && 0.0 <= c.z <= 1.0 && 0.0 <= c.w <= 1.0
  }

  /** `(hex >> 16) & 0xFF`: for an unsigned value, a right shift by `k` is
      division by `2^k` and masking with `0xFF` is the remainder modulo 256. */
  function RedByte(hex: Uint32): Byte {
    (hex / 0x1_0000) % 0x100
  }

  /** `(hex >> 8) & 0xFF`. */
  function GreenByte(hex: Uint32): Byte {
    (hex / 0x100) % 0x100
  }

  /** `hex & 0xFF`. */
  function BlueByte(hex: Uint32): Byte {
    hex % 0x100
  }

  /** `HexToImVec4(hex, alpha = 1.0f)`: each channel byte scaled by 1/255,
      alpha passed through. */
  function HexToImVec4(hex: Uint32, alpha: real := 1.0): (c: Color)
    ensures 0.0 <= c.x <= 1.0 && 0.0 <= c.y <= 1.0 && 0.0 <= c.z <= 1.0
    ensures c.w == alpha
    ensures c.x * 255.0 == RedByte(hex) as real
    ensures c.y * 255.0 == GreenByte(hex) as real
    ensures c.z * 255.0 == BlueByte(hex) as real
  {
    Color(RedByte(hex) as real / 255.0, GreenByte(hex) as real / 255.0, BlueByte(hex) as real / 255.0, alpha)
  }

  /** The three channel bytes are exactly the low 24 bits of `hex`. */
  lemma {:induction false} ByteRoundTrip(hex: Uint32)
    ensures RedByte(hex) * 0x1_0000 + GreenByte(hex) * 0x100 + BlueByte(hex) == hex % 0x100_0000
  {
    var q := hex / 0x100;
    assert hex == q * 0x100 + BlueByte(hex);
    assert q == (q / 0x100) * 0x100 + GreenByte(hex);
    assert q / 0x100 == hex / 0x1_0000;
    var hi := hex / 0x100_0000;
    assert hex / 0x1_0000 == hi * 0x100 + RedByte(hex);
    assert hex == hi * 0x100_0000 + (RedByte(hex) * 0x1_0000 + GreenByte(hex) * 0x100 + BlueByte(hex));
  }

  /** Adding a multiple of `d · m` to `low` does not change `(low / d) % m`
      (with `d = 1`, it does not change `low % m`): the byte extractions
      cannot see bits above the ones they select. */
  lemma {:induction false} DropHigh(hi: nat, low: nat, d: nat, m: nat)
    requires 0 < d && 0 < m
    ensures ((hi * (d * m) + low) / d) % m == (low / d) % m
  {
    var q, r := low / d, low % d;
    var a := hi * m + q;
    SplitLow(hi, low, d, m);
    DivOfSum(a, d, r);
    assert (hi * (d * m) + low) / d == a;
    ModOfSum(hi, m, q);
  }

  /** `x = hi·d·m + low` split into quotient and remainder by `d`. */
  lemma {:induction false} SplitLow(hi: nat, low: nat, d: nat, m: nat)
    requires 0 < d
    ensures hi * (d * m) + low == (hi * m + low / d) * d + low % d
  {
    var q, r := low / d, low % d;
    assert low == q * d + r;
    assert hi * (d * m) == (hi * m) * d;
    assert (hi * m + q) * d == (hi * m) * d + q * d;
  }

  /** Euclidean division is unique. */
  lemma {:induction false} DivOfSum(a: nat, d: nat, r: nat)
    requires 0 < d && r < d
    ensures (a * d + r) / d == a
  {
    var x := a * d + r;
    var q, s := x / d, x % d;
    assert (a - q) * d == s - r;
    if a - q >= 1 {
      MulLe(1, a - q, d);
    } else if a - q <= -1 {
      MulLe(1, q - a, d);
    }
  }

  /** Multiplication by a natural number is monotone. */
  lemma {:induction false} MulLe(a: nat, b: nat, d: nat)
    requires a <= b
    ensures a * d <= b * d
  {
    assert b * d == a * d + (b - a) * d;
  }

  /** Adding a multiple of `m` does not change the remainder modulo `m`. */
  lemma {:induction false} ModOfSum(hi: nat, m: nat, q: nat)
    requires 0 < m
    ensures (hi * m + q) % m == q % m
  {
    var x := hi * m + q;
    var a, r := q / m, q % m;
    assert x == (hi + a) * m + r;
    DivOfSum(hi + a, m, r);
  }

  /** Bits above bit 23 do not affect the decoded colour. */
  lemma {:induction false} HighBitsIgnored(hex: Uint32, alpha: real)
    ensures HexToImVec4(hex, alpha) == HexToImVec4(hex % 0x100_0000, alpha)
  {
    var hi, low := hex / 0x100_0000, hex % 0x100_0000;
    assert hex == hi * 0x100_0000 + low;
    assert BlueByte(hex) == BlueByte(low) by {
      DropHigh(hi * 0x1_0000, low, 1, 0x100);
    }
    assert GreenByte(hex) == GreenByte(low) by {
      DropHigh(hi * 0x100, low, 0x100, 0x100);
    }
    assert RedByte(hex) == RedByte(low) by {
      DropHigh(hi, low, 0x1_0000, 0x100);
    }
  }

  /** `0xRRGGBB` from three channel bytes. */
  function Pack(r: Byte, g: Byte, b: Byte): (hex: Uint32)
    ensures hex < 0x100_0000
    ensures RedByte(hex) == r && GreenByte(hex) == g && BlueByte(hex) == b
  {
    var hex := r * 0x1_0000 + g * 0x100 + b;
    assert hex / 0x100 == r * 0x100 + g;
    assert hex / 0x1_0000 == r;
    hex
  }

  /** A channel in [0, 1] back to its byte, rounding down. */
  function ChannelByte(v: real): int {
    (v * 255.0).Floor
  }

  /** The inverse of `HexToImVec4`: the `0xRRGGBB` code of a colour whose
      channels are multiples of 1/255. */
  function ToHex(c: Color): int {
    ChannelByte(c.x) * 0x1_0000 + ChannelByte(c.y) * 0x100 + ChannelByte(c.z)
  }

  /** Decoding then re-encoding gives back the low 24 bits of the code. */
  lemma {:induction false} DecodeEncode(hex: Uint32, alpha: real)
    ensures ToHex(HexToImVec4(hex, alpha)) == hex % 0x100_0000
  {
    var c := HexToImVec4(hex, alpha);
    assert ChannelByte(c.x) == RedByte(hex);
    assert ChannelByte(c.y) == GreenByte(hex);
    assert ChannelByte(c.z) == BlueByte(hex);
    ByteRoundTrip(hex);
  }

  /** Encoding three bytes then decoding gives each byte back, scaled. */
  lemma {:induction false} EncodeDecode(r: Byte, g: Byte, b: Byte, alpha: real)
    ensures HexToImVec4(Pack(r, g, b), alpha)
         == Color(r as real / 255.0, g as real / 255.0, b as real / 255.0, alpha)
  {
  }

  /** One channel moved towards 1 by `amount`. */
  function LightenChannel(v: real, amount: real): real {
    v + (1.0 - v) * amount
  }

  /** One channel scaled towards 0 by `amount`. */
  function DarkenChannel(v: real, amount: real): real {
    v * (1.0 - amount)
  }

  /** `ColorUtils::Lighten`: move each colour channel towards 1 by `amount`. */
  function Lighten(c: Color, amount: real): (r: Color)
    ensures r.w == c.w
    ensures amount == 0.0 ==> r == c
    ensures amount == 1.0 ==> r.x == 1.0 && r.y == 1.0 && r.z == 1.0
  {
    Color(LightenChannel(c.x, amount), LightenChannel(c.y, amount), LightenChannel(c.z, amount), c.w)
  }

  /** `ColorUtils::Darken`: scale each colour channel towards 0 by `amount`. */
  function Darken(c: Color, amount: real): (r: Color)
    ensures r.w == c.w
    ensures amount == 0.0 ==> r == c
    ensures amount == 1.0 ==> r.x == 0.0 && r.y == 0.0 && r.z == 0.0
  {
    Color(DarkenChannel(c.x, amount), DarkenChannel(c.y, amount), DarkenChannel(c.z, amount), c.w)
  }

  /** The weighted grey level `ColorUtils::Saturate` pushes away from. */
  function Gray(c: Color): real {
    0.299 * c.x + 0.587 * c.y + 0.114 * c.z
  }

  /** `ColorUtils::Saturate`: move each colour channel away from the grey
      level by `amount` times its distance to it. */
  function Saturate(c: Color, amount: real): (r: Color)
    ensures r.w == c.w
    ensures amount == 0.0 ==> r == c
  {
    var gray := Gray(c);
    Color(c.x + (c.x - gray) * amount, c.y + (c.y - gray) * amount, c.z + (c.z - gray) * amount, c.w)
  }

  lemma {:induction false} ProductNonNegative(a: real, b: real)
    requires 0.0 <= a && 0.0 <= b
    ensures 0.0 <= a * b
  {
  }

  /** A lightened channel lies between the channel and 1, and a darkened one
      between 0 and the channel. */
  lemma {:induction false} ChannelBounds(v: real, amount: real)
    requires 0.0 <= v <= 1.0 && 0.0 <= amount <= 1.0
    ensures v <= LightenChannel(v, amount) <= 1.0
    ensures 0.0 <= DarkenChannel(v, amount) <= v
  {
    ProductNonNegative(1.0 - v, amount);
    ProductNonNegative(1.0 - v, 1.0 - amount);
    assert (1.0 - v) * (1.0 - amount) == (1.0 - v) - (1.0 - v) * amount;
    ProductNonNegative(v, 1.0 - amount);
    ProductNonNegative(v, amount);
    assert v * (1.0 - amount) == v - v * amount;
  }

  /** For a colour in [0, 1] and an amount in [0, 1], `Lighten` never
      darkens and never leaves [0, 1]. */
  lemma {:induction false} LightenBounds(c: Color, amount: real)
    requires InUnit(c) && 0.0 <= amount <= 1.0
    ensures var r := Lighten(c, amount);
      && c.x <= r.x <= 1.0 && c.y <= r.y <= 1.0 && c.z <= r.z <= 1.0 && InUnit(r)
  {
    ChannelBounds(c.x, amount);
    ChannelBounds(c.y, amount);
    ChannelBounds(c.z, amount);
  }

  /** For a colour in [0, 1] and an amount in [0, 1], `Darken` never
      lightens and never leaves [0, 1]. */
  lemma {:induction false} DarkenBounds(c: Color, amount: real)
    requires InUnit(c) && 0.0 <= amount <= 1.0
    ensures var r := Darken(c, amount);
      && 0.0 <= r.x <= c.x && 0.0 <= r.y <= c.y && 0.0 <= r.z <= c.z && InUnit(r)
  {
    ChannelBounds(c.x, amount);
    ChannelBounds(c.y, amount);
    ChannelBounds(c.z, amount);
  }

  /** Lightening more lightens further: for a channel at most 1, a larger
      amount gives a channel at least as large. */
  lemma {:induction false} LightenMonotone(c: Color, a: real, b: real)
    requires c.x <= 1.0 && c.y <= 1.0 && c.z <= 1.0 && a <= b
    ensures var p := Lighten(c, a); var q := Lighten(c, b);
      p.x <= q.x && p.y <= q.y && p.z <= q.z
  {
    ProductNonNegative(1.0 - c.x, b - a);
    ProductNonNegative(1.0 - c.y, b - a);
    ProductNonNegative(1.0 - c.z, b - a);
  }

  /** Two lightenings compose into one: by `a`, then by `b`, is by
      `a + b - a·b`. */
  lemma {:induction false} LightenCompose(c: Color, a: real, b: real)
    ensures Lighten(Lighten(c, a), b) == Lighten(c, a + b - a * b)
  {
    var p := Lighten(c, a);
    assert p.x + (1.0 - p.x) * b == c.x + (1.0 - c.x) * (a + b - a * b);
    assert p.y + (1.0 - p.y) * b == c.y + (1.0 - c.y) * (a + b - a * b);
    assert p.z + (1.0 - p.z) * b == c.z + (1.0 - c.z) * (a + b - a * b);
  }

  /** Two darkenings compose into one: by `a`, then by `b`, is by
      `a + b - a·b`. */
  lemma {:induction false} DarkenCompose(c: Color, a: real, b: real)
    ensures Darken(Darken(c, a), b) == Darken(c, a + b - a * b)
  {
    assert (1.0 - a) * (1.0 - b) == 1.0 - (a + b - a * b);
    assert c.x * (1.0 - a) * (1.0 - b) == c.x * (1.0 - (a + b - a * b));
    assert c.y * (1.0 - a) * (1.0 - b) == c.y * (1.0 - (a + b - a * b));
    assert c.z * (1.0 - a) * (1.0 - b) == c.z * (1.0 - (a + b - a * b));
  }

  /** The colour with each colour channel `v` replaced by `1 - v`. */
  function Invert(c: Color): Color {
    Color(1.0 - c.x, 1.0 - c.y, 1.0 - c.z, c.w)
  }

  /** Lightening is darkening seen through inversion. */
  lemma {:induction false} LightenIsInvertedDarken(c: Color, amount: real)
    ensures Lighten(c, amount) == Invert(Darken(Invert(c), amount))
  {
    assert c.x + (1.0 - c.x) * amount == 1.0 - (1.0 - c.x) * (1.0 - amount);
    assert c.y + (1.0 - c.y) * amount == 1.0 - (1.0 - c.y) * (1.0 - amount);
    assert c.z + (1.0 - c.z) * amount == 1.0 - (1.0 - c.z) * (1.0 - amount);
  }

  /** `Saturate` keeps the grey level: the weights sum to 1, so the pushes
      away from grey cancel out. */
  lemma {:induction false} SaturateKeepsGray(c: Color, amount: real)
    ensures Gray(Saturate(c, amount)) == Gray(c)
  {
    var g := Gray(c);
    assert Gray(Saturate(c, amount))
        == g + (0.299 * (c.x - g) + 0.587 * (c.y - g) + 0.114 * (c.z - g)) * amount;
    assert 0.299 * (c.x - g) + 0.587 * (c.y - g) + 0.114 * (c.z - g) == 0.0;
  }

  /** A grey colour (equal colour channels) is a fixed point of `Saturate`. */
  lemma {:induction false} SaturateFixesGray(c: Color, amount: real)
    requires c.x == c.y == c.z
    ensures Saturate(c, amount) == c
  {
    assert Gray(c) == c.x;
  }

  /** What `Saturate` does to a colour: every colour channel's signed
      distance from the grey level (which stays put) is multiplied by
      `1 + amount`. */
  lemma {:induction false} SaturateScalesDistance(c: Color, amount: real)
    ensures var r := Saturate(c, amount);
      r.x - Gray(r) == (1.0 + amount) * (c.x - Gray(c)) &&
      r.y - Gray(r) == (1.0 + amount) * (c.y - Gray(c)) &&
      r.z - Gray(r) == (1.0 + amount) * (c.z - Gray(c))
  {
    SaturateKeepsGray(c, amount);
  }

  function Abs(x: real): real {
    if x < 0.0 then -x else x
  }

  /** "More vibrant": for a non-negative amount, no colour channel ends up
      closer to the grey level than it started, and a channel that was off
      grey ends up strictly further when the amount is positive. */
  lemma {:induction false} SaturateMoreVibrant(c: Color, amount: real)
    requires 0.0 <= amount
    ensures var r := Saturate(c, amount);
      Abs(c.x - Gray(c)) <= Abs(r.x - Gray(r)) &&
      Abs(c.y - Gray(c)) <= Abs(r.y - Gray(r)) &&
      Abs(c.z - Gray(c)) <= Abs(r.z - Gray(r))
    ensures var r := Saturate(c, amount);
      0.0 < amount ==>
        (c.x != Gray(c) ==> Abs(c.x - Gray(c)) < Abs(r.x - Gray(r))) &&
        (c.y != Gray(c) ==> Abs(c.y - Gray(c)) < Abs(r.y - Gray(r))) &&
        (c.z != Gray(c) ==> Abs(c.z - Gray(c)) < Abs(r.z - Gray(r)))
  {
    var r := Saturate(c, amount);
    var dx, dy, dz := c.x - Gray(c), c.y - Gray(c), c.z - Gray(c);
    SaturateScalesDistance(c, amount);
    assert r.x - Gray(r) == (1.0 + amount) * dx;
    assert r.y - Gray(r) == (1.0 + amount) * dy;
    assert r.z - Gray(r) == (1.0 + amount) * dz;
    ScaledAbs(dx, amount);
    ScaledAbs(dy, amount);
    ScaledAbs(dz, amount);
  }

  /** Scaling by `1 + amount` with `amount >= 0` does not shrink a magnitude. */
  lemma {:induction false} ScaledAbs(d: real, amount: real)
    requires 0.0 <= amount
    ensures Abs(d) <= Abs((1.0 + amount) * d)
    ensures 0.0 < amount && d != 0.0 ==> Abs(d) < Abs((1.0 + amount) * d)
  {
    if d < 0.0 {
      ProductNonNegative(amount, -d);
      assert (1.0 + amount) * d == d + amount * d;
    } else {
      ProductNonNegative(amount, d);
      assert (1.0 + amount) * d == d + amount * d;
    }
    if 0.0 < amount && d != 0.0 {
      assert amount * d != 0.0;
    }
  }

  /** Unlike `Lighten` and `Darken`, `Saturate` can leave [0, 1]: pure red
      saturated by one half has a red channel above 1. */
  lemma SaturateCanLeaveUnit()
    ensures InUnit(Color(1.0, 0.0, 0.0, 1.0))
    ensures !InUnit(Saturate(Color(1.0, 0.0, 0.0, 1.0), 0.5))
  {
  }
}
