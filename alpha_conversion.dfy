/** `premultiply_alpha` and `straight_alpha`: per-pixel conversion between
    straight and premultiplied alpha over an RGBA pixel matrix. The same two
    functions appear in `src/core/image_processor.py` and `image_tab.py`;
    they are modelled once here. */
module AlphaConversion {

  /** One 8-bit colour or alpha sample. */
  type Channel = x: int | 0 <= x <= 255

  /** One RGBA pixel, the last axis of the NumPy matrix. */
  datatype Pixel = Pixel(r: Channel, g: Channel, b: Channel, a: Channel)

  /** An image's pixel matrix, row by row. */
  type Grid = seq<seq<Pixel>>

  /** Every row has the same length: true of every image PIL produces. */
  predicate Rectangular(g: Grid) {
    forall i :: 0 <= i < |g| ==> |g[i]| == |g[0]|
  }

  function Width(g: Grid): nat {
    if g == [] then 0 else |g[0]|
  }

  /** `max(rgb)`: the largest colour channel. */
  function MaxRgb(p: Pixel): (m: Channel)
    ensures p.r <= m && p.g <= m && p.b <= m
    ensures m == p.r || m == p.g || m == p.b
  {
    if p.r >= p.g && p.r >= p.b then p.r
    else if p.g >= p.b then p.g
    else p.b
  }

  /** `c * a // 255`, which never exceeds c. */
  function PremultiplyChannel(c: Channel, a: Channel): (r: Channel)
    ensures r <= c
    ensures r * 255 <= c * a < r * 255 + 255
  {
    ScaleDownBound(c, a);
    c * a / 255
  }

  /** `c * 255 // d` for a divisor d that is at least c: at least c, at most 255. */
  function StraightChannel(c: Channel, d: Channel): (r: Channel)
    requires 0 < d && c <= d
    ensures c <= r
    ensures r * d <= c * 255 < r * d + d
  {
    ScaleUpBound(c, d);
    c * 255 / d
  }

  /** Premultiplied alpha, stated uniformly: every colour channel becomes
      `c * a // 255` and alpha stays. */
  function Premultiplied(p: Pixel): (r: Pixel)
    ensures r.a == p.a && r.r <= p.r && r.g <= p.g && r.b <= p.b
  {
    Pixel(PremultiplyChannel(p.r, p.a), PremultiplyChannel(p.g, p.a),
          PremultiplyChannel(p.b, p.a), p.a)
  }

  /** The divisor `straight_alpha` uses: maxrgb when it exceeds alpha, else alpha. */
  function StraightDivisor(p: Pixel): (d: Channel)
    requires p.a != 0
    ensures d == if MaxRgb(p) >= p.a then MaxRgb(p) else p.a
    ensures 0 < d && MaxRgb(p) <= d
  {
    if MaxRgb(p) > p.a then MaxRgb(p) else p.a
  }

  /** Straight alpha: pixels with alpha 0 or 255 stay; otherwise every colour
      channel is scaled by 255 over the larger of maxrgb and alpha. */
  function Straightened(p: Pixel): (r: Pixel)
    ensures r.a == p.a && p.r <= r.r && p.g <= r.g && p.b <= r.b
  {
    if p.a == 0 || p.a == 255 then p
    else
      var d := StraightDivisor(p);
      Pixel(StraightChannel(p.r, d), StraightChannel(p.g, d), StraightChannel(p.b, d), p.a)
  }

  /** The image a conversion returns: one converted pixel per input pixel. */
  function MapPixels(g: Grid, f: Pixel -> Pixel): (r: Grid)
    ensures |r| == |g| && Width(r) == Width(g)
    ensures forall i, j :: 0 <= i < |g| && 0 <= j < |g[i]| ==> |r[i]| == |g[i]| && r[i][j] == f(g[i][j])
    ensures Rectangular(g) ==> Rectangular(r)
  {
    seq(|g|, i requires 0 <= i < |g| => seq(|g[i]|, j requires 0 <= j < |g[i]| => f(g[i][j])))
  }

  // ---------------------------------------------------------------------
  // The conversions as the source runs them: copy the image into a matrix
  // (`np.array`), rewrite it pixel by pixel in place, and turn it back into
  // an image (`Image.fromarray`).

  /** `np.array(img)`: a fresh matrix holding the image's pixels. */
  method ToMatrix(img: Grid) returns (m: array2<Pixel>)
    requires Rectangular(img)
    ensures fresh(m)
    ensures m.Length0 == |img| && m.Length1 == Width(img)
    ensures forall i, j :: 0 <= i < |img| && 0 <= j < Width(img) ==> m[i, j] == img[i][j]
  {
    var w := Width(img);
    m := new Pixel[|img|, w]((i, j) requires 0 <= i < |img| && 0 <= j < w => img[i][j]);
  }

  /** `Image.fromarray(matrix)`: the matrix's pixels as an image value. */
  method FromMatrix(m: array2<Pixel>) returns (g: Grid)
    ensures |g| == m.Length0 && Rectangular(g) && (m.Length0 > 0 ==> Width(g) == m.Length1)
    ensures forall i, j :: 0 <= i < m.Length0 && 0 <= j < m.Length1 ==> |g[i]| == m.Length1 && g[i][j] == m[i, j]
  {
    g := seq(m.Length0, i requires 0 <= i < m.Length0 reads m =>
      seq(m.Length1, j requires 0 <= j < m.Length1 reads m => m[i, j]));
  }

  /** The loops of premultiply_alpha: alpha 255 is skipped, alpha 0 clears
      the colour, anything else scales every colour channel by alpha. */
  method PremultiplyMatrix(m: array2<Pixel>)
    modifies m
    ensures forall i, j :: 0 <= i < m.Length0 && 0 <= j < m.Length1 ==> m[i, j] == Premultiplied(old(m[i, j]))
  {
    var i := 0;
    while i < m.Length0
      invariant 0 <= i <= m.Length0
      invariant forall x, y :: 0 <= x < i && 0 <= y < m.Length1 ==> m[x, y] == Premultiplied(old(m[x, y]))
      invariant forall x, y :: i <= x < m.Length0 && 0 <= y < m.Length1 ==> m[x, y] == old(m[x, y])
    {
      var j := 0;
      while j < m.Length1
        invariant 0 <= j <= m.Length1
        invariant forall x, y :: 0 <= x < i && 0 <= y < m.Length1 ==> m[x, y] == Premultiplied(old(m[x, y]))
        invariant forall y :: 0 <= y < j ==> m[i, y] == Premultiplied(old(m[i, y]))
        invariant forall x, y :: i <= x < m.Length0 && 0 <= y < m.Length1 && (x > i || y >= j) ==> m[x, y] == old(m[x, y])
      {
        var pixel := m[i, j];
        PremultiplyAtExtremes(pixel);
        if pixel.a == 255 {
        } else if pixel.a == 0 {
          m[i, j] := Pixel(0, 0, 0, pixel.a);
        } else {
          m[i, j] := Pixel(PremultiplyChannel(pixel.r, pixel.a), PremultiplyChannel(pixel.g, pixel.a),
                           PremultiplyChannel(pixel.b, pixel.a), pixel.a);
        }
        j := j + 1;
      }
      i := i + 1;
    }
  }

  /** The loops of straight_alpha: pixels with alpha 0 or 255 are skipped;
      otherwise every colour channel is scaled by 255 over maxrgb when maxrgb
      exceeds alpha, and over alpha when it does not. */
  method StraightMatrix(m: array2<Pixel>)
    modifies m
    ensures forall i, j :: 0 <= i < m.Length0 && 0 <= j < m.Length1 ==> m[i, j] == Straightened(old(m[i, j]))
  {
    var i := 0;
    while i < m.Length0
      invariant 0 <= i <= m.Length0
      invariant forall x, y :: 0 <= x < i && 0 <= y < m.Length1 ==> m[x, y] == Straightened(old(m[x, y]))
      invariant forall x, y :: i <= x < m.Length0 && 0 <= y < m.Length1 ==> m[x, y] == old(m[x, y])
    {
      var j := 0;
      while j < m.Length1
        invariant 0 <= j <= m.Length1
        invariant forall x, y :: 0 <= x < i && 0 <= y < m.Length1 ==> m[x, y] == Straightened(old(m[x, y]))
        invariant forall y :: 0 <= y < j ==> m[i, y] == Straightened(old(m[i, y]))
        invariant forall x, y :: i <= x < m.Length0 && 0 <= y < m.Length1 && (x > i || y >= j) ==> m[x, y] == old(m[x, y])
      {
        var pixel := m[i, j];
        var alpha := pixel.a;
        if alpha != 0 && alpha != 255 {
          var maxrgb := MaxRgb(pixel);
          if maxrgb > alpha {
            m[i, j] := Pixel(StraightChannel(pixel.r, maxrgb), StraightChannel(pixel.g, maxrgb),
                             StraightChannel(pixel.b, maxrgb), alpha);
          } else {
            m[i, j] := Pixel(StraightChannel(pixel.r, alpha), StraightChannel(pixel.g, alpha),
                             StraightChannel(pixel.b, alpha), alpha);
          }
        }
        j := j + 1;
      }
      i := i + 1;
    }
  }

  /** premultiply_alpha: the returned image holds the premultiplied pixels. */
  method PremultiplyAlpha(img: Grid) returns (result: Grid)
    requires Rectangular(img)
    ensures result == MapPixels(img, Premultiplied)
  {
    var matrix := ToMatrix(img);
    PremultiplyMatrix(matrix);
    result := FromMatrix(matrix);
    SameImage(result, MapPixels(img, Premultiplied));
  }

  /** straight_alpha: the returned image holds the straightened pixels. */
  method StraightAlpha(img: Grid) returns (result: Grid)
    requires Rectangular(img)
    ensures result == MapPixels(img, Straightened)
  {
    var matrix := ToMatrix(img);
    StraightMatrix(matrix);
    result := FromMatrix(matrix);
    SameImage(result, MapPixels(img, Straightened));
  }

  // ---------------------------------------------------------------------
  // Lemmas

  /** Two images with the same shape and the same pixels are equal. */
  lemma SameImage(g: Grid, h: Grid)
    requires Rectangular(g) && Rectangular(h) && |g| == |h| && Width(g) == Width(h)
    requires forall i, j :: 0 <= i < |g| && 0 <= j < Width(g) ==> g[i][j] == h[i][j]
    ensures g == h
  {
    forall i | 0 <= i < |g| ensures g[i] == h[i] {
      assert |g[i]| == Width(g) == |h[i]|;
    }
  }

  /** Multiplying by a non-negative factor keeps an ordering. */
  lemma {:induction false} MulMono(k: nat, y: int, z: int)
    requires y <= z
    ensures k * y <= k * z
  {
    if k > 0 {
      MulMono(k - 1, y, z);
      assert k * y == (k - 1) * y + y;
      assert k * z == (k - 1) * z + z;
    }
  }

  /** A positive factor can be cancelled from an ordering. */
  lemma MulCancel(x: int, y: int, k: nat)
    requires k > 0 && x * k <= y * k
    ensures x <= y
  {
    if x > y {
      assert k * (y + 1) == y * k + k;
      MulMono(k, y + 1, x);
    }
  }

  lemma ScaleDownBound(c: Channel, a: Channel)
    ensures 0 <= c * a / 255 <= c
    ensures (c * a / 255) * 255 <= c * a < (c * a / 255) * 255 + 255
  {
    var ci: int, ai: int := c, a;
    MulMono(c, ai, 255);
    assert ci * ai <= ci * 255;
  }

  lemma ScaleUpBound(c: Channel, d: Channel)
    requires 0 < d && c <= d
    ensures c <= c * 255 / d <= 255
    ensures (c * 255 / d) * d <= c * 255 < (c * 255 / d) * d + d
  {
    var n: int := c as int * 255;
    var di: int := d;
    var q := n / di;
    var rem := n % di;
    assert n == q * di + rem && 0 <= rem < di;
    assert q <= 255 by {
      assert q * di <= 255 * di;
      MulCancel(q, 255, d);
    }
    assert c <= q by {
      MulMono(c, di, 255);
      assert c as int * di <= n;
      assert n < (q + 1) * di;
      MulCancel(c, q + 1, d);
    }
  }

  /** The two special cases of premultiply_alpha agree with the uniform rule:
      alpha 255 leaves the pixel alone and alpha 0 clears its colour. */
  lemma PremultiplyAtExtremes(p: Pixel)
    ensures p.a == 255 ==> Premultiplied(p) == p
    ensures p.a == 0 ==> Premultiplied(p) == Pixel(0, 0, 0, 0)
  {
    if p.a == 255 {
      assert p.r * 255 / 255 == p.r && p.g * 255 / 255 == p.g && p.b * 255 / 255 == p.b;
    }
  }

  /** Premultiplying keeps alpha and never brightens a channel. */
  lemma PremultiplyBounds(p: Pixel)
    ensures var q := Premultiplied(p);
      && q.a == p.a
      && q.r <= p.r && q.g <= p.g && q.b <= p.b
      && (0 < p.a < 255 ==> q.r == p.r * p.a / 255 && q.g == p.g * p.a / 255 && q.b == p.b * p.a / 255)
  {
  }

  /** Straightening keeps alpha, leaves alpha 0 and 255 alone, and otherwise
      never darkens a channel nor pushes it past 255 (no division by zero). */
  lemma StraightBounds(p: Pixel)
    ensures var q := Straightened(p);
      && q.a == p.a
      && (p.a == 0 || p.a == 255 ==> q == p)
      && p.r <= q.r && p.g <= q.g && p.b <= q.b
  {
  }

  /** When maxrgb exceeds alpha, the brightest channel becomes exactly 255. */
  lemma StraightMaxBecomes255(p: Pixel)
    requires 0 < p.a < 255 && MaxRgb(p) > p.a
    ensures MaxRgb(Straightened(p)) == 255
  {
    var m := MaxRgb(p);
    StraightOfItself(m);
    var q := Straightened(p);
    assert q.r <= 255 && q.g <= 255 && q.b <= 255;
    if m == p.r { assert q.r == 255; }
    else if m == p.g { assert q.g == 255; }
    else { assert q.b == 255; }
  }

  /** Dividing by the channel's own value gives full intensity. */
  lemma StraightOfItself(c: Channel)
    requires 0 < c
    ensures StraightChannel(c, c) == 255
  {
    var r := StraightChannel(c, c);
    if r < 255 {
      assert r * c + c == (r + 1) * c;
      MulMono(c, r + 1, 255);
    }
  }

  /** At alpha 255 both compositions of the conversions are the identity. */
  lemma OpaqueRoundTrips(p: Pixel)
    requires p.a == 255
    ensures Straightened(Premultiplied(p)) == p
    ensures Premultiplied(Straightened(p)) == p
  {
    PremultiplyAtExtremes(p);
  }

  /** At alpha 0, straightening and then premultiplying leaves no colour. */
  lemma TransparentStraightThenPremultiply(p: Pixel)
    requires p.a == 0
    ensures Premultiplied(Straightened(p)) == Pixel(0, 0, 0, 0)
  {
    PremultiplyAtExtremes(p);
  }

  /** For a valid premultiplied pixel (no channel above alpha), straightening
      and premultiplying again returns every channel to within one step below. */
  lemma PremultipliedRoundTrip(p: Pixel)
    requires 0 < p.a < 255 && MaxRgb(p) <= p.a
    ensures var q := Premultiplied(Straightened(p));
      && q.a == p.a
      && p.r - 1 <= q.r <= p.r && p.g - 1 <= q.g <= p.g && p.b - 1 <= q.b <= p.b
  {
    ChannelRoundTrip(p.r, p.a);
    ChannelRoundTrip(p.g, p.a);
    ChannelRoundTrip(p.b, p.a);
  }

  lemma ChannelRoundTrip(c: Channel, a: Channel)
    requires 0 < a < 255 && c <= a
    ensures c - 1 <= PremultiplyChannel(StraightChannel(c, a), a) <= c
  {
    var s := StraightChannel(c, a);
    var t := PremultiplyChannel(s, a);
    var sa := s * a;
    assert sa <= c * 255 < sa + a;
    assert t * 255 <= sa < (t + 1) * 255;
    assert t <= c;
    assert c * 255 - 255 < (t + 1) * 255;
  }

  /** Straightening a premultiplied pixel never brightens a channel past its
      straight original. */
  lemma StraightAfterPremultiply(p: Pixel)
    requires 0 < p.a < 255
    ensures var q := Straightened(Premultiplied(p));
      && q.a == p.a && q.r <= p.r && q.g <= p.g && q.b <= p.b
  {
    var pm := Premultiplied(p);
    ChannelBelowAlpha(p.r, p.a);
    ChannelBelowAlpha(p.g, p.a);
    ChannelBelowAlpha(p.b, p.a);
    assert StraightDivisor(pm) == p.a;
    ChannelBack(p.r, p.a);
    ChannelBack(p.g, p.a);
    ChannelBack(p.b, p.a);
  }

  lemma ChannelBelowAlpha(c: Channel, a: Channel)
    requires 0 < a < 255
    ensures PremultiplyChannel(c, a) <= a
  {
    MulMono(a, c, 255);
    assert c as int * a <= 255 * a;
  }

  lemma ChannelBack(c: Channel, a: Channel)
    requires 0 < a < 255
    ensures PremultiplyChannel(c, a) <= a
    ensures StraightChannel(PremultiplyChannel(c, a), a) <= c
  {
    ChannelBelowAlpha(c, a);
    var t := PremultiplyChannel(c, a);
    var s := StraightChannel(t, a);
    assert s * a <= t * 255 <= c * a;
    MulCancel(s, c, a);
  }

  /** Both conversions keep the image's shape and every pixel's alpha. */
  lemma ConversionsKeepShapeAndAlpha(g: Grid)
    ensures var pm := MapPixels(g, Premultiplied);
      && |pm| == |g| && Width(pm) == Width(g)
      && forall i, j :: 0 <= i < |g| && 0 <= j < |g[i]| ==> pm[i][j].a == g[i][j].a
    ensures var st := MapPixels(g, Straightened);
      && |st| == |g| && Width(st) == Width(g)
      && forall i, j :: 0 <= i < |g| && 0 <= j < |g[i]| ==> st[i][j].a == g[i][j].a
  {
  }

  // ---------------------------------------------------------------------
  // straight_alpha as NumPy 2 or later evaluates it. `np.array(img)` keeps
  // the image's uint8 samples, and with NumPy >= 2 `rgb[i] * 255` on a uint8
  // sample stays uint8, so the product wraps mod 256 before the floor
  // division. NumPy 1.x promotes the product to int64, which is the exact
  // arithmetic of the conversion above and of the rest of the model.

  /** `rgb[i] * 255 // d` with the product taken mod 256. */
  function StraightChannelUint8(c: Channel, d: Channel): (r: Channel)
    requires 0 < d
    ensures r <= c * 255 % 256
  {
    DivAtMost(c * 255 % 256, d);
    (c * 255 % 256) / d
  }

  lemma DivAtMost(n: nat, d: nat)
    requires 0 < d
    ensures n / d <= n
  {
    var q := n / d;
    assert q * d <= n;
    MulMono(q, 1, d);
  }

  /** straight_alpha on one pixel with uint8 arithmetic. */
  function StraightenedUint8(p: Pixel): (r: Pixel)
    ensures r.a == p.a
    ensures (p.a == 0 || p.a == 255) ==> r == p
  {
    if p.a == 0 || p.a == 255 then p
    else
      var d := StraightDivisor(p);
      Pixel(StraightChannelUint8(p.r, d), StraightChannelUint8(p.g, d), StraightChannelUint8(p.b, d), p.a)
  }

  /** With wrapping, a premultiplied red of 200 under alpha 201 comes out as
      0 instead of 253, and a pixel whose red 200 exceeds alpha 100 does not
      reach full intensity: both promises of the exact conversion fail. */
  lemma StraightUint8Wraps()
    ensures StraightenedUint8(Pixel(200, 0, 0, 201)).r == 0
    ensures Straightened(Pixel(200, 0, 0, 201)).r == 253
    ensures StraightenedUint8(Pixel(200, 0, 0, 100)).r == 0
    ensures Straightened(Pixel(200, 0, 0, 100)).r == 255
  {
    assert StraightDivisor(Pixel(200, 0, 0, 201)) == 201;
    assert StraightDivisor(Pixel(200, 0, 0, 100)) == 200;
    StraightOfItself(200);
  }
}
