/** Drawing a FreeType bitmap into an OpenCV image with clipping and alpha blending (ft2wrap.h). */
module GlyphBlend {
  import opened Common

  datatype Pixel = Pixel(b: Byte, g: Byte, r: Byte)

  datatype Colour = Colour(b: int, g: int, r: int)

  /** An 8-bit coverage bitmap; rows are `pitch` bytes apart. */
  datatype Bitmap = Bitmap(width: nat, rows: nat, pitch: nat, buffer: seq<Byte>)
  {
    predicate Valid()
    {
      width <= pitch && rows * pitch <= |buffer|
    }

    function Alpha(i: nat, j: nat): Byte
      requires Valid() && i < rows && j < width
    {
      AlphaIndex(i, j, this);
      buffer[i * pitch + j]
    }
  }

  lemma AlphaIndex(i: nat, j: nat, m: Bitmap)
    requires m.width <= m.pitch && m.rows * m.pitch <= |m.buffer| && i < m.rows && j < m.width
    ensures 0 <= i * m.pitch + j < |m.buffer|
  {
    assert (i + 1) * m.pitch <= m.rows * m.pitch;
  }

  /** Division as in C, towards zero. */
  function Div(a: int, b: int): int
    requires b > 0
  {
    if a >= 0 then a / b else -(-a / b)
  }

  /** One channel; the result is stored in an unsigned char. */
  function Blend(src: Byte, c: int, val: Byte): Byte
  {
    Div(src * (255 - val) + c * val, 256) % 256
  }

  function BlendPixel(p: Pixel, c: Colour, val: Byte): Pixel
  {
    Pixel(Blend(p.b, c.b, val), Blend(p.g, c.g, val), Blend(p.r, c.r, val))
  }

  /** In C the quotient of a negative number is rounded towards zero: the remainder has the sign of the
      dividend. */
  lemma DivTruncates(a: int, b: int)
    requires b > 0
    ensures var r := a - b * Div(a, b); if a >= 0 then 0 <= r < b else -b < r <= 0
  {
    var n := if a >= 0 then a else -a;
    assert n == b * (n / b) + n % b;
    if a < 0 {
      assert a - b * Div(a, b) == -(n - b * (n / b));
    }
  }

  /** The bitmap, with its top left corner at (x, y), covers the pixel with a nonzero alpha. */
  predicate Covers(m: Bitmap, x: int, y: int, row: int, col: int)
    requires m.Valid()
  {
    y <= row < y + m.rows && x <= col < x + m.width && m.Alpha(row - y, col - x) != 0
  }

  /** What becomes of one pixel. */
  function Drawn(p: Pixel, m: Bitmap, x: int, y: int, c: Colour, row: int, col: int): Pixel
    requires m.Valid()
  {
    if Covers(m, x, y, row, col) then BlendPixel(p, c, m.Alpha(row - y, col - x)) else p
  }

  /** `my_draw_bitmap`. The positions are those for which the C arithmetic does not overflow. */
  method DrawBitmap(img: array2<Pixel>, m: Bitmap, x: int, y: int, c: Colour)
    requires m.Valid() && IsPlace(m, x, y)
    modifies img
    ensures forall row, col | 0 <= row < img.Length0 && 0 <= col < img.Length1 ::
              img[row, col] == Drawn(old(img[row, col]), m, x, y, c, row, col)
  {
    var x0, x1, y0, y1 := x, x + m.width, y, y + m.rows;
    if x0 < 0 { x0 := 0; }
    if y0 < 0 { y0 := 0; }
    if x1 > img.Length1 { x1 := img.Length1; }
    if y1 > img.Length0 { y1 := img.Length0; }
    var i0, i1, j0, j1 := y0 - y, y1 - y, x0 - x, x1 - x;
    var i := i0;
    while i < i1
      invariant i0 <= i && (i <= i1 || i == i0)
      invariant forall row, col | 0 <= row < img.Length0 && 0 <= col < img.Length1 ::
                  img[row, col] == if row < y + i then Drawn(old(img[row, col]), m, x, y, c, row, col)
                                   else old(img[row, col])
    {
      DrawRow(img, m, x, y, c, i, j0, j1);
      i := i + 1;
    }
  }

  /** The inner loop, for row `i` of the bitmap and its columns `j0` to `j1`. */
  method DrawRow(img: array2<Pixel>, m: Bitmap, x: int, y: int, c: Colour, i: nat, j0: nat, j1: int)
    requires m.Valid() && i < m.rows && 0 <= y + i < img.Length0
    requires x + j0 == (if x < 0 then 0 else x)
    requires x + j1 == (if x + m.width > img.Length1 then img.Length1 else x + m.width)
    modifies img
    ensures forall row, col | 0 <= row < img.Length0 && 0 <= col < img.Length1 ::
              img[row, col] == if row == y + i then Drawn(old(img[row, col]), m, x, y, c, row, col)
                               else old(img[row, col])
  {
    var j: int := j0;
    while j < j1
      invariant j0 <= j && (j <= j1 || j == j0)
      invariant forall row, col | 0 <= row < img.Length0 && 0 <= col < img.Length1 ::
                  img[row, col] == if row == y + i && col < x + j
                                   then Drawn(old(img[row, col]), m, x, y, c, row, col) else old(img[row, col])
    {
      var val := m.Alpha(i, j);
      if val != 0 {
        img[y + i, x + j] := BlendPixel(img[y + i, x + j], c, val);
      }
      j := j + 1;
    }
  }

  // ---------------------------------------------------------------------------
  // Channels
  // ---------------------------------------------------------------------------

  /** The weighted sum before the division. */
  function Mix(src: Byte, c: int, val: Byte): int
  {
    src * (255 - val) + c * val
  }

  lemma Scaled(a: int, b: int, k: nat)
    requires a <= b
    ensures a * k <= b * k
  {
  }

  lemma MixGrows(src: Byte, src': Byte, c: Byte, c': Byte, val: Byte)
    requires src <= src' && c <= c'
    ensures Mix(src, c, val) <= Mix(src', c', val)
  {
    Scaled(src, src', 255 - val);
    Scaled(c, c', val);
  }

  lemma MixOfSame(c: Byte, val: Byte)
    ensures Mix(c, c, val) == 255 * c
  {
  }

  lemma MixBounds(src: Byte, c: Byte, val: Byte)
    ensures 255 * (if src < c then src else c) <= Mix(src, c, val) <= 255 * (if src < c then c else src)
  {
    var low, high := if src < c then src else c, if src < c then c else src;
    MixGrows(low, src, low, c, val);
    MixGrows(src, high, c, high, val);
    MixOfSame(low, val);
    MixOfSame(high, val);
  }

  lemma QuotientGrows(a: int, b: int)
    requires a <= b
    ensures a / 256 <= b / 256
  {
  }

  lemma QuotientAtMost(n: int, high: Byte)
    requires n <= 255 * high
    ensures n / 256 <= high
  {
  }

  lemma QuotientFits(n: int)
    requires 0 <= n < 0x1_0000
    ensures (n / 256) % 256 == n / 256
  {
  }

  /** For colours in 0..255 nothing wraps, and the channel lies between the rounded-down 255/256 of the
      smaller value and the larger value. */
  lemma BlendStaysBetween(src: Byte, c: Byte, val: Byte)
    ensures Blend(src, c, val) == Mix(src, c, val) / 256
    ensures 255 * (if src < c then src else c) / 256 <= Blend(src, c, val) <= if src < c then c else src
  {
    MixBounds(src, c, val);
    var n := Mix(src, c, val);
    QuotientFits(n);
    QuotientGrows(255 * (if src < c then src else c), n);
    QuotientAtMost(n, if src < c then c else src);
  }

  /** Dividing by 256 instead of 255 costs at most one. */
  lemma BlendIsNearlyExact(src: Byte, c: Byte, val: Byte)
    ensures Mix(src, c, val) / 255 - 1 <= Blend(src, c, val) <= Mix(src, c, val) / 255
  {
    BlendStaysBetween(src, c, val);
    MixBounds(src, c, val);
  }

  /** But it costs one whenever the colour is there already: drawing in the colour of the background
      makes every covered channel darker by exactly one, until it is black. */
  lemma SameColourFades(c: Byte, val: Byte)
    ensures Blend(c, c, val) == if c == 0 then 0 else c - 1
  {
    MixOfSame(c, val);
    BlendStaysBetween(c, c, val);
  }

  /** A channel grows with the colour and with what was there. */
  lemma BlendIsMonotone(src: Byte, src': Byte, c: Byte, c': Byte, val: Byte)
    requires src <= src' && c <= c'
    ensures Blend(src, c, val) <= Blend(src', c', val)
  {
    BlendStaysBetween(src, c, val);
    BlendStaysBetween(src', c', val);
    MixGrows(src, src', c, c', val);
  }

  // ---------------------------------------------------------------------------
  // Pictures
  // ---------------------------------------------------------------------------

  /** Only pixels of the image inside the bitmap's rectangle can change. */
  lemma OnlyCoveredPixelsChange(p: Pixel, m: Bitmap, x: int, y: int, c: Colour, row: int, col: int)
    requires m.Valid() && Drawn(p, m, x, y, c, row, col) != p
    ensures y <= row < y + m.rows && x <= col < x + m.width && m.Alpha(row - y, col - x) > 0
  {
  }

  lemma EitherOrder(p: Pixel, m: Bitmap, x: int, y: int, c: Colour, m': Bitmap, x': int, y': int, c': Colour,
                    row: int, col: int)
    requires m.Valid() && m'.Valid() && !(Covers(m, x, y, row, col) && Covers(m', x', y', row, col))
    ensures Drawn(Drawn(p, m, x, y, c, row, col), m', x', y', c', row, col)
            == Drawn(Drawn(p, m', x', y', c', row, col), m, x, y, c, row, col)
  {
  }

  /** The position of a bitmap is one at which the C arithmetic does not overflow. */
  predicate IsPlace(m: Bitmap, x: int, y: int)
  {
    -0x8000_0000 <= x && x + m.width < 0x8000_0000 && -0x8000_0000 <= y && y + m.rows < 0x8000_0000
  }

  /** `my_draw_bitmap` for a colour of bytes: a pixel at which the bitmap has a nonzero byte gets, channel by
      channel, the mean of what was there and the colour, weighted by that byte; a zero byte, or a place outside
      the rectangle, leaves it alone. */
  lemma DrawnWrittenOut(p: Pixel, m: Bitmap, x: int, y: int, c: Colour, row: int, col: int)
    requires m.Valid() && 0 <= c.b < 256 && 0 <= c.g < 256 && 0 <= c.r < 256
    ensures if y <= row < y + m.rows && x <= col < x + m.width then
              && 0 <= (row - y) * m.pitch + (col - x) < |m.buffer|
              && var val := m.buffer[(row - y) * m.pitch + (col - x)];
              && var q := Drawn(p, m, x, y, c, row, col);
              if val == 0 then q == p
              else && q.b as int == (p.b * (255 - val) + c.b * val) / 256
                   && q.g as int == (p.g * (255 - val) + c.g * val) / 256
                   && q.r as int == (p.r * (255 - val) + c.r * val) / 256
            else Drawn(p, m, x, y, c, row, col) == p
  {
    if y <= row < y + m.rows && x <= col < x + m.width {
      AlphaIndex(row - y, col - x, m);
      var val := m.Alpha(row - y, col - x);
      BlendStaysBetween(p.b, c.b, val);
      BlendStaysBetween(p.g, c.g, val);
      BlendStaysBetween(p.r, c.r, val);
    }
  }

  /** Two glyphs that cover no common pixel of the image give the same picture in either order. */
  method DisjointGlyphsCommute(img: array2<Pixel>, other: array2<Pixel>, m: Bitmap, x: int, y: int, c: Colour,
                               m': Bitmap, x': int, y': int, c': Colour)
    requires m.Valid() && m'.Valid() && IsPlace(m, x, y) && IsPlace(m', x', y')
    requires img != other && img.Length0 == other.Length0 && img.Length1 == other.Length1
    requires forall row, col | 0 <= row < img.Length0 && 0 <= col < img.Length1 :: img[row, col] == other[row, col]
    requires forall row, col | 0 <= row < img.Length0 && 0 <= col < img.Length1 ::
               !(Covers(m, x, y, row, col) && Covers(m', x', y', row, col))
    modifies img, other
    ensures forall row, col | 0 <= row < img.Length0 && 0 <= col < img.Length1 :: img[row, col] == other[row, col]
  {
    DrawBitmap(img, m, x, y, c);
    DrawBitmap(img, m', x', y', c');
    DrawBitmap(other, m', x', y', c');
    DrawBitmap(other, m, x, y, c);
    forall row, col | 0 <= row < img.Length0 && 0 <= col < img.Length1
      ensures img[row, col] == other[row, col]
    {
      EitherOrder(old(img[row, col]), m, x, y, c, m', x', y', c', row, col);
    }
  }
}
