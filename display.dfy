/*
  The frame buffers of src/display.c: a row-major `uint32_t` colour buffer
  of win_width * win_height pixels, which may still be NULL, and the
  pixel, rectangle, grid and clear loops that write it.  The canvas also
  holds the other globals the rasteriser of src/triangle.c reads and
  writes: the depth buffer and the current texture's size.
*/
module Display {
  import opened Color

  /** The colour `clear_color_buffer` paints on every tenth row and column. */
  const ClearLineColor: Color := 0xFF333333

  /** Pixel (x, y) lies inside a buffer of w * h pixels. */
  lemma IndexInBounds(x: int, y: int, w: int, h: int)
    requires 0 <= x < w && 0 <= y < h
    ensures 0 <= y * w + x < w * h
  {
    assert y * w <= (h - 1) * w;
  }

  /** Euclidean division by w is unique: i = q * w + r with 0 <= r < w fixes q and r. */
  lemma {:induction false} DivModUnique(i: int, w: int, q: int, r: int)
    requires w > 0 && 0 <= r < w && i == q * w + r
    ensures i / w == q && i % w == r
  {
    var q', r' := i / w, i % w;
    assert q' * w + r' == q * w + r;
    assert (q' - q) * w == r - r';
    if q' > q {
      MulAtLeast(q' - q, w);
    } else if q' < q {
      MulAtLeast(q - q', w);
    }
  }

  lemma MulAtLeast(d: int, w: int)
    requires d >= 1 && w > 0
    ensures d * w >= w
  {
  }

  /** A buffer index splits back into its column and row. */
  lemma IndexCoordinates(x: int, y: int, w: int)
    requires 0 <= x < w && 0 <= y
    ensures (y * w + x) % w == x && (y * w + x) / w == y
  {
    DivModUnique(y * w + x, w, y, x);
  }

  /** Two indices with the same column and row are the same index. */
  lemma SameCell(i: int, j: int, w: int)
    requires w > 0 && i % w == j % w && i / w == j / w
    ensures i == j
  {
  }

  /** The row of an index into a buffer of w * h pixels is below h. */
  lemma RowInRange(i: int, w: int, h: int)
    requires w > 0 && 0 <= i < w * h
    ensures 0 <= i % w < w && 0 <= i / w < h
  {
  }

  /** `(uint32_t)(0xFF * (x / (float)w))` for 0 <= x < w: a channel that starts at 0 and never reaches 255. */
  function Ramp(x: int, w: int): (r: Channel)
    requires 0 <= x < w
    ensures r < 255 && (x == 0 ==> r == 0)
  {
    var f := x as real / w as real;
    assert 0.0 <= f < 1.0;
    assert 255.0 * f < 255.0;
    (255.0 * f).Floor
  }

  /** The colour `draw_grid` gives pixel i: opaque, red ramping with x, green with y, no blue. */
  function GridPixel(i: int, w: int, h: int): (c: Color)
    requires w > 0 && h > 0 && 0 <= i < w * h
    ensures ChannelOf(c, 3) == 0xFF && ChannelOf(c, 0) == 0
    ensures ChannelOf(c, 2) == Ramp(i % w, w) && ChannelOf(c, 1) == Ramp(i / w, h)
  {
    RowInRange(i, w, h);
    Pack(0xFF, Ramp(i % w, w), Ramp(i / w, h), 0)
  }

  /** Pixel i lies on a grid line: its column or its row is a multiple of the cell size. */
  predicate OnGrid(i: int, w: int, cellWidth: int, cellHeight: int)
    requires w > 0 && cellWidth > 0 && cellHeight > 0
  {
    (i % w) % cellWidth == 0 || (i / w) % cellHeight == 0
  }

  /** What `clear_color_buffer(color)` leaves in pixel i. */
  function ClearedPixel(i: int, w: int, color: Color): (c: Color)
    requires w > 0
    ensures c == ClearLineColor <==> ((i % w) % 10 == 0 || (i / w) % 10 == 0 || color == ClearLineColor)
    ensures c == color || c == ClearLineColor
  {
    if (i % w) % 10 == 0 || (i / w) % 10 == 0 then ClearLineColor else color
  }

  /** Pixel i lies in columns x0 <= x < x1 and rows y0 <= y < y1. */
  predicate InRect(i: int, w: int, x0: int, x1: int, y0: int, y1: int)
    requires w > 0
  {
    x0 <= i % w < x1 && y0 <= i / w < y1
  }

  function Min(a: int, b: int): (m: int)
    ensures m <= a && m <= b && (m == a || m == b)
  {
    if a < b then a else b
  }

  /** The window and the buffers drawn into. */
  class Canvas {
    var width: int
    var height: int
    var colorBuffer: array?<Color>
    var zBuffer: array<real>
    var textureWidth: int
    var textureHeight: int

    ghost predicate Valid()
      reads this
    {
      width > 0 && height > 0 &&
      (colorBuffer != null ==> colorBuffer.Length == width * height) &&
      zBuffer.Length == width * height
    }

    /** A window of w * h pixels with a zeroed colour buffer (the `calloc` of the setup) and a far depth buffer. */
    constructor (w: int, h: int, texWidth: int, texHeight: int)
      requires w > 0 && h > 0
      ensures Valid() && width == w && height == h
      ensures textureWidth == texWidth && textureHeight == texHeight
      ensures colorBuffer != null && fresh(colorBuffer) && fresh(zBuffer)
      ensures forall i :: 0 <= i < colorBuffer.Length ==> colorBuffer[i] == 0
    {
      width, height := w, h;
      colorBuffer := new Color[w * h](_ => 0);
      zBuffer := new real[w * h](_ => 1.0);
      textureWidth, textureHeight := texWidth, texHeight;
    }

    /**
      `draw_pixel`: a pixel right of or below the window is refused and
      nothing changes; otherwise exactly index y * width + x is written.
      Negative coordinates are not checked by the source, hence x, y >= 0.
    */
    method DrawPixel(x: int, y: int, color: Color)
      requires Valid() && colorBuffer != null && x >= 0 && y >= 0
      modifies colorBuffer
      ensures x < width && y < height ==> 0 <= y * width + x < colorBuffer.Length
      ensures colorBuffer[..] ==
        if x < width && y < height then old(colorBuffer[..])[y * width + x := color]
        else old(colorBuffer[..])
    {
      if x >= width || y >= height {
        return;
      }
      var j := y * width + x;
      IndexInBounds(x, y, width, height);
      colorBuffer[j] := color;
    }

    /** `draw_grid`: repaints exactly the pixels on grid lines, and nothing when there is no buffer. */
    method DrawGrid(cellWidth: int, cellHeight: int)
      requires Valid() && cellWidth > 0 && cellHeight > 0
      modifies colorBuffer
      ensures colorBuffer != null ==> forall i :: 0 <= i < colorBuffer.Length ==>
        colorBuffer[i] == if OnGrid(i, width, cellWidth, cellHeight) then GridPixel(i, width, height) else old(colorBuffer[i])
    {
      if colorBuffer == null {
        return;
      }
      var n := width * height;
      var i := 0;
      while i < n
        invariant 0 <= i <= n
        invariant forall k :: 0 <= k < i ==>
          colorBuffer[k] == if OnGrid(k, width, cellWidth, cellHeight) then GridPixel(k, width, height) else old(colorBuffer[k])
        invariant forall k :: i <= k < n ==> colorBuffer[k] == old(colorBuffer[k])
      {
        if OnGrid(i, width, cellWidth, cellHeight) {
          colorBuffer[i] := GridPixel(i, width, height);
        }
        i := i + 1;
      }
    }

    /**
      `draw_rect`: fills exactly the pixels in columns x .. min(x + w, width)
      and rows y .. min(y + h, height), and nothing when there is no buffer.
    */
    method DrawRect(x: int, y: int, w: int, h: int, color: Color)
      requires Valid() && x >= 0 && y >= 0
      modifies colorBuffer
      ensures colorBuffer != null ==> forall i :: 0 <= i < colorBuffer.Length ==>
        colorBuffer[i] == if InRect(i, width, x, Min(x + w, width), y, Min(y + h, height)) then color else old(colorBuffer[i])
    {
      if colorBuffer == null {
        return;
      }
      var right := Min(x + w, width);
      var bottom := Min(y + h, height);
      var u := x;
      while u < right
        invariant x <= u && (u == x || u <= right)
        invariant forall k :: 0 <= k < colorBuffer.Length ==>
          colorBuffer[k] == if InRect(k, width, x, u, y, bottom) then color else old(colorBuffer[k])
      {
        FillColumn(u, y, bottom, color, x, old(colorBuffer[..]));
        u := u + 1;
      }
    }

    /** One column of `draw_rect`: rows y .. bottom of column u. */
    method FillColumn(u: int, y: int, bottom: int, color: Color, ghost x: int, ghost before: seq<Color>)
      requires Valid() && colorBuffer != null && 0 <= x <= u < width && 0 <= y && bottom <= height
      requires |before| == colorBuffer.Length
      requires forall k :: 0 <= k < colorBuffer.Length ==>
        colorBuffer[k] == if InRect(k, width, x, u, y, bottom) then color else before[k]
      modifies colorBuffer
      ensures forall k :: 0 <= k < colorBuffer.Length ==>
        colorBuffer[k] == if InRect(k, width, x, u + 1, y, bottom) then color else before[k]
    {
      var v := y;
      while v < bottom
        invariant y <= v && (v == y || v <= bottom)
        invariant forall k :: 0 <= k < colorBuffer.Length ==>
          colorBuffer[k] == if InRect(k, width, x, u, y, bottom) || (k % width == u && y <= k / width < v) then color else before[k]
      {
        var j := v * width + u;
        IndexInBounds(u, v, width, height);
        IndexCoordinates(u, v, width);
        colorBuffer[j] := color;
        forall k | 0 <= k < colorBuffer.Length && k % width == u && k / width == v
          ensures k == j
        {
          SameCell(k, j, width);
        }
        v := v + 1;
      }
    }

    /** `clear_color_buffer`: every pixel gets the colour, except every tenth row and column, and nothing when there is no buffer. */
    method ClearColorBuffer(color: Color)
      requires Valid()
      modifies colorBuffer
      ensures colorBuffer != null ==> forall i :: 0 <= i < colorBuffer.Length ==>
        colorBuffer[i] == ClearedPixel(i, width, color)
    {
      if colorBuffer == null {
        return;
      }
      var n := width * height;
      var i := 0;
      while i < n
        invariant 0 <= i <= n
        invariant forall k :: 0 <= k < i ==> colorBuffer[k] == ClearedPixel(k, width, color)
      {
        colorBuffer[i] := color;
        if (i % width) % 10 == 0 || (i / width) % 10 == 0 {
          colorBuffer[i] := ClearLineColor;
        }
        i := i + 1;
      }
    }
  }
}
