/**
 Six horizontal colour bars (`fbdev.c`, `bitmap_utils.c`). At 16 bits per pixel the framebuffer
 program stores two pixels with one 32-bit word; words are little-endian.
 */
module ColorBars {
  import opened MachineWords

  const BANDS := 6
  const COLOR16: seq<u32> := [0x1F, 0x7E0, 0xF800, 0xF81F, 0xFFE0, 0x7FF]
  const COLOR32: seq<u32> := [0x000000FF, 0x0000FF00, 0x00FF0000, 0x00FF00FF, 0x00FFFF00, 0x0000FFFF]

  datatype Depth = Bpp16 | Bpp32

  /** The word that paints band `b`. */
  function Word(d: Depth, b: nat): u32
    requires b < BANDS
  {
    if d.Bpp16? then COLOR16[b] * 0x1_0000 + COLOR16[b] else COLOR32[b]
  }

  /** Words per row, as the program computes it. */
  function RowWords(d: Depth, w: nat): nat {
    if d.Bpp16? then w / 2 else w
  }

  function BitsPerPixel(d: Depth): nat {
    if d.Bpp16? then 16 else 32
  }

  /** The size of the mapping in bytes, as the program computes it. */
  function MappingSize(d: Depth, w: nat, h: nat): nat {
    h * w * BitsPerPixel(d) / 8
  }

  /** The stores of a whole screen lie inside the mapping. */
  lemma ScreenInsideMapping(d: Depth, w: nat, h: nat)
    ensures 4 * (h * RowWords(d, w)) <= MappingSize(d, w, h)
    ensures 4 * (h * RowWords(d, w)) == MappingSize(d, w, h) <==> d.Bpp32? || w % 2 == 0 || h == 0
  {
    var x := RowWords(d, w);
    if d.Bpp16? {
      assert h * w == 2 * (h * x) + h * (w % 2);
      assert MappingSize(d, w, h) == 2 * (h * w);
    } else {
      assert MappingSize(d, w, h) == 4 * (h * w);
    }
  }

  /** Word `k` lies inside the mapping. */
  predicate Mapped(d: Depth, w: nat, h: nat, k: nat) {
    4 * k + 4 <= MappingSize(d, w, h)
  }

  lemma StoresInsideMapping(d: Depth, w: nat, h: nat)
    ensures forall k :: k in Iota(h * RowWords(d, w)) ==> Mapped(d, w, h, k)
  {
    ScreenInsideMapping(d, w, h);
  }

  /** The band of row `y` of `h`. */
  function Band(y: nat, h: nat): (b: nat)
    requires y < h
    ensures b < BANDS
  {
    BandBelowSix(y, h);
    BANDS * y / h
  }

  lemma BandBelowSix(y: nat, h: nat)
    requires y < h
    ensures 0 <= BANDS * y / h < BANDS
  {
    QuotientBounds(BANDS * y, h, 0);
    QuotientBounds(BANDS * y, h, BANDS);
  }

  lemma QuotientBounds(n: nat, d: nat, q: nat)
    requires 0 < d
    ensures n / d >= q <==> q * d <= n
  {
    var k := n / d;
    assert n == d * k + n % d;
    if k >= q {
      assert q * d <= k * d;
    } else {
      assert (k + 1) * d <= q * d;
    }
  }

  // ----- the picture, row by row -----

  function Repeat(v: u32, n: nat): (r: seq<u32>)
    ensures |r| == n && forall k :: 0 <= k < n ==> r[k] == v
  {
    seq(n, _ => v)
  }

  /** The first `rows` rows of the picture, `xsize` words each. */
  function Rows(d: Depth, h: nat, xsize: nat, rows: nat): seq<u32>
    requires rows <= h
  {
    if rows == 0 then []
    else Rows(d, h, xsize, rows - 1) + Repeat(Word(d, Band(rows - 1, h)), xsize)
  }

  lemma {:induction false} RowsLength(d: Depth, h: nat, xsize: nat, rows: nat)
    requires rows <= h
    ensures |Rows(d, h, xsize, rows)| == rows * xsize
  {
    if rows > 0 {
      RowsLength(d, h, xsize, rows - 1);
      assert (rows - 1) * xsize + xsize == rows * xsize;
    }
  }

  lemma {:induction false} RowInside(d: Depth, h: nat, xsize: nat, i: nat, rows: nat)
    requires i < rows <= h
    ensures |Rows(d, h, xsize, i)| + xsize == |Rows(d, h, xsize, i + 1)| <= |Rows(d, h, xsize, rows)|
    decreases rows
  {
    if i + 1 < rows {
      RowInside(d, h, xsize, i, rows - 1);
    }
  }

  /** Each word of the picture has the colour of its row's band. */
  lemma {:induction false} RowsAt(d: Depth, h: nat, xsize: nat, rows: nat, y: nat, j: nat)
    requires y < rows <= h && j < xsize
    ensures y * xsize + j < |Rows(d, h, xsize, rows)|
    ensures Rows(d, h, xsize, rows)[y * xsize + j] == Word(d, Band(y, h))
    decreases rows
  {
    var before, row := Rows(d, h, xsize, rows - 1), Repeat(Word(d, Band(rows - 1, h)), xsize);
    assert Rows(d, h, xsize, rows) == before + row;
    RowsLength(d, h, xsize, rows - 1);
    if y < rows - 1 {
      RowsAt(d, h, xsize, rows - 1, y, j);
    } else {
      assert |before| == y * xsize;
      assert (before + row)[|before| + j] == row[j];
    }
  }

  /** 0, 1, ..., n - 1. */
  function Iota(n: nat): (r: seq<nat>)
    ensures |r| == n && forall k :: 0 <= k < n ==> r[k] == k
  {
    seq(n, k => k)
  }

  // ----- the drawing loops -----

  /** The first loop of `fbdev.c`, on the whole words of the mapping (a last half word is never stored);
      `stores` lists the words written, in order. */
  method DrawBars(mem: array<u32>, d: Depth, w: nat, h: nat) returns (ghost stores: seq<nat>, words: nat)
    requires MappingSize(d, w, h) / 4 <= mem.Length
    modifies mem
    ensures words == h * RowWords(d, w) <= mem.Length
    ensures mem[..] == Rows(d, h, RowWords(d, w), h) + old(mem[..])[words..]
    ensures stores == Iota(words) && forall k :: k in stores ==> Mapped(d, w, h, k)
  {
    ScreenInsideMapping(d, w, h);
    StoresInsideMapping(d, w, h);
    var xsize := if d.Bpp16? then w / 2 else w;
    RowsLength(d, h, xsize, h);
    stores, words := DrawRows(mem, d, xsize, h);
  }

  /** Its rows, `xsize` words each. */
  method DrawRows(mem: array<u32>, d: Depth, xsize: nat, h: nat) returns (ghost stores: seq<nat>, words: nat)
    requires |Rows(d, h, xsize, h)| <= mem.Length
    modifies mem
    ensures words == |Rows(d, h, xsize, h)| && Painted(d, h, xsize, h, old(mem[..]), mem[..])
    ensures stores == Iota(words)
  {
    stores, words := [], 0;
    var i := 0;
    while i < h
      invariant Painted(d, h, xsize, i, old(mem[..]), mem[..]) && words == |Rows(d, h, xsize, i)|
      invariant stores == Iota(words)
    {
      ghost var now := mem[..];
      RowInside(d, h, xsize, i, h);
      stores := DrawRow(mem, words, xsize, Word(d, Band(i, h)), stores);
      PaintsRow(d, h, xsize, i, old(mem[..]), now, mem[..], words);
      i, words := i + 1, words + xsize;
    }
  }

  /** `words` are the first `rows` rows of the picture, and what the memory held before behind them. */
  predicate Painted(d: Depth, h: nat, xsize: nat, rows: nat, was: seq<u32>, words: seq<u32>) {
    rows <= h && |Rows(d, h, xsize, rows)| <= |was|
    && words == Rows(d, h, xsize, rows) + was[|Rows(d, h, xsize, rows)|..]
  }

  /** Row `i` written behind the first `i` rows. */
  lemma PaintsRow(d: Depth, h: nat, xsize: nat, i: nat, was: seq<u32>, now: seq<u32>, next: seq<u32>, start: nat)
    requires i < h && Painted(d, h, xsize, i, was, now) && start == |Rows(d, h, xsize, i)|
    requires start + xsize <= |was| && start + xsize <= |now|
    requires next == now[..start] + Repeat(Word(d, Band(i, h)), xsize) + now[start + xsize..]
    ensures Painted(d, h, xsize, i + 1, was, next)
  {
    AppendRow(was, now, next, Rows(d, h, xsize, i), Repeat(Word(d, Band(i, h)), xsize));
  }

  /** Writing `row` behind a finished part makes the finished part longer by it. */
  lemma AppendRow(was: seq<u32>, now: seq<u32>, next: seq<u32>, done: seq<u32>, row: seq<u32>)
    requires |done| + |row| <= |was|
    requires now == done + was[|done|..]
    requires next == now[..|done|] + row + now[|done| + |row|..]
    ensures next == done + row + was[|done| + |row|..]
  {
    assert now[..|done|] == done && now[|done| + |row|..] == was[|done| + |row|..];
  }

  /** One row: `xsize` words from `start` on. */
  method DrawRow(mem: array<u32>, start: nat, xsize: nat, color: u32, ghost before: seq<nat>)
      returns (ghost stores: seq<nat>)
    requires start + xsize <= mem.Length && before == Iota(start)
    modifies mem
    ensures mem[..] == old(mem[..])[..start] + Repeat(color, xsize) + old(mem[..])[start + xsize..]
    ensures stores == Iota(start + xsize)
  {
    stores := before;
    for j := 0 to xsize
      invariant mem[..start] == old(mem[..])[..start]
      invariant mem[start..start + j] == Repeat(color, j)
      invariant mem[start + j..] == old(mem[..])[start + j..]
      invariant stores == Iota(start + j)
    {
      mem[start + j] := color;
      stores := stores + [start + j];
    }
    assert mem[..] == mem[..start] + mem[start..start + xsize] + mem[start + xsize..];
  }

  /** One fill of the second loop of `fbdev.c`, which runs through the six colours. */
  method FillScreen(mem: array<u32>, d: Depth, w: nat, h: nat, b: nat) returns (ghost stores: seq<nat>, words: nat)
    requires MappingSize(d, w, h) / 4 <= mem.Length && b < BANDS
    modifies mem
    ensures words == h * RowWords(d, w) <= mem.Length
    ensures mem[..] == Repeat(Word(d, b), words) + old(mem[..])[words..]
    ensures forall k :: 0 <= k < words ==> mem[k] == if d.Bpp16? then 65537 * COLOR16[b] else COLOR32[b]
    ensures stores == Iota(words) && forall k :: k in stores ==> Mapped(d, w, h, k)
  {
    ScreenInsideMapping(d, w, h);
    StoresInsideMapping(d, w, h);
    words := h * RowWords(d, w);
    stores := DrawRow(mem, 0, words, Word(d, b), []);
    assert mem[..] == Repeat(Word(d, b), words) + old(mem[..])[words..];
  }

  /** `draw_test_image` of the display clients. */
  method DrawTestImage(dst: array<u32>, w: nat, h: nat)
    requires h * w <= dst.Length
    modifies dst
    ensures dst[..] == Rows(Bpp32, h, w, h) + old(dst[..])[h * w..]
  {
    RowsLength(Bpp32, h, w, h);
    var i, start := 0, 0;
    while i < h
      invariant Painted(Bpp32, h, w, i, old(dst[..]), dst[..]) && start == |Rows(Bpp32, h, w, i)|
    {
      ghost var now := dst[..];
      RowInside(Bpp32, h, w, i, h);
      ghost var stores := DrawRow(dst, start, w, COLOR32[Band(i, h)], Iota(start));
      PaintsRow(Bpp32, h, w, i, old(dst[..]), now, dst[..], start);
      i, start := i + 1, start + w;
    }
  }

  /** At 32 bits per pixel every pixel of the picture shows the colour of its row's band, at any width. */
  lemma Pixel32(w: nat, h: nat, mem: seq<u32>, x: nat, y: nat)
    requires MappingSize(Bpp32, w, h) / 4 <= |mem| && x < w && y < h
    ensures y * w + x < |mem| && Drawn(Bpp32, w, h, mem)[y * w + x] == COLOR32[Band(y, h)]
  {
    ScreenInsideMapping(Bpp32, w, h);
    RowsLength(Bpp32, h, w, h);
    RowsAt(Bpp32, h, w, h, y, x);
  }

  // ----- 16-bit pixels -----

  /** The memory after the first loop, from what it held before. */
  function Drawn(d: Depth, w: nat, h: nat, mem: seq<u32>): (r: seq<u32>)
    requires MappingSize(d, w, h) / 4 <= |mem|
    ensures |r| == |mem|
  {
    ScreenInsideMapping(d, w, h);
    RowsLength(d, h, RowWords(d, w), h);
    Rows(d, h, RowWords(d, w), h) + mem[h * RowWords(d, w)..]
  }

  /** The `k`-th 16-bit pixel of a word array. */
  function HalfWord(mem: seq<u32>, k: nat): u32
    requires k / 2 < |mem|
  {
    if k % 2 == 0 then mem[k / 2] % 0x1_0000 else mem[k / 2] / 0x1_0000
  }

  /** Every 16-bit pixel of the `w` by `h` screen shows the colour of its row's band. */
  predicate PixelsRight(mem: seq<u32>, w: nat, h: nat)
    requires MappingSize(Bpp16, w, h) <= 4 * |mem|
  {
    forall x: nat, y: nat {:trigger PixelRight(mem, w, h, x, y)} :: x < w && y < h ==> PixelRight(mem, w, h, x, y)
  }

  predicate PixelRight(mem: seq<u32>, w: nat, h: nat, x: nat, y: nat)
    requires MappingSize(Bpp16, w, h) <= 4 * |mem| && x < w && y < h
  {
    PixelInside(w, h, x, y);
    HalfWord(mem, y * w + x) == COLOR16[Band(y, h)]
  }

  lemma PixelInside(w: nat, h: nat, x: nat, y: nat)
    requires x < w && y < h
    ensures 0 <= y * w + x && 2 * (y * w + x) < MappingSize(Bpp16, w, h)
  {
    PixelBefore(w, h, x, y);
    PixelBytes(w, h);
  }

  lemma PixelBefore(w: nat, h: nat, x: nat, y: nat)
    requires x < w && y < h
    ensures 0 <= y * w + x < w * h
  {
    assert (y + 1) * w <= h * w;
  }

  lemma PixelBytes(w: nat, h: nat)
    ensures MappingSize(Bpp16, w, h) == 2 * (w * h)
  {
    var n := h * w;
    assert n * 16 / 8 == 2 * n;
  }

  lemma EvenRows(w: nat, h: nat, x: nat, y: nat)
    requires w % 2 == 0 && x < w
    ensures (y * w + x) / 2 == y * (w / 2) + x / 2 && (y * w + x) % 2 == x % 2
  {
    var half := w / 2;
    assert y * w == 2 * (y * half);
  }

  lemma EvenWidthPixel(w: nat, h: nat, mem: seq<u32>, x: nat, y: nat)
    requires w % 2 == 0 && MappingSize(Bpp16, w, h) <= 4 * |mem| && x < w && y < h
    ensures PixelRight(Drawn(Bpp16, w, h, mem), w, h, x, y)
  {
    PixelInside(w, h, x, y);
    EvenRows(w, h, x, y);
    PixelWord(w, h, mem, x, y, y * (w / 2) + x / 2);
    BothHalves(Drawn(Bpp16, w, h, mem), y * w + x, Band(y, h));
  }

  /** The word a pixel is in, at an even width. */
  lemma PixelWord(w: nat, h: nat, mem: seq<u32>, x: nat, y: nat, k: nat)
    requires w % 2 == 0 && MappingSize(Bpp16, w, h) / 4 <= |mem| && x < w && y < h && k == y * (w / 2) + x / 2
    ensures k < |mem| == |Drawn(Bpp16, w, h, mem)| && Drawn(Bpp16, w, h, mem)[k] == Word(Bpp16, Band(y, h))
  {
    ScreenInsideMapping(Bpp16, w, h);
    RowsLength(Bpp16, h, w / 2, h);
    RowsAt(Bpp16, h, w / 2, h, y, x / 2);
  }

  lemma BothHalves(mem: seq<u32>, k: nat, b: nat)
    requires k / 2 < |mem| && b < BANDS && mem[k / 2] == Word(Bpp16, b)
    ensures HalfWord(mem, k) == COLOR16[b]
  {
    assert COLOR16[b] < 0x1_0000;
  }

  lemma LastPixelOutside(w: nat, h: nat)
    requires w % 2 == 1 && 0 < h
    ensures h * (w / 2) <= ((h - 1) * w + (w - 1)) / 2
  {
    var half := w / 2;
    assert (h - 1) * w + w == h * w;
    assert h * w == 2 * (h * half) + h;
  }

  /** With an odd width no row but the first starts on a word, and the last pixel is never stored. */
  lemma LastPixelUntouched(w: nat, h: nat, mem: seq<u32>)
    requires w % 2 == 1 && 0 < h && MappingSize(Bpp16, w, h) <= 4 * |mem|
    requires forall k :: 0 <= k < |mem| ==> mem[k] == 0
    ensures !PixelRight(Drawn(Bpp16, w, h, mem), w, h, w - 1, h - 1)
  {
    PixelInside(w, h, w - 1, h - 1);
    RowsLength(Bpp16, h, w / 2, h);
    var k := (h - 1) * w + (w - 1);
    LastPixelOutside(w, h);
    var out := Drawn(Bpp16, w, h, mem);
    assert out[k / 2] == mem[k / 2];
  }

  /** The packed word stores paint every pixel in the colour of its band, whatever the memory held
      before, exactly when the width is even (or there is no pixel row at all). */
  lemma PackedStoresRightWhenEven(w: nat, h: nat, size: nat)
    requires MappingSize(Bpp16, w, h) <= 4 * size
    ensures (forall mem: seq<u32> :: |mem| == size ==> PixelsRight(Drawn(Bpp16, w, h, mem), w, h))
      <==> w % 2 == 0 || h == 0
  {
    if w % 2 == 0 || h == 0 {
      forall mem: seq<u32> | |mem| == size
        ensures PixelsRight(Drawn(Bpp16, w, h, mem), w, h)
      {
        forall x: nat, y: nat | x < w && y < h
          ensures PixelRight(Drawn(Bpp16, w, h, mem), w, h, x, y)
        {
          EvenWidthPixel(w, h, mem, x, y);
        }
      }
    } else {
      var zeros := Repeat(0, size);
      LastPixelUntouched(w, h, zeros);
      assert !PixelsRight(Drawn(Bpp16, w, h, zeros), w, h);
    }
  }

  // ----- the bands -----

  /** The first row of band `b`: b * h / 6 rounded up. */
  function BandStart(b: nat, h: nat): nat {
    (b * h + 5) / 6
  }

  /** Band `b` is one run of rows; the bands cover the screen in order, and their heights differ by at
      most one row. */
  lemma BandsAreEven(h: nat, y: nat, b: nat)
    requires y < h && b < BANDS
    ensures Band(y, h) == b <==> BandStart(b, h) <= y < BandStart(b + 1, h)
    ensures BandStart(0, h) == 0 && BandStart(BANDS, h) == h
    ensures h / 6 <= BandStart(b + 1, h) - BandStart(b, h) <= (h + 5) / 6
  {
    QuotientBounds(BANDS * y, h, b);
    QuotientBounds(BANDS * y, h, b + 1);
    assert (b + 1) * h == b * h + h;
  }
}
