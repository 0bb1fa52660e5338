/** Contrast normalisation and inverted binarisation of a corrected
    greyscale image: a 256-bin histogram over the intensity range
    `[35, 255]`, its cumulative sum divided by the total pixel count, a
    lookup indexed by raw intensity, then `THRESH_BINARY_INV` against one
    per-image threshold. */
module HistogramNormalizer {

  /** One `uint8` grey level. */
  type Byte = x: int | 0 <= x < 256

  /** The histogram range `(35, 255)` and its 256 bins. */
  const RangeLow: int := 35
  const RangeHigh: int := 255
  const BinCount: nat := 256

  /** Rows of grey levels, all rows of one non-zero length. */
  predicate IsImage(img: seq<seq<Byte>>)
  {
    |img| > 0 && |img[0]| > 0 && forall r :: 0 <= r < |img| ==> |img[r]| == |img[0]|
  }

  /** Two images with the same rows and columns. */
  predicate SameShape<A, B>(a: seq<seq<A>>, b: seq<seq<B>>)
  {
    |a| == |b| && forall r :: 0 <= r < |a| ==> |a[r]| == |b[r]|
  }

  /** All pixels of an image, row after row. */
  function Flatten(img: seq<seq<Byte>>): (px: seq<Byte>)
    ensures IsImage(img) ==> |px| == |img| * |img[0]|
  {
    if img == [] then []
    else
      var init := img[..|img| - 1];
      assert IsImage(img) && |img| > 1 ==> IsImage(init) && init[0] == img[0];
      Flatten(init) + img[|img| - 1]
  }

  /** The number of pixels `rows * columns`. */
  function PixelCount(img: seq<seq<Byte>>): nat
    requires IsImage(img)
  {
    |img| * |img[0]|
  }

  /** The left edge of bin `k`: bins are `220/256 = 55/64` wide from 35. */
  function Edge(k: int): real
  {
    RangeLow as real + (k as real) * 55.0 / 64.0
  }

  /** The bin a counted grey level falls in; the right edge 255 belongs to
      the last bin. */
  function BinOf(v: Byte): (b: nat)
    requires RangeLow <= v
    ensures b < BinCount
    ensures Edge(b) <= v as real
    ensures v as real < Edge(b + 1) || b == BinCount - 1
    ensures b <= v
  {
    if v == RangeHigh then BinCount - 1
    else
      var b := (v - RangeLow) * 64 / 55;
      BinEdges(v - RangeLow, b);
      b
  }

  /** `b = floor(d * 64 / 55)` puts `35 + d` between edges `b` and `b + 1`. */
  lemma BinEdges(d: int, b: int)
    requires 0 <= d < 220
    requires b == d * 64 / 55
    ensures 0 <= b < 256 && b <= d + RangeLow
    ensures Edge(b) <= (d + RangeLow) as real < Edge(b + 1)
  {
    assert 55 * b <= d * 64 < 55 * (b + 1);
    assert (b as real) * 55.0 <= (d as real) * 64.0 < ((b + 1) as real) * 55.0;
  }

  /** Pixels counted in bin `k`; pixels below 35 lie outside the range. */
  function CountInBin(px: seq<Byte>, k: int): (c: nat)
    ensures c <= |px|
  {
    if px == [] then 0
    else
      var last := px[|px| - 1];
      CountInBin(px[..|px| - 1], k) + (if RangeLow <= last && BinOf(last) == k then 1 else 0)
  }

  /** Pixels counted in bins `0..k`: the specification of the cumulative
      histogram at `k`. */
  function CountUpTo(px: seq<Byte>, k: int): (c: nat)
    ensures c <= |px|
  {
    if px == [] then 0
    else
      var last := px[|px| - 1];
      CountUpTo(px[..|px| - 1], k) + (if RangeLow <= last && BinOf(last) <= k then 1 else 0)
  }

  /** `np.histogram(px, bins=256, range=(35, 255))`. */
  function Histogram(px: seq<Byte>): (h: seq<nat>)
    ensures |h| == BinCount
  {
    seq(BinCount, k => CountInBin(px, k))
  }

  function Total(h: seq<nat>): nat
  {
    if h == [] then 0 else Total(h[..|h| - 1]) + h[|h| - 1]
  }

  /** `np.cumsum(h)`. */
  function CumSum(h: seq<nat>): (c: seq<nat>)
    ensures |c| == |h|
  {
    if h == [] then [] else CumSum(h[..|h| - 1]) + [Total(h)]
  }

  lemma {:induction false} CumSumAt(h: seq<nat>, k: nat)
    requires k < |h|
    ensures CumSum(h)[k] == Total(h[..k + 1])
  {
    if k < |h| - 1 {
      CumSumAt(h[..|h| - 1], k);
      assert h[..|h| - 1][..k + 1] == h[..k + 1];
    } else {
      assert h[..k + 1] == h;
    }
  }

  /** Counting up to bin `k` adds bin `k` to the count up to bin `k - 1`. */
  lemma {:induction false} CountUpToStep(px: seq<Byte>, k: int)
    ensures CountUpTo(px, k) == CountUpTo(px, k - 1) + CountInBin(px, k)
  {
    if px != [] {
      CountUpToStep(px[..|px| - 1], k);
    }
  }

  /** No counted pixel lies below bin 0. */
  lemma {:induction false} CountUpToNegative(px: seq<Byte>, k: int)
    requires k < 0
    ensures CountUpTo(px, k) == 0
  {
    if px != [] {
      CountUpToNegative(px[..|px| - 1], k);
    }
  }

  /** The cumulative histogram at `k` counts the pixels in bins `0..k`. */
  lemma {:induction false} CumulativeHistogram(px: seq<Byte>, k: nat)
    requires k < BinCount
    ensures CumSum(Histogram(px))[k] == CountUpTo(px, k)
  {
    CumSumAt(Histogram(px), k);
    HistogramPrefix(px, k + 1);
  }

  lemma {:induction false} HistogramPrefix(px: seq<Byte>, j: nat)
    requires j <= BinCount
    ensures Total(Histogram(px)[..j]) == CountUpTo(px, j - 1)
  {
    var h := Histogram(px);
    if j == 0 {
      assert h[..0] == [];
      CountUpToNegative(px, -1);
    } else {
      HistogramPrefix(px, j - 1);
      assert h[..j][..j - 1] == h[..j - 1];
      CountUpToStep(px, j - 1);
    }
  }

  /** More bins count at least as many pixels. */
  lemma {:induction false} CountUpToMonotone(px: seq<Byte>, j: int, k: int)
    requires j <= k
    ensures CountUpTo(px, j) <= CountUpTo(px, k)
  {
    if px != [] {
      CountUpToMonotone(px[..|px| - 1], j, k);
    }
  }

  /** Up to the last bin every pixel of at least 35 is counted. */
  lemma {:induction false} CountUpToLastBin(px: seq<Byte>)
    requires forall i :: 0 <= i < |px| ==> RangeLow <= px[i]
    ensures CountUpTo(px, BinCount - 1) == |px|
  {
    if px != [] {
      CountUpToLastBin(px[..|px| - 1]);
    }
  }

  /** `floor(255 * c / n)` for a count `c` out of `n` pixels. */
  function Level(c: nat, n: nat): (v: Byte)
    requires 0 < n && c <= n
    ensures c == n ==> v == 255
    ensures c == 0 ==> v == 0
  {
    LevelBound(c, n);
    255 * c / n
  }

  lemma LevelBound(c: nat, n: nat)
    requires 0 < n && c <= n
    ensures 0 <= 255 * c / n <= 255
    ensures c == n ==> 255 * c / n == 255
    ensures c == 0 ==> 255 * c / n == 0
  {
    var q := 255 * c / n;
    DivFacts(255 * c, n);
    if q > 255 {
      MulLeq(256, q, n);
      assert false;
    }
    if c == n {
      assert 255 * c == 255 * n + 0;
      DivUnique(255 * c, n, 255);
    }
  }

  /** The quotient `x / n` of Dafny's division, bounded by its divisor. */
  lemma DivFacts(x: nat, n: nat)
    requires 0 < n
    ensures 0 <= x / n
    ensures (x / n) * n <= x < (x / n) * n + n
  {
  }

  lemma DivUnique(x: nat, n: nat, q: nat)
    requires 0 < n
    requires q * n == x
    ensures x / n == q
  {
    DivFacts(x, n);
    if x / n < q {
      MulLeq(x / n + 1, q, n);
      assert false;
    } else if x / n > q {
      MulLeq(q + 1, x / n, n);
      assert false;
    }
  }

  lemma MulLeq(a: nat, b: nat, n: nat)
    requires a <= b
    ensures a * n <= b * n
  {
  }

  /** A larger count never gives a lower level. */
  lemma LevelMonotone(c: nat, d: nat, n: nat)
    requires 0 < n && c <= d <= n
    ensures Level(c, n) <= Level(d, n)
  {
    var x, y := 255 * c, 255 * d;
    MulLeq(c, d, 255);
    assert x <= y;
    QuotientMonotone(x, y, n);
    assert Level(c, n) == x / n && Level(d, n) == y / n;
  }

  lemma QuotientMonotone(x: nat, y: nat, n: nat)
    requires 0 < n && x <= y
    ensures x / n <= y / n
  {
    var p, q := x / n, y / n;
    DivFacts(x, n);
    DivFacts(y, n);
    if q < p {
      MulLeq(q + 1, p, n);
      assert false;
    }
  }

  /** The lookup table `255 * cumsum(hist) / N`, indexed by raw intensity. */
  function LookupTable(px: seq<Byte>, n: nat): (lut: seq<Byte>)
    requires |px| == n > 0
    ensures |lut| == BinCount
    ensures forall v :: 0 <= v < BinCount ==> lut[v] == Level(CountUpTo(px, v), n)
  {
    var cum := CumSum(Histogram(px));
    forall v | 0 <= v < BinCount
      ensures cum[v] == CountUpTo(px, v)
    {
      CumulativeHistogram(px, v);
    }
    seq(BinCount, v requires 0 <= v < BinCount => Level(cum[v], n))
  }

  /** Lines 44-49: the normalised image, each pixel replaced by the share
      of all pixels counted up to the bin numbered by its raw intensity. */
  function Normalize(img: seq<seq<Byte>>): (out: seq<seq<Byte>>)
    requires IsImage(img)
    ensures SameShape(img, out)
    ensures forall r, c :: 0 <= r < |img| && 0 <= c < |img[r]| ==>
              out[r][c] == Level(CountUpTo(Flatten(img), img[r][c]), PixelCount(img))
  {
    var lut := LookupTable(Flatten(img), PixelCount(img));
    seq(|img|, r requires 0 <= r < |img| =>
      seq(|img[r]|, c requires 0 <= c < |img[r]| => lut[img[r][c]]))
  }

  /** A brighter input pixel never becomes darker. */
  lemma NormalizeMonotone(img: seq<seq<Byte>>, r: nat, c: nat, r': nat, c': nat)
    requires IsImage(img)
    requires r < |img| && c < |img[r]| && r' < |img| && c' < |img[r']|
    requires img[r][c] <= img[r'][c']
    ensures Normalize(img)[r][c] <= Normalize(img)[r'][c']
  {
    var px := Flatten(img);
    CountUpToMonotone(px, img[r][c], img[r'][c']);
    LevelMonotone(CountUpTo(px, img[r][c]), CountUpTo(px, img[r'][c']), PixelCount(img));
  }

  /** When no pixel lies below 35, the brightest pixel maps to 255: its
      raw intensity is at least its own bin, hence every bin. */
  lemma BrightestMapsToTop(img: seq<seq<Byte>>, r: nat, c: nat)
    requires IsImage(img)
    requires forall i, j :: 0 <= i < |img| && 0 <= j < |img[i]| ==> RangeLow <= img[i][j]
    requires r < |img| && c < |img[r]|
    requires forall i, j :: 0 <= i < |img| && 0 <= j < |img[i]| ==> img[i][j] <= img[r][c]
    ensures Normalize(img)[r][c] == 255
  {
    var px := Flatten(img);
    var top := img[r][c];
    assert forall i :: 0 <= i < |px| ==> RangeLow <= px[i] <= top by {
      FlattenBounds(img, RangeLow, top);
    }
    CountUpToAll(px, top);
  }

  /** Every pixel of the flattened image comes from some row. */
  lemma {:induction false} FlattenBounds(img: seq<seq<Byte>>, lo: int, hi: int)
    requires forall i, j :: 0 <= i < |img| && 0 <= j < |img[i]| ==> lo <= img[i][j] <= hi
    ensures forall k :: 0 <= k < |Flatten(img)| ==> lo <= Flatten(img)[k] <= hi
  {
    if img != [] {
      FlattenBounds(img[..|img| - 1], lo, hi);
    }
  }

  /** Pixels within `[35, top]` all fall in bins up to `top`. */
  lemma {:induction false} CountUpToAll(px: seq<Byte>, top: Byte)
    requires forall i :: 0 <= i < |px| ==> RangeLow <= px[i] <= top
    ensures CountUpTo(px, top) == |px|
  {
    if px != [] {
      CountUpToAll(px[..|px| - 1], top);
    }
  }

  /** The bin index is not the intensity: in the image `[[60, 65]]`
      intensity 60 lies in bin 29 and 65 in bin 34, so the lookup at intensity 60 already
      counts both pixels and both map to 255. */
  lemma IndexIsIntensityNotBin()
    ensures BinOf(60) == 29 && BinOf(65) == 34
    ensures Normalize([[60, 65]]) == [[255, 255]]
  {
    var img: seq<seq<Byte>> := [[60, 65]];
    var px: seq<Byte> := [60, 65];
    assert Flatten(img) == px by {
      assert img[..0] == [];
    }
    assert px[..1] == [60] && px[..1][..0] == [];
    assert CountUpTo(px, 60) == 2 && CountUpTo(px, 65) == 2;
    var out := Normalize(img);
    assert out[0][0] == 255 && out[0][1] == 255;
    assert out[0] == [255, 255];
    assert out == [out[0]];
  }

  /** Pixels below 35 are not counted but still count in the total, so
      `[[0, 200]]` maps to `[[0, 127]]`: nothing reaches 255. */
  lemma DarkPixelsDilute()
    ensures Normalize([[0, 200]]) == [[0, 127]]
  {
    var img: seq<seq<Byte>> := [[0, 200]];
    var px: seq<Byte> := [0, 200];
    assert Flatten(img) == px by {
      assert img[..0] == [];
    }
    assert px[..1] == [0] && px[..1][..0] == [];
    assert BinOf(200) == 192;
    assert CountUpTo(px, 0) == 0 && CountUpTo(px, 200) == 1;
    var out := Normalize(img);
    assert out[0][0] == 0 && out[0][1] == 127;
    assert out[0] == [0, 127];
    assert out == [out[0]];
  }

  /** Lines 52-55: `THRESH_BINARY_INV` marks a pixel as foreground when its
      value does not exceed the threshold (Otsu's choice, a parameter here). */
  function Binarize(norm: seq<seq<Byte>>, thresh: int): (bin: seq<seq<bool>>)
    ensures SameShape(norm, bin)
    ensures forall r, c :: 0 <= r < |norm| && 0 <= c < |norm[r]| ==>
              (bin[r][c] <==> norm[r][c] <= thresh)
  {
    seq(|norm|, r requires 0 <= r < |norm| =>
      seq(|norm[r]|, c requires 0 <= c < |norm[r]| => norm[r][c] <= thresh))
  }

  /** A higher threshold keeps every foreground pixel. */
  lemma BinarizeMonotone(norm: seq<seq<Byte>>, t: int, t': int, r: nat, c: nat)
    requires t <= t'
    requires r < |norm| && c < |norm[r]|
    requires Binarize(norm, t)[r][c]
    ensures Binarize(norm, t')[r][c]
  {
  }

  /** The foreground of the normalised image is closed downwards in raw
      intensity: a pixel no brighter than a foreground pixel is foreground. */
  lemma ForegroundDownClosed(img: seq<seq<Byte>>, t: int, r: nat, c: nat, r': nat, c': nat)
    requires IsImage(img)
    requires r < |img| && c < |img[r]| && r' < |img| && c' < |img[r']|
    requires img[r][c] <= img[r'][c']
    requires Binarize(Normalize(img), t)[r'][c']
    ensures Binarize(Normalize(img), t)[r][c]
  {
    NormalizeMonotone(img, r, c, r', c');
  }
}
