/**
 * Normalized cross-correlation of a template against an equally sized patch
 * of an RGBA image, scored on BT.601 luma (src/core/templateMatch.js, `ncc`).
 *
 * The score is modelled over reals. `Math.sqrt` is a parameter `sqrt`; the
 * lemmas that need its meaning require `IsSqrt(sqrt)`.
 */
module Correlation {

  /** `sqrt` applied to v. Proofs go through this function so that every application of `sqrt` is the same term. */
  function Root(sqrt: real -> real, v: real): real
  {
    sqrt(v)
  }

  /** One 8-bit channel sample of a `Uint8ClampedArray`. */
  newtype Byte = x: int | 0 <= x < 256

  /** The value returned for an empty or flat comparison, and the cut-off below which the denominator counts as flat. */
  const FLAT_SCORE: real := 0.0
  const MIN_DENOMINATOR: real := 0.000001

  /** `sqrt` is the non-negative square root on the non-negative reals. */
  ghost predicate IsSqrt(sqrt: real -> real)
  {
    forall v: real {:trigger sqrt(v)} :: 0.0 <= v ==> 0.0 <= sqrt(v) && sqrt(v) * sqrt(v) == v
  }

  /** Offset of the red byte of pixel (x, y) in a row-major RGBA buffer `w` pixels wide. */
  function PixelIndex(w: int, x: int, y: int): int
  {
    (y * w + x) * 4
  }

  /** Channel k (0 = R, 1 = G, 2 = B) of pixel (x, y); 0 outside the buffer. */
  function Channel(d: seq<Byte>, w: int, x: int, y: int, k: int): real
  {
    var i := PixelIndex(w, x, y) + k;
    if 0 <= i < |d| then d[i] as int as real else 0.0
  }

  /** BT.601 luma of pixel (x, y). Byte 3 of the pixel (alpha) is never read. */
  function PixelLuma(d: seq<Byte>, w: int, x: int, y: int): real
  {
    Channel(d, w, x, y, 0) * 0.299 + Channel(d, w, x, y, 1) * 0.587 + Channel(d, w, x, y, 2) * 0.114
  }

  /** Lumas of row y of a patch pw pixels wide starting at column px. */
  function RowLumas(d: seq<Byte>, w: int, px: int, y: int, pw: nat): (s: seq<real>)
    ensures |s| == pw
  {
    seq(pw, c => PixelLuma(d, w, px + c, y))
  }

  /** Lumas of the pw-by-ph patch whose top-left pixel is (px, py), row-major. */
  function PatchLumas(d: seq<Byte>, w: int, px: int, py: int, pw: nat, ph: nat): (s: seq<real>)
    ensures |s| == pw * ph
  {
    if ph == 0 then [] else PatchLumas(d, w, px, py, pw, ph - 1) + RowLumas(d, w, px, py + ph - 1, pw)
  }

  function Sum(s: seq<real>): real
  {
    if s == [] then 0.0 else Sum(s[..|s| - 1]) + s[|s| - 1]
  }

  /** Sum of pairwise products. */
  function Dot(a: seq<real>, b: seq<real>): real
    requires |a| == |b|
  {
    if a == [] then 0.0 else Dot(a[..|a| - 1], b[..|b| - 1]) + a[|a| - 1] * b[|b| - 1]
  }

  function Mean(s: seq<real>): real
    requires |s| > 0
  {
    Sum(s) / (|s| as real)
  }

  /** Each sample minus the mean of all samples. */
  function Deviations(s: seq<real>): (r: seq<real>)
    ensures |r| == |s|
  {
    seq(|s|, i requires 0 <= i < |s| => s[i] - Mean(s))
  }

  /** The final step of `ncc`: the cross term over the root of the energies, or flat. */
  function ScoreOf(num: real, denImg: real, denTpl: real, sqrt: real -> real): real
  {
    var den := Root(sqrt, denImg * denTpl);
    if den < MIN_DENOMINATOR then FLAT_SCORE else num / den
  }

  /**
   * The NCC of two equally long luma sequences, with the flat-denominator policy.
   * For empty sequences every sum is 0, so the result is FLAT_SCORE whatever `sqrt(0)` is.
   */
  function NccOfLumas(li: seq<real>, lt: seq<real>, sqrt: real -> real): real
    requires |li| == |lt|
  {
    var di := Deviations(li);
    var dt := Deviations(lt);
    ScoreOf(Dot(di, dt), Dot(di, di), Dot(dt, dt), sqrt)
  }

  /** The score `ncc` computes for the template placed with its top-left pixel at (px, py). */
  function NccScore(img: seq<Byte>, imgW: int, px: int, py: int,
                    tpl: seq<Byte>, tplW: nat, tplH: nat, sqrt: real -> real): real
  {
    NccOfLumas(PatchLumas(img, imgW, px, py, tplW, tplH), PatchLumas(tpl, tplW, 0, 0, tplW, tplH), sqrt)
  }

  /** The lumas `ncc` computes inline from the raw bytes at offset i. */
  function LumaAt(d: seq<Byte>, i: int): real
    requires 0 <= i && i + 2 < |d|
  {
    d[i] as int as real * 0.299 + d[i + 1] as int as real * 0.587 + d[i + 2] as int as real * 0.114
  }

  /** The patch lies inside the image buffer and the template buffer holds tplW * tplH pixels. */
  predicate PatchInside(imgData: seq<Byte>, imgW: int, patchX: int, patchY: int,
                        tplData: seq<Byte>, tplW: nat, tplH: nat)
  {
    && 0 <= patchX && patchX + tplW <= imgW && 0 <= patchY
    && (patchY + tplH) * imgW * 4 <= |imgData|
    && tplH * tplW * 4 <= |tplData|
  }

  /** Each sample minus m. */
  function Centered(s: seq<real>, m: real): (r: seq<real>)
    ensures |r| == |s|
  {
    seq(|s|, i requires 0 <= i < |s| => s[i] - m)
  }

  /**
   * `ncc`: two passes over the tplW-by-tplH patch, the first accumulating the luma sums,
   * the second the centred products. Every caller clamps the offset so that the patch lies
   * inside the image.
   */
  method Ncc(imgData: seq<Byte>, imgW: int, patchX: int, patchY: int,
             tplData: seq<Byte>, tplW: nat, tplH: nat, sqrt: real -> real) returns (score: real)
    requires PatchInside(imgData, imgW, patchX, patchY, tplData, tplW, tplH)
    ensures score == NccScore(imgData, imgW, patchX, patchY, tplData, tplW, tplH, sqrt)
  {
    ghost var li := PatchLumas(imgData, imgW, patchX, patchY, tplW, tplH);
    ghost var lt := PatchLumas(tplData, tplW, 0, 0, tplW, tplH);
    var sumImg, sumTpl, count := SumPass(imgData, imgW, patchX, patchY, tplData, tplW, tplH);
    // The source divides by count unconditionally; with an empty template the mean is NaN
    // there but is never read, as the second pass does not run.
    var meanImg := if count == 0 then 0.0 else sumImg / count as real;
    var meanTpl := if count == 0 then 0.0 else sumTpl / count as real;
    assert Centered(li, meanImg) == Deviations(li) && Centered(lt, meanTpl) == Deviations(lt) by {
      assert |lt| == |li| == count;
      CenteredOnMean(li, meanImg);
      CenteredOnMean(lt, meanTpl);
    }
    var num, denImg, denTpl := CrossPass(imgData, imgW, patchX, patchY, tplData, tplW, tplH, meanImg, meanTpl);
    score := ScoreOf(num, denImg, denTpl, sqrt);
  }

  /** Centring on the mean gives the deviations. */
  lemma CenteredOnMean(s: seq<real>, m: real)
    requires |s| > 0 ==> m == Sum(s) / |s| as real
    ensures Centered(s, m) == Deviations(s)
  {
    if |s| > 0 {
      assert m == Mean(s);
      assert forall i | 0 <= i < |s| :: Centered(s, m)[i] == Deviations(s)[i];
    }
  }

  /** The first pass of `ncc`: the luma sums and the pixel count. */
  method SumPass(imgData: seq<Byte>, imgW: int, patchX: int, patchY: int,
                 tplData: seq<Byte>, tplW: nat, tplH: nat)
    returns (sumImg: real, sumTpl: real, count: int)
    requires PatchInside(imgData, imgW, patchX, patchY, tplData, tplW, tplH)
    ensures count == |PatchLumas(imgData, imgW, patchX, patchY, tplW, tplH)|
    ensures sumImg == Sum(PatchLumas(imgData, imgW, patchX, patchY, tplW, tplH))
    ensures sumTpl == Sum(PatchLumas(tplData, tplW, 0, 0, tplW, tplH))
  {
    sumImg, sumTpl, count := 0.0, 0.0, 0;
    var r := 0;
    while r < tplH
      invariant 0 <= r <= tplH
      invariant count == |PatchLumas(imgData, imgW, patchX, patchY, tplW, r)|
      invariant sumImg == Sum(PatchLumas(imgData, imgW, patchX, patchY, tplW, r))
      invariant sumTpl == Sum(PatchLumas(tplData, tplW, 0, 0, tplW, r))
    {
      sumImg, sumTpl, count := SumRow(imgData, imgW, patchX, patchY, tplData, tplW, tplH, r, sumImg, sumTpl, count);
      r := r + 1;
    }
  }

  /** Row r of the first pass, continuing the sums and count of rows 0 .. r-1. */
  method SumRow(imgData: seq<Byte>, imgW: int, patchX: int, patchY: int,
                tplData: seq<Byte>, tplW: nat, tplH: nat, r: nat,
                sumImg0: real, sumTpl0: real, count0: int)
    returns (sumImg: real, sumTpl: real, count: int)
    requires PatchInside(imgData, imgW, patchX, patchY, tplData, tplW, tplH) && r < tplH
    requires count0 == |PatchLumas(imgData, imgW, patchX, patchY, tplW, r)|
    requires sumImg0 == Sum(PatchLumas(imgData, imgW, patchX, patchY, tplW, r))
    requires sumTpl0 == Sum(PatchLumas(tplData, tplW, 0, 0, tplW, r))
    ensures count == |PatchLumas(imgData, imgW, patchX, patchY, tplW, r + 1)|
    ensures sumImg == Sum(PatchLumas(imgData, imgW, patchX, patchY, tplW, r + 1))
    ensures sumTpl == Sum(PatchLumas(tplData, tplW, 0, 0, tplW, r + 1))
  {
    ghost var doneImg := PatchLumas(imgData, imgW, patchX, patchY, tplW, r);
    ghost var doneTpl := PatchLumas(tplData, tplW, 0, 0, tplW, r);
    ghost var rowImg := RowLumas(imgData, imgW, patchX, patchY + r, tplW);
    ghost var rowTpl := RowLumas(tplData, tplW, 0, 0 + r, tplW);
    sumImg, sumTpl, count := sumImg0, sumTpl0, count0;
    var c := 0;
    assert doneImg + rowImg[..c] == doneImg && doneTpl + rowTpl[..c] == doneTpl;
    while c < tplW
      invariant 0 <= c <= tplW
      invariant count == |doneImg| + c
      invariant sumImg == Sum(doneImg + rowImg[..c]) && sumTpl == Sum(doneTpl + rowTpl[..c])
    {
      var imgGray, tplGray := LumaOfPatch(imgData, imgW, patchX, patchY, tplData, tplW, tplH, r, c);
      SumPush(doneImg, rowImg, c);
      SumPush(doneTpl, rowTpl, c);
      sumImg := sumImg + imgGray;
      sumTpl := sumTpl + tplGray;
      count := count + 1;
      c := c + 1;
    }
    assert rowImg[..c] == rowImg && rowTpl[..c] == rowTpl;
    PatchLumasNext(imgData, imgW, patchX, patchY, tplW, r);
    PatchLumasNext(tplData, tplW, 0, 0, tplW, r);
  }

  /** The patch of r + 1 rows is the patch of r rows followed by row r. */
  lemma PatchLumasNext(d: seq<Byte>, w: int, px: int, py: int, pw: nat, r: nat)
    ensures PatchLumas(d, w, px, py, pw, r + 1) == PatchLumas(d, w, px, py, pw, r) + RowLumas(d, w, px, py + r, pw)
  {
  }

  /** The second pass of `ncc`: the centred cross product and the two energies. */
  method CrossPass(imgData: seq<Byte>, imgW: int, patchX: int, patchY: int,
                   tplData: seq<Byte>, tplW: nat, tplH: nat, meanImg: real, meanTpl: real)
    returns (num: real, denImg: real, denTpl: real)
    requires PatchInside(imgData, imgW, patchX, patchY, tplData, tplW, tplH)
    ensures var di := Centered(PatchLumas(imgData, imgW, patchX, patchY, tplW, tplH), meanImg);
            var dt := Centered(PatchLumas(tplData, tplW, 0, 0, tplW, tplH), meanTpl);
            num == Dot(di, dt) && denImg == Dot(di, di) && denTpl == Dot(dt, dt)
  {
    num, denImg, denTpl := 0.0, 0.0, 0.0;
    var r := 0;
    while r < tplH
      invariant 0 <= r <= tplH
      invariant var di := Centered(PatchLumas(imgData, imgW, patchX, patchY, tplW, r), meanImg);
                var dt := Centered(PatchLumas(tplData, tplW, 0, 0, tplW, r), meanTpl);
                num == Dot(di, dt) && denImg == Dot(di, di) && denTpl == Dot(dt, dt)
    {
      num, denImg, denTpl := CrossRow(imgData, imgW, patchX, patchY, tplData, tplW, tplH, meanImg, meanTpl, r,
                                      num, denImg, denTpl);
      r := r + 1;
    }
  }

  /** Row r of the second pass, continuing the three accumulators of rows 0 .. r-1. */
  method CrossRow(imgData: seq<Byte>, imgW: int, patchX: int, patchY: int,
                  tplData: seq<Byte>, tplW: nat, tplH: nat, meanImg: real, meanTpl: real, r: nat,
                  num0: real, denImg0: real, denTpl0: real)
    returns (num: real, denImg: real, denTpl: real)
    requires PatchInside(imgData, imgW, patchX, patchY, tplData, tplW, tplH) && r < tplH
    requires var di := Centered(PatchLumas(imgData, imgW, patchX, patchY, tplW, r), meanImg);
             var dt := Centered(PatchLumas(tplData, tplW, 0, 0, tplW, r), meanTpl);
             num0 == Dot(di, dt) && denImg0 == Dot(di, di) && denTpl0 == Dot(dt, dt)
    ensures var di := Centered(PatchLumas(imgData, imgW, patchX, patchY, tplW, r + 1), meanImg);
            var dt := Centered(PatchLumas(tplData, tplW, 0, 0, tplW, r + 1), meanTpl);
            num == Dot(di, dt) && denImg == Dot(di, di) && denTpl == Dot(dt, dt)
  {
    ghost var doneImg := PatchLumas(imgData, imgW, patchX, patchY, tplW, r);
    ghost var doneTpl := PatchLumas(tplData, tplW, 0, 0, tplW, r);
    ghost var rowImg := RowLumas(imgData, imgW, patchX, patchY + r, tplW);
    ghost var rowTpl := RowLumas(tplData, tplW, 0, 0 + r, tplW);
    num, denImg, denTpl := num0, denImg0, denTpl0;
    var c := 0;
    assert doneImg + rowImg[..c] == doneImg && doneTpl + rowTpl[..c] == doneTpl;
    while c < tplW
      invariant 0 <= c <= tplW
      invariant var di := Centered(doneImg + rowImg[..c], meanImg);
                var dt := Centered(doneTpl + rowTpl[..c], meanTpl);
                num == Dot(di, dt) && denImg == Dot(di, di) && denTpl == Dot(dt, dt)
    {
      var imgGray, tplGray := LumaOfPatch(imgData, imgW, patchX, patchY, tplData, tplW, tplH, r, c);
      var dImg := imgGray - meanImg;
      var dTpl := tplGray - meanTpl;
      DotPush(doneImg, rowImg, meanImg, doneTpl, rowTpl, meanTpl, c, dImg, dTpl);
      num := num + dImg * dTpl;
      denImg := denImg + dImg * dImg;
      denTpl := denTpl + dTpl * dTpl;
      c := c + 1;
    }
    assert rowImg[..c] == rowImg && rowTpl[..c] == rowTpl;
    PatchLumasNext(imgData, imgW, patchX, patchY, tplW, r);
    PatchLumasNext(tplData, tplW, 0, 0, tplW, r);
  }

  /** Pushing the next row element onto the scanned prefix adds it to the sum. */
  lemma SumPush(done: seq<real>, row: seq<real>, c: int)
    requires 0 <= c < |row|
    ensures Sum(done + row[..c + 1]) == Sum(done + row[..c]) + row[c]
  {
    assert (done + row[..c + 1])[..|done| + c] == done + row[..c];
  }

  /**
   * Pushing the next pair of row elements onto the scanned prefixes extends the three dot
   * products by the products of the centred values x and y.
   */
  lemma DotPush(doneA: seq<real>, rowA: seq<real>, ma: real, doneB: seq<real>, rowB: seq<real>, mb: real,
                c: int, x: real, y: real)
    requires |doneA| == |doneB| && |rowA| == |rowB| && 0 <= c < |rowA|
    requires x == rowA[c] - ma && y == rowB[c] - mb
    ensures var a, a' := Centered(doneA + rowA[..c], ma), Centered(doneA + rowA[..c + 1], ma);
            var b, b' := Centered(doneB + rowB[..c], mb), Centered(doneB + rowB[..c + 1], mb);
            && Dot(a', b') == Dot(a, b) + x * y
            && Dot(a', a') == Dot(a, a) + x * x
            && Dot(b', b') == Dot(b, b) + y * y
  {
    var a, a' := Centered(doneA + rowA[..c], ma), Centered(doneA + rowA[..c + 1], ma);
    var b, b' := Centered(doneB + rowB[..c], mb), Centered(doneB + rowB[..c + 1], mb);
    var n := |doneA| + c;
    assert a'[..n] == a;
    assert b'[..n] == b;
    DotLastAt(a', b', n, x, y);
    DotLastAt(a', a', n, x, x);
    DotLastAt(b', b', n, y, y);
  }

  /** The two lumas of cell (r, c), read from the raw buffers as `ncc` indexes them. */
  method LumaOfPatch(imgData: seq<Byte>, imgW: int, patchX: int, patchY: int,
                     tplData: seq<Byte>, tplW: nat, tplH: nat, r: int, c: int)
    returns (imgGray: real, tplGray: real)
    requires PatchInside(imgData, imgW, patchX, patchY, tplData, tplW, tplH)
    requires 0 <= r < tplH && 0 <= c < tplW
    ensures imgGray == RowLumas(imgData, imgW, patchX, patchY + r, tplW)[c]
    ensures tplGray == RowLumas(tplData, tplW, 0, 0 + r, tplW)[c]
  {
    var ii := ((patchY + r) * imgW + (patchX + c)) * 4;
    var ti := (r * tplW + c) * 4;
    PixelInRows(imgW, patchX + c, patchY, r, tplH);
    PixelInRows(tplW, c, 0, r, tplH);
    assert (0 + tplH) * tplW * 4 == tplH * tplW * 4;
    imgGray := LumaAt(imgData, ii);
    tplGray := LumaAt(tplData, ti);
    assert PixelIndex(imgW, patchX + c, patchY + r) == ii;
    assert PixelIndex(tplW, 0 + c, 0 + r) == ti;
    assert imgGray == PixelLuma(imgData, imgW, patchX + c, patchY + r);
    assert tplGray == PixelLuma(tplData, tplW, 0 + c, 0 + r);
  }

  // ---------------------------------------------------------------------------
  // Index arithmetic

  lemma MulMono(a: int, b: int, w: int)
    requires a <= b && 0 <= w
    ensures a * w <= b * w
  {
    assert b * w - a * w == (b - a) * w;
  }

  /** Every byte of an in-patch pixel lies in a buffer of (py + h) full rows. */
  lemma PixelInRows(w: int, x: int, py: int, r: int, h: int)
    requires 0 <= x < w && 0 <= py && 0 <= r < h
    ensures 0 <= PixelIndex(w, x, py + r) && PixelIndex(w, x, py + r) + 3 < (py + h) * w * 4
  {
    MulMono(py + r + 1, py + h, w);
    assert 0 <= (py + r) * w;
  }

  // ---------------------------------------------------------------------------
  // Sums

  /** A sequence of n copies of c sums to n * c. */
  lemma {:induction false} SumConstant(s: seq<real>, c: real)
    requires forall i :: 0 <= i < |s| ==> s[i] == c
    ensures Sum(s) == (|s| as real) * c
  {
    if s != [] {
      SumConstant(s[..|s| - 1], c);
    }
  }

  lemma {:induction false} DotZeroLeft(a: seq<real>, b: seq<real>)
    requires |a| == |b|
    requires forall i :: 0 <= i < |a| ==> a[i] == 0.0
    ensures Dot(a, b) == 0.0
  {
    if a != [] {
      DotZeroLeft(a[..|a| - 1], b[..|b| - 1]);
    }
  }

  lemma DotSymmetric(a: seq<real>, b: seq<real>)
    requires |a| == |b|
    ensures Dot(a, b) == Dot(b, a)
  {
    if a != [] {
      DotSymmetric(a[..|a| - 1], b[..|b| - 1]);
    }
  }

  lemma {:induction false} DotSelfNonNegative(a: seq<real>)
    ensures Dot(a, a) >= 0.0
  {
    if a != [] {
      DotSelfNonNegative(a[..|a| - 1]);
      var x := a[|a| - 1];
      assert x * x >= 0.0;
    }
  }

  // ---------------------------------------------------------------------------
  // Cauchy-Schwarz: num^2 <= denImg * denTpl

  /** Dot of non-empty sequences: the prefix plus the last product. */
  lemma DotLast(a: seq<real>, b: seq<real>, n: nat)
    requires |a| == |b| == n + 1
    ensures Dot(a, b) == Dot(a[..n], b[..n]) + a[n] * b[n]
  {
    DotLastAt(a, b, n, a[n], b[n]);
  }

  /** DotLast with the last elements named by the caller. */
  lemma DotLastAt(a: seq<real>, b: seq<real>, n: nat, x: real, y: real)
    requires |a| == |b| == n + 1 && x == a[n] && y == b[n]
    ensures Dot(a, b) == Dot(a[..n], b[..n]) + x * y
  {
  }

  /** For aa, bb >= 0 and ab^2 <= aa*bb the form bb*x^2 - 2*ab*x*y + aa*y^2 is non-negative. */
  lemma FormNonNegative(aa: real, bb: real, ab: real, x: real, y: real)
    requires 0.0 <= aa && 0.0 <= bb && ab * ab <= aa * bb
    ensures 2.0 * ab * (x * y) <= aa * (y * y) + bb * (x * x)
  {
    var q := aa * (y * y) + bb * (x * x) - 2.0 * ab * (x * y);
    if aa == 0.0 {
      assert ab * ab <= 0.0 * 0.0;
      SquareBound(ab, 0.0);
      assert ab == 0.0;
      assert 2.0 * ab == 0.0;
      assert 2.0 * ab * (x * y) == 0.0 * (x * y) == 0.0;
      assert aa * (y * y) == 0.0 * (y * y) == 0.0;
      ProductNonNegative(bb, x * x);
    } else {
      var u := aa * y - ab * x;
      var g := aa * bb - ab * ab;
      assert aa * q == u * u + g * (x * x);
      ProductNonNegative(g, x * x);
      assert 0.0 <= aa * q;
    }
  }

  /** Cauchy-Schwarz is preserved when one pair (x, y) is appended. */
  lemma CauchySchwarzStep(aa: real, bb: real, ab: real, x: real, y: real)
    requires 0.0 <= aa && 0.0 <= bb && ab * ab <= aa * bb
    ensures (ab + x * y) * (ab + x * y) <= (aa + x * x) * (bb + y * y)
  {
    FormNonNegative(aa, bb, ab, x, y);
  }

  lemma {:induction false} CauchySchwarz(a: seq<real>, b: seq<real>)
    requires |a| == |b|
    ensures Dot(a, b) * Dot(a, b) <= Dot(a, a) * Dot(b, b)
  {
    if a != [] {
      var n := |a| - 1;
      CauchySchwarz(a[..n], b[..n]);
      DotSelfNonNegative(a[..n]);
      DotSelfNonNegative(b[..n]);
      DotLast(a, a, n);
      DotLast(a, b, n);
      DotLast(b, b, n);
      CauchySchwarzStep(Dot(a[..n], a[..n]), Dot(b[..n], b[..n]), Dot(a[..n], b[..n]), a[n], b[n]);
    }
  }

  // ---------------------------------------------------------------------------
  // Properties of the score

  /** With a true square root, the final step of `ncc` lies in [-1, 1] once num^2 <= denImg * denTpl. */
  lemma ScoreOfInRange(num: real, denImg: real, denTpl: real, sqrt: real -> real)
    requires IsSqrt(sqrt)
    requires 0.0 <= denImg && 0.0 <= denTpl && num * num <= denImg * denTpl
    ensures -1.0 <= ScoreOf(num, denImg, denTpl, sqrt) <= 1.0
  {
    var p := denImg * denTpl;
    ProductNonNegative(denImg, denTpl);
    var den := Root(sqrt, p);
    assert 0.0 <= den && den * den == p;
    if MIN_DENOMINATOR <= den {
      SquareBound(num, den);
      DivBound(num, den);
    }
  }

  /** Every NCC score lies in [-1, 1]. */
  lemma NccInRange(li: seq<real>, lt: seq<real>, sqrt: real -> real)
    requires IsSqrt(sqrt) && |li| == |lt|
    ensures -1.0 <= NccOfLumas(li, lt, sqrt) <= 1.0
  {
    var num, ei, et := NccParts(li, lt, sqrt);
    ScoreOfInRange(num, ei, et, sqrt);
  }

  /** The score's cross term and energies satisfy Cauchy-Schwarz. */
  lemma NccParts(li: seq<real>, lt: seq<real>, sqrt: real -> real) returns (num: real, ei: real, et: real)
    requires |li| == |lt|
    ensures NccOfLumas(li, lt, sqrt) == ScoreOf(num, ei, et, sqrt)
    ensures 0.0 <= ei && 0.0 <= et && num * num <= ei * et
  {
    var di, dt := Deviations(li), Deviations(lt);
    num, ei, et := Dot(di, dt), Dot(di, di), Dot(dt, dt);
    DotSelfNonNegative(di);
    DotSelfNonNegative(dt);
    CauchySchwarz(di, dt);
  }

  /**
   * A template scored against a patch with the same lumas gives 1, unless its energy is below
   * the flat cut-off, where it gives FLAT_SCORE.
   */
  lemma NccSelf(l: seq<real>, sqrt: real -> real)
    requires IsSqrt(sqrt)
    ensures var e := Dot(Deviations(l), Deviations(l));
            NccOfLumas(l, l, sqrt) == if e < MIN_DENOMINATOR then FLAT_SCORE else 1.0
  {
    var d := Deviations(l);
    var e := Dot(d, d);
    DotSelfNonNegative(d);
    RootOfSquare(sqrt, e);
    ScoreOfSelf(e, sqrt);
  }

  lemma RootOfSquare(sqrt: real -> real, e: real)
    requires IsSqrt(sqrt) && 0.0 <= e
    ensures Root(sqrt, e * e) == e
  {
    ProductNonNegative(e, e);
    var den := Root(sqrt, e * e);
    assert 0.0 <= den && den * den == e * e;
    SquareRootUnique(den, e);
  }

  lemma ScoreOfSelf(e: real, sqrt: real -> real)
    requires Root(sqrt, e * e) == e
    ensures ScoreOf(e, e, e, sqrt) == if e < MIN_DENOMINATOR then FLAT_SCORE else 1.0
  {
    if MIN_DENOMINATOR <= e {
      assert ScoreOf(e, e, e, sqrt) == e / e;
    }
  }

  /** A sequence all of whose entries are v has no deviation from its mean. */
  lemma ConstantDeviations(s: seq<real>, v: real)
    requires forall i | 0 <= i < |s| :: s[i] == v
    ensures forall i | 0 <= i < |s| :: Deviations(s)[i] == 0.0
  {
    if |s| > 0 {
      SumConstant(s, v);
      assert Mean(s) == v;
    }
  }

  /** `sqrt(0)` is 0. */
  lemma SqrtZero(sqrt: real -> real)
    requires IsSqrt(sqrt)
    ensures Root(sqrt, 0.0) == 0.0
  {
    var z := Root(sqrt, 0.0);
    assert z * z <= 0.0 * 0.0;
    SquareBound(z, 0.0);
  }

  /** A flat image patch (every luma equal) scores FLAT_SCORE against any template. */
  lemma NccFlatPatch(li: seq<real>, lt: seq<real>, v: real, sqrt: real -> real)
    requires IsSqrt(sqrt) && |li| == |lt|
    requires forall i | 0 <= i < |li| :: li[i] == v
    ensures NccOfLumas(li, lt, sqrt) == FLAT_SCORE
  {
    var di, dt := Deviations(li), Deviations(lt);
    ConstantDeviations(li, v);
    DotZeroLeft(di, di);
    assert Dot(di, di) * Dot(dt, dt) == 0.0;
    SqrtZero(sqrt);
  }

  /** A flat template (every luma equal) scores FLAT_SCORE against any patch. */
  lemma NccFlatTemplate(li: seq<real>, lt: seq<real>, v: real, sqrt: real -> real)
    requires IsSqrt(sqrt) && |li| == |lt|
    requires forall i | 0 <= i < |lt| :: lt[i] == v
    ensures NccOfLumas(li, lt, sqrt) == FLAT_SCORE
  {
    var di, dt := Deviations(li), Deviations(lt);
    ConstantDeviations(lt, v);
    DotZeroLeft(dt, dt);
    assert Dot(di, di) * Dot(dt, dt) == 0.0;
    SqrtZero(sqrt);
  }

  // ---------------------------------------------------------------------------
  // The score on images

  /** Luma of cell (r, c) of the patch whose top-left pixel is (px, py). */
  function PatchPixel(d: seq<Byte>, w: int, px: int, py: int, r: int, c: int): real
  {
    PixelLuma(d, w, px + c, py + r)
  }

  /** Two pw-by-ph patches, possibly of different buffers, have the same lumas cell by cell. */
  predicate SameLumas(d: seq<Byte>, w: int, px: int, py: int, d2: seq<Byte>, w2: int, px2: int, py2: int, pw: nat, ph: nat)
  {
    forall r, c | 0 <= r < ph && 0 <= c < pw :: PatchPixel(d, w, px, py, r, c) == PatchPixel(d2, w2, px2, py2, r, c)
  }

  lemma {:induction false} PatchLumasEqual(d: seq<Byte>, w: int, px: int, py: int,
                                           d2: seq<Byte>, w2: int, px2: int, py2: int, pw: nat, ph: nat)
    requires SameLumas(d, w, px, py, d2, w2, px2, py2, pw, ph)
    ensures PatchLumas(d, w, px, py, pw, ph) == PatchLumas(d2, w2, px2, py2, pw, ph)
  {
    if ph > 0 {
      PatchLumasEqual(d, w, px, py, d2, w2, px2, py2, pw, ph - 1);
      var r := ph - 1;
      var row, row2 := RowLumas(d, w, px, py + r, pw), RowLumas(d2, w2, px2, py2 + r, pw);
      forall c | 0 <= c < pw
        ensures row[c] == row2[c]
      {
        assert row[c] == PatchPixel(d, w, px, py, r, c);
        assert row2[c] == PatchPixel(d2, w2, px2, py2, r, c);
      }
      assert row == row2;
    }
  }

  /** Every luma of a patch whose cells all have luma v is v. */
  lemma {:induction false} PatchLumasConstant(d: seq<Byte>, w: int, px: int, py: int, pw: nat, ph: nat, v: real)
    requires forall r, c | 0 <= r < ph && 0 <= c < pw :: PatchPixel(d, w, px, py, r, c) == v
    ensures forall i | 0 <= i < |PatchLumas(d, w, px, py, pw, ph)| :: PatchLumas(d, w, px, py, pw, ph)[i] == v
  {
    if ph > 0 {
      PatchLumasConstant(d, w, px, py, pw, ph - 1, v);
      var r := ph - 1;
      var done, row := PatchLumas(d, w, px, py, pw, r), RowLumas(d, w, px, py + r, pw);
      forall c | 0 <= c < pw
        ensures row[c] == v
      {
        assert row[c] == PatchPixel(d, w, px, py, r, c);
      }
      forall i | 0 <= i < |done + row|
        ensures (done + row)[i] == v
      {
        if i >= |done| {
          assert (done + row)[i] == row[i - |done|];
        }
      }
      assert PatchLumas(d, w, px, py, pw, ph) == done + row;
    }
  }

  /** Every score `ncc` returns lies in [-1, 1]. */
  lemma NccScoreInRange(img: seq<Byte>, imgW: int, px: int, py: int,
                        tpl: seq<Byte>, tplW: nat, tplH: nat, sqrt: real -> real)
    requires IsSqrt(sqrt)
    ensures -1.0 <= NccScore(img, imgW, px, py, tpl, tplW, tplH, sqrt) <= 1.0
  {
    NccInRange(PatchLumas(img, imgW, px, py, tplW, tplH), PatchLumas(tpl, tplW, 0, 0, tplW, tplH), sqrt);
  }

  /** A patch with the template's lumas scores 1, unless the template is flat. */
  lemma NccScoreSelf(img: seq<Byte>, imgW: int, px: int, py: int,
                     tpl: seq<Byte>, tplW: nat, tplH: nat, sqrt: real -> real)
    requires IsSqrt(sqrt)
    requires SameLumas(img, imgW, px, py, tpl, tplW, 0, 0, tplW, tplH)
    ensures var lt := PatchLumas(tpl, tplW, 0, 0, tplW, tplH);
            var e := Dot(Deviations(lt), Deviations(lt));
            NccScore(img, imgW, px, py, tpl, tplW, tplH, sqrt) == if e < MIN_DENOMINATOR then FLAT_SCORE else 1.0
  {
    PatchLumasEqual(img, imgW, px, py, tpl, tplW, 0, 0, tplW, tplH);
    NccSelf(PatchLumas(tpl, tplW, 0, 0, tplW, tplH), sqrt);
  }

  /** A patch whose cells all have the same luma scores FLAT_SCORE: `ncc` never divides there. */
  lemma NccScoreUniformPatch(img: seq<Byte>, imgW: int, px: int, py: int,
                             tpl: seq<Byte>, tplW: nat, tplH: nat, sqrt: real -> real, v: real)
    requires IsSqrt(sqrt)
    requires forall r, c | 0 <= r < tplH && 0 <= c < tplW :: PatchPixel(img, imgW, px, py, r, c) == v
    ensures NccScore(img, imgW, px, py, tpl, tplW, tplH, sqrt) == FLAT_SCORE
  {
    PatchLumasConstant(img, imgW, px, py, tplW, tplH, v);
    NccFlatPatch(PatchLumas(img, imgW, px, py, tplW, tplH), PatchLumas(tpl, tplW, 0, 0, tplW, tplH), v, sqrt);
  }

  /** A template whose cells all have the same luma scores FLAT_SCORE everywhere. */
  lemma NccScoreUniformTemplate(img: seq<Byte>, imgW: int, px: int, py: int,
                                tpl: seq<Byte>, tplW: nat, tplH: nat, sqrt: real -> real, v: real)
    requires IsSqrt(sqrt)
    requires forall r, c | 0 <= r < tplH && 0 <= c < tplW :: PatchPixel(tpl, tplW, 0, 0, r, c) == v
    ensures NccScore(img, imgW, px, py, tpl, tplW, tplH, sqrt) == FLAT_SCORE
  {
    PatchLumasConstant(tpl, tplW, 0, 0, tplW, tplH, v);
    NccFlatTemplate(PatchLumas(img, imgW, px, py, tplW, tplH), PatchLumas(tpl, tplW, 0, 0, tplW, tplH), v, sqrt);
  }

  /** Two buffers that differ at most in alpha bytes (every fourth byte from 3). */
  predicate SameRgb(d: seq<Byte>, d2: seq<Byte>)
  {
    |d| == |d2| && forall i | 0 <= i < |d| && i % 4 != 3 :: d[i] == d2[i]
  }

  /** Alpha never affects the luma of a pixel. */
  lemma LumaIgnoresAlpha(d: seq<Byte>, d2: seq<Byte>, w: int, x: int, y: int)
    requires SameRgb(d, d2)
    ensures PixelLuma(d, w, x, y) == PixelLuma(d2, w, x, y)
  {
    var b := PixelIndex(w, x, y);
    assert b % 4 == 0;
    assert (b + 1) % 4 == 1 && (b + 2) % 4 == 2;
  }

  /** The alpha bytes of the image and of the template never affect the score. */
  lemma NccIgnoresAlpha(img: seq<Byte>, img2: seq<Byte>, imgW: int, px: int, py: int,
                        tpl: seq<Byte>, tpl2: seq<Byte>, tplW: nat, tplH: nat, sqrt: real -> real)
    requires SameRgb(img, img2) && SameRgb(tpl, tpl2)
    ensures NccScore(img, imgW, px, py, tpl, tplW, tplH, sqrt) == NccScore(img2, imgW, px, py, tpl2, tplW, tplH, sqrt)
  {
    forall r, c | 0 <= r < tplH && 0 <= c < tplW
      ensures PatchPixel(img, imgW, px, py, r, c) == PatchPixel(img2, imgW, px, py, r, c)
      ensures PatchPixel(tpl, tplW, 0, 0, r, c) == PatchPixel(tpl2, tplW, 0, 0, r, c)
    {
      LumaIgnoresAlpha(img, img2, imgW, px + c, py + r);
      LumaIgnoresAlpha(tpl, tpl2, tplW, 0 + c, 0 + r);
    }
    PatchLumasEqual(img, imgW, px, py, img2, imgW, px, py, tplW, tplH);
    PatchLumasEqual(tpl, tplW, 0, 0, tpl2, tplW, 0, 0, tplW, tplH);
  }

  // ---------------------------------------------------------------------------
  // Facts about reals used with `sqrt`

  /** Squaring is monotone on the non-negative reals. */
  lemma SquareMonotone(a: real, b: real)
    requires 0.0 <= a && 0.0 <= b && a * a <= b * b
    ensures a <= b
  {
    if a + b > 0.0 {
      assert (b - a) * (a + b) == b * b - a * a;
      assert (b - a) * (a + b) >= 0.0;
      var q := (b - a) * (a + b) / (a + b);
      assert q == b - a;
      assert q >= 0.0;
    }
  }

  lemma SquareBound(u: real, v: real)
    requires 0.0 <= v && u * u <= v * v
    ensures -v <= u <= v
  {
    if u >= 0.0 {
      SquareMonotone(u, v);
    } else {
      assert (-u) * (-u) == u * u;
      SquareMonotone(-u, v);
    }
  }

  lemma DivBound(num: real, den: real)
    requires 0.0 < den && -den <= num <= den
    ensures -1.0 <= num / den <= 1.0
  {
    assert num / den <= den / den;
    assert -den / den <= num / den;
  }

  lemma SquareRootUnique(u: real, v: real)
    requires 0.0 <= u && 0.0 <= v && u * u == v * v
    ensures u == v
  {
    SquareMonotone(u, v);
    SquareMonotone(v, u);
  }

  lemma ProductNonNegative(u: real, v: real)
    requires 0.0 <= u && 0.0 <= v
    ensures 0.0 <= u * v
  {
  }
}
