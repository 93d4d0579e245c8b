/**
 * Template search around the expected watermark position
 * (src/core/templateMatch.js, `findWatermark` and `refineMatch`).
 *
 * Both searches visit the top-left corners of a clamped window row by row,
 * left to right, and keep a running best. The methods mirror the source's
 * nested loops and are proved equal to the scans `GridScan` and
 * `RefineGridScan`, written as recursion over the same loop variables. The
 * lemmas below say what those scans pick: the first maximum in scan order,
 * above the threshold for the coarse search.
 */
module TemplateMatch {
  import opened Wrappers
  import opened Correlation

  /** An `ImageData`: width, height and row-major RGBA bytes. */
  datatype Image = Image(width: nat, height: nat, data: seq<Byte>)

  /** The buffer holds exactly four bytes per pixel. */
  predicate WellFormed(im: Image)
  {
    |im.data| == im.width * im.height * 4
  }

  datatype Pos = Pos(x: int, y: int)

  /** A scored candidate `{x, y, score}`. */
  datatype Match = Match(x: int, y: int, score: real)

  /** Option defaults of `findWatermark` and the default radius of `refineMatch`. */
  const DEFAULT_SEARCH_RADIUS: int := 48
  const DEFAULT_STEP: int := 2
  const DEFAULT_THRESHOLD: real := 0.7
  const DEFAULT_REFINE_RADIUS: int := 4
  /** The score `refineMatch` starts from, with the coarse position. */
  const REFINE_START_SCORE: real := -1.0

  function Max(a: int, b: int): int { if a < b then b else a }
  function Min(a: int, b: int): int { if a < b then a else b }

  /** The NCC score of the template placed with its top-left pixel at p. */
  function ScoreAt(im: Image, tpl: Image, sqrt: real -> real, p: Pos): real
  {
    NccScore(im.data, im.width, p.x, p.y, tpl.data, tpl.width, tpl.height, sqrt)
  }

  /** ScoreAt as a function value, the form the scans take. */
  function Scorer(im: Image, tpl: Image, sqrt: real -> real): Pos -> real
  {
    p => ScoreAt(im, tpl, sqrt, p)
  }

  /** The range of top-left corners a search visits: [x0, x1] by [y0, y1]. */
  datatype Window = Window(x0: int, x1: int, y0: int, y1: int)

  /** The box of half-width `radius` around `center`, clamped to the corners where the template fits in the image. */
  function SearchWindow(im: Image, tpl: Image, center: Pos, radius: int): Window
  {
    Window(Max(0, center.x - radius), Min(im.width - tpl.width, center.x + radius),
           Max(0, center.y - radius), Min(im.height - tpl.height, center.y + radius))
  }

  /** v is reached from lo in whole steps: one of lo, lo + step, lo + 2 * step, ... */
  predicate Aligned(lo: int, step: int, v: int)
    requires step > 0
    decreases if lo <= v then v - lo + 1 else 0
  {
    lo <= v && (v == lo || Aligned(lo + step, step, v))
  }

  /** p is visited by a scan of w with the given step that starts at row y. */
  predicate OnGridFrom(w: Window, y: int, step: int, p: Pos)
    requires step > 0
  {
    w.x0 <= p.x <= w.x1 && Aligned(w.x0, step, p.x) && y <= p.y <= w.y1 && Aligned(y, step, p.y)
  }

  /** p is visited by a scan of w with the given step. */
  predicate Candidate(w: Window, step: int, p: Pos)
    requires step > 0
  {
    OnGridFrom(w, w.y0, step, p)
  }

  /** p lies in w from row y on. */
  predicate InBoxFrom(w: Window, y: int, p: Pos)
  {
    w.x0 <= p.x <= w.x1 && y <= p.y <= w.y1
  }

  predicate InBox(w: Window, p: Pos)
  {
    InBoxFrom(w, w.y0, p)
  }

  /** p comes before q in scan order: an earlier row, or the same row further left. */
  predicate Before(p: Pos, q: Pos)
  {
    p.y < q.y || (p.y == q.y && p.x < q.x)
  }

  function PosOf(m: Match): Pos
  {
    Pos(m.x, m.y)
  }

  /** A candidate whose top-left corner is inside the clamped window addresses only pixels of both buffers. */
  lemma PatchFits(im: Image, tpl: Image, x: int, y: int)
    requires WellFormed(im) && WellFormed(tpl)
    requires 0 <= x <= im.width - tpl.width && 0 <= y <= im.height - tpl.height
    ensures PatchInside(im.data, im.width, x, y, tpl.data, tpl.width, tpl.height)
  {
    MulMono(y + tpl.height, im.height, im.width);
    assert tpl.height * tpl.width == tpl.width * tpl.height;
  }

  // ---------------------------------------------------------------------------
  // findWatermark

  /** One step of the coarse scan: a candidate replaces the best only if it reaches the threshold and strictly beats it. */
  function Consider(best: Option<Match>, m: Match, threshold: real): Option<Match>
  {
    if m.score >= threshold && (best.None? || m.score > best.value.score) then Some(m) else best
  }

  /** The inner loop of the coarse scan: row y from column x to x1, every `step` columns. */
  function RowScan(f: Pos -> real, threshold: real, best: Option<Match>, x: int, x1: int, y: int, step: int): Option<Match>
    requires step > 0
    decreases if x <= x1 then x1 - x + 1 else 0
  {
    if x > x1 then best
    else RowScan(f, threshold, Consider(best, Match(x, y, f(Pos(x, y))), threshold), x + step, x1, y, step)
  }

  /** The outer loop of the coarse scan: rows y, y + step, ... up to w.y1. */
  function GridScan(f: Pos -> real, threshold: real, best: Option<Match>, w: Window, y: int, step: int): Option<Match>
    requires step > 0
    decreases if y <= w.y1 then w.y1 - y + 1 else 0
  {
    if y > w.y1 then best
    else GridScan(f, threshold, RowScan(f, threshold, best, w.x0, w.x1, y, step), w, y + step, step)
  }

  /** What `findWatermark` returns: the best match as a one-element list, or the empty list. */
  function FindResult(im: Image, tpl: Image, expected: Pos, radius: int, step: int, threshold: real,
                      sqrt: real -> real): seq<Match>
    requires step > 0
  {
    var w := SearchWindow(im, tpl, expected, radius);
    var best := GridScan(Scorer(im, tpl, sqrt), threshold, None, w, w.y0, step);
    if best.Some? then [best.value] else []
  }

  method FindWatermark(im: Image, tpl: Image, expected: Pos, searchRadius: int, step: int, threshold: real,
                       sqrt: real -> real) returns (found: seq<Match>)
    requires WellFormed(im) && WellFormed(tpl)
    requires step > 0
    ensures found == FindResult(im, tpl, expected, searchRadius, step, threshold, sqrt)
  {
    var x0 := Max(0, expected.x - searchRadius);
    var y0 := Max(0, expected.y - searchRadius);
    var x1 := Min(im.width - tpl.width, expected.x + searchRadius);
    var y1 := Min(im.height - tpl.height, expected.y + searchRadius);
    ghost var f := Scorer(im, tpl, sqrt);
    ghost var w := Window(x0, x1, y0, y1);
    assert w == SearchWindow(im, tpl, expected, searchRadius);

    var best: Option<Match> := None;
    var y := y0;
    while y <= y1
      invariant y0 <= y
      invariant GridScan(f, threshold, best, w, y, step) == GridScan(f, threshold, None, w, y0, step)
      decreases if y <= y1 then y1 - y + 1 else 0
    {
      best := ScanRow(im, tpl, x0, x1, y, step, threshold, sqrt, best);
      y := y + step;
    }
    found := if best.Some? then [best.value] else [];
  }

  /** `ncc` at the corner (x, y) of a search window: the scans' score of that corner. */
  method ScoreCorner(im: Image, tpl: Image, x: int, y: int, sqrt: real -> real) returns (score: real)
    requires WellFormed(im) && WellFormed(tpl)
    requires 0 <= x <= im.width - tpl.width && 0 <= y <= im.height - tpl.height
    ensures score == Scorer(im, tpl, sqrt)(Pos(x, y))
  {
    PatchFits(im, tpl, x, y);
    score := Ncc(im.data, im.width, x, y, tpl.data, tpl.width, tpl.height, sqrt);
  }

  /** The inner loop of `findWatermark`. */
  method ScanRow(im: Image, tpl: Image, x0: int, x1: int, y: int, step: int, threshold: real, sqrt: real -> real,
                 best0: Option<Match>) returns (best: Option<Match>)
    requires WellFormed(im) && WellFormed(tpl)
    requires step > 0
    requires 0 <= x0 && x1 <= im.width - tpl.width && 0 <= y <= im.height - tpl.height
    ensures best == RowScan(Scorer(im, tpl, sqrt), threshold, best0, x0, x1, y, step)
  {
    ghost var f := Scorer(im, tpl, sqrt);
    ghost var target := RowScan(f, threshold, best0, x0, x1, y, step);
    best := best0;
    var x := x0;
    while x <= x1
      invariant x0 <= x
      invariant RowScan(f, threshold, best, x, x1, y, step) == target
      decreases if x <= x1 then x1 - x + 1 else 0
    {
      var score := ScoreCorner(im, tpl, x, y, sqrt);
      if score >= threshold && (best.None? || score > best.value.score) {
        best := Some(Match(x, y, score));
      }
      x := x + step;
    }
  }

  // ---------------------------------------------------------------------------
  // refineMatch

  /** One step of the refinement: a candidate replaces the best only if it strictly beats it. */
  function Improve(best: Match, m: Match): Match
  {
    if m.score > best.score then m else best
  }

  /** The inner loop of the refinement: row y from column x to x1. */
  function RefineRowScan(f: Pos -> real, best: Match, x: int, x1: int, y: int): Match
    decreases if x <= x1 then x1 - x + 1 else 0
  {
    if x > x1 then best else RefineRowScan(f, Improve(best, Match(x, y, f(Pos(x, y)))), x + 1, x1, y)
  }

  /** The outer loop of the refinement: rows y to w.y1. */
  function RefineGridScan(f: Pos -> real, best: Match, w: Window, y: int): Match
    decreases if y <= w.y1 then w.y1 - y + 1 else 0
  {
    if y > w.y1 then best else RefineGridScan(f, RefineRowScan(f, best, w.x0, w.x1, y), w, y + 1)
  }

  /** What `refineMatch` returns: it starts from the coarse position with score -1. */
  function RefineResult(im: Image, tpl: Image, coarse: Pos, radius: int, sqrt: real -> real): Match
  {
    var w := SearchWindow(im, tpl, coarse, radius);
    RefineGridScan(Scorer(im, tpl, sqrt), Match(coarse.x, coarse.y, REFINE_START_SCORE), w, w.y0)
  }

  method RefineMatch(im: Image, tpl: Image, coarseX: int, coarseY: int, radius: int, sqrt: real -> real)
    returns (refined: Match)
    requires WellFormed(im) && WellFormed(tpl)
    ensures refined == RefineResult(im, tpl, Pos(coarseX, coarseY), radius, sqrt)
  {
    var bestX, bestY, bestScore := coarseX, coarseY, REFINE_START_SCORE;
    var x0 := Max(0, coarseX - radius);
    var y0 := Max(0, coarseY - radius);
    var x1 := Min(im.width - tpl.width, coarseX + radius);
    var y1 := Min(im.height - tpl.height, coarseY + radius);
    ghost var f := Scorer(im, tpl, sqrt);
    ghost var w := Window(x0, x1, y0, y1);
    ghost var start := Match(coarseX, coarseY, REFINE_START_SCORE);
    assert w == SearchWindow(im, tpl, Pos(coarseX, coarseY), radius);

    var y := y0;
    while y <= y1
      invariant y0 <= y
      invariant RefineGridScan(f, Match(bestX, bestY, bestScore), w, y) == RefineGridScan(f, start, w, y0)
      decreases if y <= y1 then y1 - y + 1 else 0
    {
      bestX, bestY, bestScore := RefineRow(im, tpl, x0, x1, y, sqrt, bestX, bestY, bestScore);
      y := y + 1;
    }
    refined := Match(bestX, bestY, bestScore);
  }

  /** The inner loop of `refineMatch`. */
  method RefineRow(im: Image, tpl: Image, x0: int, x1: int, y: int, sqrt: real -> real,
                   bestX0: int, bestY0: int, bestScore0: real) returns (bestX: int, bestY: int, bestScore: real)
    requires WellFormed(im) && WellFormed(tpl)
    requires 0 <= x0 && x1 <= im.width - tpl.width && 0 <= y <= im.height - tpl.height
    ensures Match(bestX, bestY, bestScore)
         == RefineRowScan(Scorer(im, tpl, sqrt), Match(bestX0, bestY0, bestScore0), x0, x1, y)
  {
    ghost var f := Scorer(im, tpl, sqrt);
    ghost var best0 := Match(bestX0, bestY0, bestScore0);
    bestX, bestY, bestScore := bestX0, bestY0, bestScore0;
    var x := x0;
    while x <= x1
      invariant x0 <= x
      invariant RefineRowScan(f, Match(bestX, bestY, bestScore), x, x1, y) == RefineRowScan(f, best0, x0, x1, y)
      decreases if x <= x1 then x1 - x + 1 else 0
    {
      PatchFits(im, tpl, x, y);
      var score := Ncc(im.data, im.width, x, y, tpl.data, tpl.width, tpl.height, sqrt);
      assert score == f(Pos(x, y));
      if score > bestScore {
        bestScore := score;
        bestX := x;
        bestY := y;
      }
      x := x + 1;
    }
  }

  // ---------------------------------------------------------------------------
  // What the coarse scan picks

  lemma AlignedNext(lo: int, step: int, v: int)
    requires step > 0 && Aligned(lo, step, v) && lo < v
    ensures lo + step <= v && Aligned(lo + step, step, v)
  {
  }

  lemma AlignedPrev(lo: int, step: int, v: int)
    requires step > 0 && Aligned(lo + step, step, v)
    ensures Aligned(lo, step, v)
  {
  }

  /**
   * The inner loop of the coarse scan, starting from `best`, ends with `best` or with a
   * candidate of its row that reaches the threshold, beats `best` and beats every
   * candidate before it; every candidate of the row below the threshold or at most the result.
   */
  lemma {:induction false} RowScanPicks(f: Pos -> real, t: real, best: Option<Match>, x: int, x1: int, y: int, step: int)
    requires step > 0
    ensures var r := RowScan(f, t, best, x, x1, y, step);
            best.Some? ==> r.Some? && best.value.score <= r.value.score
    ensures var r := RowScan(f, t, best, x, x1, y, step);
            forall v | x <= v <= x1 && Aligned(x, step, v) :: f(Pos(v, y)) < t || (r.Some? && f(Pos(v, y)) <= r.value.score)
    ensures var r := RowScan(f, t, best, x, x1, y, step);
            r == best
            || (&& r.Some? && r.value.y == y && x <= r.value.x <= x1 && Aligned(x, step, r.value.x)
                && r.value.score == f(Pos(r.value.x, y)) && t <= r.value.score
                && (best.None? || best.value.score < r.value.score)
                && forall v | x <= v < r.value.x && Aligned(x, step, v) :: f(Pos(v, y)) < r.value.score)
    decreases if x <= x1 then x1 - x + 1 else 0
  {
    if x <= x1 {
      var m := Match(x, y, f(Pos(x, y)));
      var b := Consider(best, m, t);
      var r := RowScan(f, t, b, x + step, x1, y, step);
      assert r == RowScan(f, t, best, x, x1, y, step);
      RowScanPicks(f, t, b, x + step, x1, y, step);
      // the candidate at x itself is below the threshold or at most b
      assert m.score < t || (b.Some? && m.score <= b.value.score);
      forall v | x <= v <= x1 && Aligned(x, step, v)
        ensures f(Pos(v, y)) < t || (r.Some? && f(Pos(v, y)) <= r.value.score)
      {
        if v > x {
          AlignedNext(x, step, v);
        }
      }
      if r != b {
        AlignedPrev(x, step, r.value.x);
        forall v | x <= v < r.value.x && Aligned(x, step, v)
          ensures f(Pos(v, y)) < r.value.score
        {
          if v > x {
            AlignedNext(x, step, v);
          }
        }
      }
    }
  }

  /** The same for the whole coarse scan from row y on, with scan order in place of column order. */
  lemma {:induction false} GridScanPicks(f: Pos -> real, t: real, best: Option<Match>, w: Window, y: int, step: int)
    requires step > 0
    ensures var r := GridScan(f, t, best, w, y, step);
            best.Some? ==> r.Some? && best.value.score <= r.value.score
    ensures var r := GridScan(f, t, best, w, y, step);
            forall p | OnGridFrom(w, y, step, p) :: f(p) < t || (r.Some? && f(p) <= r.value.score)
    ensures var r := GridScan(f, t, best, w, y, step);
            r == best
            || (&& r.Some? && OnGridFrom(w, y, step, PosOf(r.value))
                && r.value.score == f(PosOf(r.value)) && t <= r.value.score
                && (best.None? || best.value.score < r.value.score)
                && forall p | OnGridFrom(w, y, step, p) && Before(p, PosOf(r.value)) :: f(p) < r.value.score)
    decreases if y <= w.y1 then w.y1 - y + 1 else 0
  {
    if y <= w.y1 {
      var b := RowScan(f, t, best, w.x0, w.x1, y, step);
      var r := GridScan(f, t, b, w, y + step, step);
      assert r == GridScan(f, t, best, w, y, step);
      RowScanPicks(f, t, best, w.x0, w.x1, y, step);
      GridScanPicks(f, t, b, w, y + step, step);
      forall p | OnGridFrom(w, y, step, p)
        ensures f(p) < t || (r.Some? && f(p) <= r.value.score)
      {
        if p.y > y {
          AlignedNext(y, step, p.y);
          assert OnGridFrom(w, y + step, step, p);
        } else {
          assert p == Pos(p.x, y);
        }
      }
      if r == b && b != best {
        assert PosOf(r.value) == Pos(r.value.x, y);
        assert Aligned(y, step, y);
        forall p | OnGridFrom(w, y, step, p) && Before(p, PosOf(r.value))
          ensures f(p) < r.value.score
        {
          assert p == Pos(p.x, y);
        }
      }
      if r != b {
        AlignedPrev(y, step, r.value.y);
        forall p | OnGridFrom(w, y, step, p) && Before(p, PosOf(r.value))
          ensures f(p) < r.value.score
        {
          if p.y > y {
            AlignedNext(y, step, p.y);
            assert OnGridFrom(w, y + step, step, p);
          } else {
            assert p == Pos(p.x, y);
          }
        }
      }
    }
  }

  /** `findWatermark` returns at most one match, and none exactly when every candidate scores below the threshold. */
  lemma FindWatermarkEmptyIff(im: Image, tpl: Image, expected: Pos, radius: int, step: int, threshold: real,
                              sqrt: real -> real)
    requires step > 0
    ensures var found := FindResult(im, tpl, expected, radius, step, threshold, sqrt);
            var w := SearchWindow(im, tpl, expected, radius);
            && |found| <= 1
            && (found == [] <==> forall p | Candidate(w, step, p) :: ScoreAt(im, tpl, sqrt, p) < threshold)
  {
    var w := SearchWindow(im, tpl, expected, radius);
    GridScanPicks(Scorer(im, tpl, sqrt), threshold, None, w, w.y0, step);
  }

  /**
   * A match of `findWatermark` is a candidate of the clamped window (so the template lies
   * inside the image), its score is the NCC there and reaches the threshold, no candidate
   * scores higher, and every candidate before it in scan order scores strictly lower.
   */
  lemma FindWatermarkPicksFirstBest(im: Image, tpl: Image, expected: Pos, radius: int, step: int, threshold: real,
                                    sqrt: real -> real)
    requires step > 0
    requires FindResult(im, tpl, expected, radius, step, threshold, sqrt) != []
    ensures var m := FindResult(im, tpl, expected, radius, step, threshold, sqrt)[0];
            var w := SearchWindow(im, tpl, expected, radius);
            && Candidate(w, step, PosOf(m))
            && 0 <= m.x <= im.width - tpl.width && 0 <= m.y <= im.height - tpl.height
            && expected.x - radius <= m.x <= expected.x + radius && expected.y - radius <= m.y <= expected.y + radius
            && m.score == ScoreAt(im, tpl, sqrt, PosOf(m)) && threshold <= m.score
            && (forall p | Candidate(w, step, p) :: ScoreAt(im, tpl, sqrt, p) <= m.score)
            && (forall p | Candidate(w, step, p) && Before(p, PosOf(m)) :: ScoreAt(im, tpl, sqrt, p) < m.score)
  {
    var w := SearchWindow(im, tpl, expected, radius);
    GridScanPicks(Scorer(im, tpl, sqrt), threshold, None, w, w.y0, step);
  }

  // ---------------------------------------------------------------------------
  // What the refinement picks

  lemma {:induction false} RefineRowScanPicks(f: Pos -> real, best: Match, x: int, x1: int, y: int)
    ensures var r := RefineRowScan(f, best, x, x1, y);
            best.score <= r.score && forall v | x <= v <= x1 :: f(Pos(v, y)) <= r.score
    ensures var r := RefineRowScan(f, best, x, x1, y);
            r == best
            || (&& r.y == y && x <= r.x <= x1 && r.score == f(Pos(r.x, y)) && best.score < r.score
                && forall v | x <= v < r.x :: f(Pos(v, y)) < r.score)
    decreases if x <= x1 then x1 - x + 1 else 0
  {
    if x <= x1 {
      var b := Improve(best, Match(x, y, f(Pos(x, y))));
      assert RefineRowScan(f, best, x, x1, y) == RefineRowScan(f, b, x + 1, x1, y);
      RefineRowScanPicks(f, b, x + 1, x1, y);
    }
  }

  lemma {:induction false} RefineGridScanPicks(f: Pos -> real, best: Match, w: Window, y: int)
    ensures var r := RefineGridScan(f, best, w, y);
            best.score <= r.score && forall p | InBoxFrom(w, y, p) :: f(p) <= r.score
    ensures var r := RefineGridScan(f, best, w, y);
            r == best
            || (&& InBoxFrom(w, y, PosOf(r)) && r.score == f(PosOf(r)) && best.score < r.score
                && forall p | InBoxFrom(w, y, p) && Before(p, PosOf(r)) :: f(p) < r.score)
    decreases if y <= w.y1 then w.y1 - y + 1 else 0
  {
    if y <= w.y1 {
      var b := RefineRowScan(f, best, w.x0, w.x1, y);
      var r := RefineGridScan(f, b, w, y + 1);
      assert r == RefineGridScan(f, best, w, y);
      RefineRowScanPicks(f, best, w.x0, w.x1, y);
      RefineGridScanPicks(f, b, w, y + 1);
      forall p | InBoxFrom(w, y, p)
        ensures f(p) <= r.score
      {
        if p.y == y {
          assert p == Pos(p.x, y);
        }
      }
      if r != best {
        forall p | InBoxFrom(w, y, p) && Before(p, PosOf(r))
          ensures f(p) < r.score
        {
          if p.y == y {
            assert p == Pos(p.x, y);
          }
        }
      }
    }
  }

  /**
   * `refineMatch` returns the first position of the window, in scan order, with the highest
   * score, provided that score is above -1; otherwise the coarse position with score -1.
   */
  lemma RefineMatchPicksFirstBest(im: Image, tpl: Image, coarse: Pos, radius: int, sqrt: real -> real)
    ensures var r := RefineResult(im, tpl, coarse, radius, sqrt);
            var w := SearchWindow(im, tpl, coarse, radius);
            && REFINE_START_SCORE <= r.score
            && (forall p | InBox(w, p) :: ScoreAt(im, tpl, sqrt, p) <= r.score)
            && (|| r == Match(coarse.x, coarse.y, REFINE_START_SCORE)
                || (&& InBox(w, PosOf(r)) && r.score == ScoreAt(im, tpl, sqrt, PosOf(r)) && REFINE_START_SCORE < r.score
                    && forall p | InBox(w, p) && Before(p, PosOf(r)) :: ScoreAt(im, tpl, sqrt, p) < r.score))
  {
    var w := SearchWindow(im, tpl, coarse, radius);
    RefineGridScanPicks(Scorer(im, tpl, sqrt), Match(coarse.x, coarse.y, REFINE_START_SCORE), w, w.y0);
  }

  /** When the coarse position is itself a valid placement, refinement never scores below it. */
  lemma RefineKeepsCoarse(im: Image, tpl: Image, coarse: Pos, radius: int, sqrt: real -> real)
    requires 0 <= coarse.x <= im.width - tpl.width && 0 <= coarse.y <= im.height - tpl.height && 0 <= radius
    ensures ScoreAt(im, tpl, sqrt, coarse) <= RefineResult(im, tpl, coarse, radius, sqrt).score
  {
    RefineMatchPicksFirstBest(im, tpl, coarse, radius, sqrt);
    assert InBox(SearchWindow(im, tpl, coarse, radius), coarse);
  }

  /** The refined score is a real NCC score or the start value -1, so it lies in [-1, 1]. */
  lemma RefineScoreInRange(im: Image, tpl: Image, coarse: Pos, radius: int, sqrt: real -> real)
    requires IsSqrt(sqrt)
    ensures -1.0 <= RefineResult(im, tpl, coarse, radius, sqrt).score <= 1.0
  {
    var r := RefineResult(im, tpl, coarse, radius, sqrt);
    RefineMatchPicksFirstBest(im, tpl, coarse, radius, sqrt);
    if r != Match(coarse.x, coarse.y, REFINE_START_SCORE) {
      NccScoreInRange(im.data, im.width, r.x, r.y, tpl.data, tpl.width, tpl.height, sqrt);
    }
  }
}
