/**
 * The watermark engine (src/core/watermarkEngine.js): size-class selection,
 * the anchor of the watermark, detection by template search with a fixed
 * fallback, the per-size alpha-map cache, removal at each detected position,
 * and the report of the last detection.
 *
 * `calculateAlphaMap` (alphaMap.js) and `removeWatermark` (blendModes.js) are
 * not part of this model: the engine receives them as function values. Image
 * decoding into canvases is left out; images are their `ImageData`.
 */
module Engine {
  import opened Wrappers
  import opened Correlation
  import opened TemplateMatch

  /** `{logoSize, marginRight, marginBottom}`. */
  datatype Config = Config(logoSize: int, marginRight: int, marginBottom: int)

  /** `{x, y, width, height}`. */
  datatype Rect = Rect(x: int, y: int, width: int, height: int)

  /** A detected position `{x, y, width, height, score}`. */
  datatype Position = Position(x: int, y: int, width: int, height: int, score: real)

  /** The `method` of a detection: 'template' or 'fixed'. */
  datatype DetectionMethod = TemplateMethod | FixedMethod

  datatype Detection = Detection(positions: seq<Position>, logoSize: int, detectedBy: DetectionMethod)

  /** What `getWatermarkInfo` reports. */
  datatype Info = Info(size: int, position: Rect, config: Config, detectedBy: DetectionMethod, matchCount: int, score: real)

  /** A `Float32Array` alpha map. */
  type AlphaMap = seq<real>

  const SMALL_SIZE: int := 48
  const LARGE_SIZE: int := 96
  const SMALL_MARGIN: int := 32
  const LARGE_MARGIN: int := 64
  /** Both dimensions must exceed this for the large watermark. */
  const LARGE_MIN_DIMENSION: int := 1024
  /** The search step, threshold and refinement radius `detectWatermarkPositions` passes. */
  const SEARCH_STEP: int := 2
  const SEARCH_THRESHOLD: real := 0.7
  const REFINE_RADIUS: int := 4

  /** The margin the engine pairs with a size when it anchors a search. */
  function MarginFor(size: int): int
  {
    if size == LARGE_SIZE then LARGE_MARGIN else SMALL_MARGIN
  }

  function DetectWatermarkConfig(imageWidth: int, imageHeight: int): (c: Config)
    ensures c.logoSize == LARGE_SIZE <==> imageWidth > LARGE_MIN_DIMENSION && imageHeight > LARGE_MIN_DIMENSION
    ensures c.logoSize == LARGE_SIZE || c.logoSize == SMALL_SIZE
    ensures c.marginRight == c.marginBottom == MarginFor(c.logoSize)
  {
    if imageWidth > LARGE_MIN_DIMENSION && imageHeight > LARGE_MIN_DIMENSION then
      Config(LARGE_SIZE, LARGE_MARGIN, LARGE_MARGIN)
    else
      Config(SMALL_SIZE, SMALL_MARGIN, SMALL_MARGIN)
  }

  /** The logo square sits marginRight from the right edge and marginBottom from the bottom edge; nothing clamps it. */
  function CalculateWatermarkPosition(imageWidth: int, imageHeight: int, config: Config): (r: Rect)
    ensures r.x + r.width + config.marginRight == imageWidth
    ensures r.y + r.height + config.marginBottom == imageHeight
    ensures r.width == r.height == config.logoSize
  {
    Rect(imageWidth - config.marginRight - config.logoSize, imageHeight - config.marginBottom - config.logoSize,
         config.logoSize, config.logoSize)
  }

  /** The other size class: 96 for 48 and 48 for anything else. */
  function SecondarySize(primary: int): int
  {
    if primary == SMALL_SIZE then LARGE_SIZE else SMALL_SIZE
  }

  /** The expected top-left corner of a watermark of the given size. */
  function AnchorFor(im: Image, size: int): Pos
  {
    var r := CalculateWatermarkPosition(im.width, im.height, Config(size, MarginFor(size), MarginFor(size)));
    Pos(r.x, r.y)
  }

  /** One iteration of the size loop: search around the anchor and, on a match, refine it. */
  function TrySize(im: Image, tpl: Image, size: int, sqrt: real -> real): Option<Position>
  {
    var found := FindResult(im, tpl, AnchorFor(im, size), size, SEARCH_STEP, SEARCH_THRESHOLD, sqrt);
    if found == [] then None
    else
      var r := RefineResult(im, tpl, PosOf(found[0]), REFINE_RADIUS, sqrt);
      Some(Position(r.x, r.y, size, size, r.score))
  }

  /** The fixed-position fallback for the primary configuration, with score 0. */
  function FixedDetection(im: Image): Detection
  {
    var config := DetectWatermarkConfig(im.width, im.height);
    var r := CalculateWatermarkPosition(im.width, im.height, config);
    Detection([Position(r.x, r.y, r.width, r.height, 0.0)], config.logoSize, FixedMethod)
  }

  /** What `detectWatermarkPositions` returns. */
  function DetectResult(im: Image, templates: map<int, Image>, sqrt: real -> real): Detection
    requires SMALL_SIZE in templates && LARGE_SIZE in templates
  {
    var primary := DetectWatermarkConfig(im.width, im.height).logoSize;
    var secondary := SecondarySize(primary);
    match TrySize(im, templates[primary], primary, sqrt)
    case Some(p) => Detection([p], primary, TemplateMethod)
    case None =>
      match TrySize(im, templates[secondary], secondary, sqrt)
      case Some(p) => Detection([p], secondary, TemplateMethod)
      case None => FixedDetection(im)
  }

  /** The image after `removeWatermark` has run at each position in turn. */
  function RemoveAll(remove: (Image, AlphaMap, Position) -> Image, im: Image, alpha: AlphaMap, ps: seq<Position>): Image
  {
    if ps == [] then im else remove(RemoveAll(remove, im, alpha, ps[..|ps| - 1]), alpha, ps[|ps| - 1])
  }

  class WatermarkEngine {
    /** The background captures `{bg48, bg96}`, as image data. */
    const bg48: Image
    const bg96: Image
    /** `templateDataMap`: the template image for each size. */
    const templates: map<int, Image>
    const sqrt: real -> real
    const calculateAlphaMap: Image -> AlphaMap
    const removeWatermark: (Image, AlphaMap, Position) -> Image

    /** The alpha-map cache, keyed by size. */
    var alphaMaps: map<int, AlphaMap>
    /** `_lastDetection`; None until a removal has run. */
    var lastDetection: Option<Detection>
    /** Every size for which `calculateAlphaMap` has been called, in call order. */
    ghost var computed: seq<int>

    /** The background `getAlphaMap` draws for a size: bg48 for 48, bg96 for anything else. */
    function BackgroundFor(size: int): Image
    {
      if size == SMALL_SIZE then bg48 else bg96
    }

    ghost predicate Valid()
      reads this
    {
      && SMALL_SIZE in templates && LARGE_SIZE in templates
      && (forall s | s in templates :: WellFormed(templates[s]))
      // the cache holds only what calculateAlphaMap gives for the size's background
      && (forall s | s in alphaMaps :: alphaMaps[s] == calculateAlphaMap(BackgroundFor(s)))
      // calculateAlphaMap has run once for each cached size and for no other
      && (forall s :: s in alphaMaps <==> s in computed)
      && (forall i, j | 0 <= i < j < |computed| :: computed[i] != computed[j])
      && (lastDetection.Some? ==> |lastDetection.value.positions| > 0)
    }

    constructor(bg48: Image, bg96: Image, templates: map<int, Image>, sqrt: real -> real,
                calculateAlphaMap: Image -> AlphaMap, removeWatermark: (Image, AlphaMap, Position) -> Image)
      requires SMALL_SIZE in templates && LARGE_SIZE in templates
      requires forall s | s in templates :: WellFormed(templates[s])
      ensures Valid()
      ensures this.bg48 == bg48 && this.bg96 == bg96 && this.templates == templates && this.sqrt == sqrt
      ensures this.calculateAlphaMap == calculateAlphaMap && this.removeWatermark == removeWatermark
      ensures alphaMaps == map[] && lastDetection == None && computed == []
    {
      this.bg48 := bg48;
      this.bg96 := bg96;
      this.templates := templates;
      this.sqrt := sqrt;
      this.calculateAlphaMap := calculateAlphaMap;
      this.removeWatermark := removeWatermark;
      alphaMaps := map[];
      lastDetection := None;
      computed := [];
    }

    /** Returns the cached map for `size`, computing and caching it on the first request. */
    method GetAlphaMap(size: int) returns (alpha: AlphaMap)
      requires Valid()
      modifies this
      ensures Valid()
      ensures alpha == calculateAlphaMap(BackgroundFor(size))
      ensures alphaMaps == old(alphaMaps)[size := alpha]
      ensures computed == old(computed) + (if size in old(alphaMaps) then [] else [size])
      ensures lastDetection == old(lastDetection)
    {
      if size in alphaMaps {
        alpha := alphaMaps[size];
        assert alphaMaps == alphaMaps[size := alpha];
        return;
      }
      var bgImage := if size == SMALL_SIZE then bg48 else bg96;
      alpha := calculateAlphaMap(bgImage);
      alphaMaps := alphaMaps[size := alpha];
      computed := computed + [size];
    }

    method DetectWatermarkPositions(im: Image) returns (detection: Detection)
      requires Valid() && WellFormed(im)
      ensures detection == DetectResult(im, templates, sqrt)
    {
      var config := DetectWatermarkConfig(im.width, im.height);
      var primarySize := config.logoSize;
      var secondarySize := if primarySize == SMALL_SIZE then LARGE_SIZE else SMALL_SIZE;
      var sizes := [primarySize, secondarySize];
      var i := 0;
      while i < |sizes|
        invariant 0 <= i <= |sizes|
        invariant forall j | 0 <= j < i :: TrySize(im, templates[sizes[j]], sizes[j], sqrt).None?
      {
        var size := sizes[i];
        var found := SearchSize(im, size);
        if found.Some? {
          detection := Detection([found.value], size, TemplateMethod);
          if i == 0 {
            assert size == primarySize;
          } else {
            assert size == secondarySize && TrySize(im, templates[sizes[0]], sizes[0], sqrt).None?;
          }
          return;
        }
        i := i + 1;
      }
      assert sizes[0] == primarySize && sizes[1] == secondarySize;
      var fallbackPos := CalculateWatermarkPosition(im.width, im.height, config);
      detection := Detection([Position(fallbackPos.x, fallbackPos.y, fallbackPos.width, fallbackPos.height, 0.0)],
                             config.logoSize, FixedMethod);
    }

    /** One pass of the size loop of `detectWatermarkPositions`: search around the size's anchor, refine a match. */
    method SearchSize(im: Image, size: int) returns (found: Option<Position>)
      requires Valid() && WellFormed(im)
      requires size in templates
      ensures found == TrySize(im, templates[size], size, sqrt)
    {
      var tplData := templates[size];
      var margin := if size == LARGE_SIZE then LARGE_MARGIN else SMALL_MARGIN;
      var expectedPos := CalculateWatermarkPosition(im.width, im.height, Config(size, margin, margin));
      assert AnchorFor(im, size) == Pos(expectedPos.x, expectedPos.y);
      var matches := FindWatermark(im, tplData, Pos(expectedPos.x, expectedPos.y), size, SEARCH_STEP, SEARCH_THRESHOLD, sqrt);
      if |matches| > 0 {
        var m := matches[0];
        var r := RefineMatch(im, tplData, m.x, m.y, REFINE_RADIUS, sqrt);
        found := Some(Position(r.x, r.y, size, size, r.score));
      } else {
        found := None;
      }
    }

    /** Detects, removes the watermark at every detected position, and records the detection. */
    method RemoveWatermarkFromImage(im: Image) returns (out: Image)
      requires Valid() && WellFormed(im)
      modifies this
      ensures Valid()
      ensures var d := DetectResult(im, templates, sqrt);
              && lastDetection == Some(d)
              && out == RemoveAll(removeWatermark, im, calculateAlphaMap(BackgroundFor(d.logoSize)), d.positions)
              && alphaMaps == old(alphaMaps)[d.logoSize := calculateAlphaMap(BackgroundFor(d.logoSize))]
              && computed == old(computed) + (if d.logoSize in old(alphaMaps) then [] else [d.logoSize])
    {
      var detection := DetectWatermarkPositions(im);
      var alphaMap := GetAlphaMap(detection.logoSize);
      var imageData := im;
      var i := 0;
      while i < |detection.positions|
        invariant 0 <= i <= |detection.positions|
        invariant imageData == RemoveAll(removeWatermark, im, alphaMap, detection.positions[..i])
      {
        assert detection.positions[..i + 1][..i] == detection.positions[..i];
        imageData := removeWatermark(imageData, alphaMap, detection.positions[i]);
        i := i + 1;
      }
      assert detection.positions[..i] == detection.positions;
      DetectionHasOnePosition(im, templates, sqrt);
      lastDetection := Some(detection);
      out := imageData;
    }

    /** The last detection's report when there is one, else the fixed estimate for the given size. */
    function GetWatermarkInfo(imageWidth: int, imageHeight: int): (info: Info)
      reads this
      requires Valid()
      ensures info.config == DetectWatermarkConfig(imageWidth, imageHeight)
      ensures lastDetection.Some? ==>
        var det := lastDetection.value;
        && info.size == det.logoSize && info.detectedBy == det.detectedBy
        && info.position == Rect(det.positions[0].x, det.positions[0].y, det.positions[0].width, det.positions[0].height)
        && info.matchCount == |det.positions| && info.score == det.positions[0].score
      ensures lastDetection.None? ==>
        && info.size == info.config.logoSize && info.detectedBy == FixedMethod
        && info.position == CalculateWatermarkPosition(imageWidth, imageHeight, info.config)
        && info.matchCount == 1 && info.score == 0.0
    {
      if lastDetection.Some? then
        var det := lastDetection.value;
        var primary := det.positions[0];
        Info(det.logoSize, Rect(primary.x, primary.y, primary.width, primary.height),
             DetectWatermarkConfig(imageWidth, imageHeight), det.detectedBy, |det.positions|, primary.score)
      else
        var config := DetectWatermarkConfig(imageWidth, imageHeight);
        var position := CalculateWatermarkPosition(imageWidth, imageHeight, config);
        Info(config.logoSize, position, config, FixedMethod, 1, 0.0)
    }
  }

  // ---------------------------------------------------------------------------
  // Properties of detection

  /** Every detection holds exactly one position. */
  lemma DetectionHasOnePosition(im: Image, templates: map<int, Image>, sqrt: real -> real)
    requires SMALL_SIZE in templates && LARGE_SIZE in templates
    ensures |DetectResult(im, templates, sqrt).positions| == 1
  {
  }

  /**
   * A successful search of one size yields a position where the whole template fits in
   * the image, of the searched size, whose refined score reaches the threshold: the
   * refinement window contains the coarse match, and refinement never scores below it.
   */
  lemma TrySizeFindsStrongMatch(im: Image, tpl: Image, size: int, sqrt: real -> real)
    requires IsSqrt(sqrt)
    requires TrySize(im, tpl, size, sqrt).Some?
    ensures var p := TrySize(im, tpl, size, sqrt).value;
            && SEARCH_THRESHOLD <= p.score <= 1.0
            && 0 <= p.x <= im.width - tpl.width && 0 <= p.y <= im.height - tpl.height
            && p.width == p.height == size
  {
    var anchor := AnchorFor(im, size);
    var m := FindResult(im, tpl, anchor, size, SEARCH_STEP, SEARCH_THRESHOLD, sqrt)[0];
    FindWatermarkPicksFirstBest(im, tpl, anchor, size, SEARCH_STEP, SEARCH_THRESHOLD, sqrt);
    RefineKeepsCoarse(im, tpl, PosOf(m), REFINE_RADIUS, sqrt);
    RefineScoreInRange(im, tpl, PosOf(m), REFINE_RADIUS, sqrt);
    RefineMatchPicksFirstBest(im, tpl, PosOf(m), REFINE_RADIUS, sqrt);
  }

  /** Templates are square and as wide as their size, as `create` extracts them. */
  predicate TemplatesSized(templates: map<int, Image>)
  {
    forall s | s in templates :: templates[s].width == s && templates[s].height == s
  }

  /**
   * The primary size is searched first and the secondary only if the primary finds
   * nothing; a template detection lies inside the image and scores at least 0.7.
   */
  lemma TemplateDetection(im: Image, templates: map<int, Image>, sqrt: real -> real)
    requires SMALL_SIZE in templates && LARGE_SIZE in templates && TemplatesSized(templates)
    requires IsSqrt(sqrt)
    requires DetectResult(im, templates, sqrt).detectedBy == TemplateMethod
    ensures var d := DetectResult(im, templates, sqrt);
            var primary := DetectWatermarkConfig(im.width, im.height).logoSize;
            var p := d.positions[0];
            && |d.positions| == 1
            && (d.logoSize == primary || (d.logoSize == SecondarySize(primary) && TrySize(im, templates[primary], primary, sqrt).None?))
            && SEARCH_THRESHOLD <= p.score <= 1.0
            && p.width == p.height == d.logoSize
            && 0 <= p.x && p.x + d.logoSize <= im.width && 0 <= p.y && p.y + d.logoSize <= im.height
  {
    var primary := DetectWatermarkConfig(im.width, im.height).logoSize;
    var secondary := SecondarySize(primary);
    if TrySize(im, templates[primary], primary, sqrt).Some? {
      TrySizeFindsStrongMatch(im, templates[primary], primary, sqrt);
    } else {
      TrySizeFindsStrongMatch(im, templates[secondary], secondary, sqrt);
    }
  }

  /** The fixed method is used exactly when neither size finds a match, and then reports the primary anchor with score 0. */
  lemma FixedDetectionIff(im: Image, templates: map<int, Image>, sqrt: real -> real)
    requires SMALL_SIZE in templates && LARGE_SIZE in templates
    ensures var d := DetectResult(im, templates, sqrt);
            var config := DetectWatermarkConfig(im.width, im.height);
            var primary := config.logoSize;
            var secondary := SecondarySize(primary);
            && (d.detectedBy == FixedMethod
                <==> TrySize(im, templates[primary], primary, sqrt).None? && TrySize(im, templates[secondary], secondary, sqrt).None?)
            && (d.detectedBy == FixedMethod ==>
                  && d.logoSize == primary
                  && d.positions == [Position(im.width - config.marginRight - primary, im.height - config.marginBottom - primary,
                                              primary, primary, 0.0)])
  {
  }

  /**
   * On an image whose pixels all have the same luma (an all-black image, say) every
   * candidate scores 0, below the threshold, so detection falls back to the fixed position.
   */
  lemma UniformImageFallsBack(im: Image, templates: map<int, Image>, sqrt: real -> real, v: real)
    requires SMALL_SIZE in templates && LARGE_SIZE in templates
    requires IsSqrt(sqrt)
    requires forall x, y | 0 <= x < im.width && 0 <= y < im.height :: PixelLuma(im.data, im.width, x, y) == v
    ensures DetectResult(im, templates, sqrt) == FixedDetection(im)
  {
    NoMatchOnUniformImage(im, templates[SMALL_SIZE], SMALL_SIZE, sqrt, v);
    NoMatchOnUniformImage(im, templates[LARGE_SIZE], LARGE_SIZE, sqrt, v);
  }

  lemma NoMatchOnUniformImage(im: Image, tpl: Image, size: int, sqrt: real -> real, v: real)
    requires IsSqrt(sqrt)
    requires forall x, y | 0 <= x < im.width && 0 <= y < im.height :: PixelLuma(im.data, im.width, x, y) == v
    ensures TrySize(im, tpl, size, sqrt).None?
  {
    var anchor := AnchorFor(im, size);
    var w := SearchWindow(im, tpl, anchor, size);
    forall p | Candidate(w, SEARCH_STEP, p)
      ensures ScoreAt(im, tpl, sqrt, p) < SEARCH_THRESHOLD
    {
      forall r, c | 0 <= r < tpl.height && 0 <= c < tpl.width
        ensures PatchPixel(im.data, im.width, p.x, p.y, r, c) == v
      {
        assert 0 <= p.x + c < im.width && 0 <= p.y + r < im.height;
      }
      NccScoreUniformPatch(im.data, im.width, p.x, p.y, tpl.data, tpl.width, tpl.height, sqrt, v);
    }
    FindWatermarkEmptyIff(im, tpl, anchor, size, SEARCH_STEP, SEARCH_THRESHOLD, sqrt);
  }

  /** Once a detection is stored, the report ignores the dimensions passed in, except for `config`. */
  lemma InfoAfterDetectionIgnoresDimensions(e: WatermarkEngine, w1: int, h1: int, w2: int, h2: int)
    requires e.Valid() && e.lastDetection.Some?
    ensures var i1 := e.GetWatermarkInfo(w1, h1);
            var i2 := e.GetWatermarkInfo(w2, h2);
            && i1.(config := i2.config) == i2
            && i1.size == e.lastDetection.value.logoSize && i1.detectedBy == e.lastDetection.value.detectedBy
            && i1.matchCount == |e.lastDetection.value.positions|
  {
  }

  /** Before any detection, the report is the fixed fallback that detection itself would give for those dimensions. */
  lemma InfoBeforeDetectionIsFallback(e: WatermarkEngine, im: Image)
    requires e.Valid() && e.lastDetection.None?
    ensures var info := e.GetWatermarkInfo(im.width, im.height);
            var d := FixedDetection(im);
            && info.size == d.logoSize && info.detectedBy == d.detectedBy && info.matchCount == |d.positions|
            && info.position == Rect(d.positions[0].x, d.positions[0].y, d.positions[0].width, d.positions[0].height)
            && info.score == d.positions[0].score
  {
  }
}
