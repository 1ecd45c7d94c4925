/** The valley and mountain carver of add_continuous_nodata_areas. It draws a feature
    count in [1, max_areas]; for each feature it draws a window of 4000 columns that
    fits in the raster, a kind and an amplitude, and then, column by column, a fresh
    offset and moves every row of that column by the same amount: down for a valley,
    up for a mountain. Features are applied one after another on the same array.

    The random source is passed in as raw draws (see module Sampling) and the sine
    profile sin(k * pi / 4000), k in [0, 4000), as a table of reals in [0, 1]. */
module TerrainCarver {
  import opened Sampling
  import opened RealArith

  /** Every feature is 4000 columns wide. */
  const FeatureWidth: nat := 4000

  /** The generator's own arguments: at most 8 features, no-data sentinel -10000. */
  const GeneratorMaxAreas: int := 8
  const GeneratorNodata: real := -10000.0

  datatype Kind = Valley | Mountain

  /** The raw random draws one feature consumes, in the order the source asks for
      them: the window start, the kind, the amplitude, then one offset per column. */
  datatype FeatureDraws = FeatureDraws(
    startDraw: nat,
    kindDraw: nat,
    amplitudeDraw: real,
    columnDraws: seq<real>)

  /** The draws of one call: the feature count, then one record per feature. */
  datatype Draws = Draws(countDraw: nat, features: seq<FeatureDraws>)

  predicate ValidFeatureDraws(fd: FeatureDraws) {
    && IsUnit(fd.amplitudeDraw)
    && |fd.columnDraws| == FeatureWidth
    && forall k :: 0 <= k < |fd.columnDraws| ==> IsUnit(fd.columnDraws[k])
  }

  /** The random source supplies a record for every feature the count may ask for. */
  predicate ValidDraws(d: Draws, maxAreas: int) {
    && maxAreas <= |d.features|
    && forall i :: 0 <= i < |d.features| ==> ValidFeatureDraws(d.features[i])
  }

  /** sin((x - start_x) * pi / 4000) for every offset in the window, each in [0, 1]. */
  predicate SineTable(sine: seq<real>) {
    && |sine| == FeatureWidth
    && forall k :: 0 <= k < |sine| ==> 0.0 <= sine[k] <= 1.0
  }

  /** One resolved feature: its kind, window start, amplitude (valley_depth or
      mountain_height) and per-column offset (valley_bottom or mountain_peak). */
  datatype Feature = Feature(kind: Kind, startX: int, amplitude: real, columnOffsets: seq<real>)

  predicate Shaped(f: Feature) {
    |f.columnOffsets| == FeatureWidth
  }

  /** The window [startX, startX + 4000) lies inside a raster of the given width. */
  predicate Fits(f: Feature, width: int) {
    0 <= f.startX && f.startX + FeatureWidth <= width
  }

  /** The amplitude and every offset lie in the ranges random.uniform draws them from. */
  predicate InDrawnRanges(f: Feature) {
    && Shaped(f)
    && (f.kind == Valley ==>
          && 0.2 <= f.amplitude <= 0.5
          && forall k :: 0 <= k < FeatureWidth ==> 0.2 <= f.columnOffsets[k] <= 0.4)
    && (f.kind == Mountain ==>
          && 0.5 <= f.amplitude <= 1.0
          && forall k :: 0 <= k < FeatureWidth ==> 0.6 <= f.columnOffsets[k] <= 0.8)
  }

  /** random.choice([True, False]) decides whether the feature is a valley. */
  function KindOf(kindDraw: nat): Kind {
    if ChoiceTrueFalse(kindDraw) then Valley else Mountain
  }

  /** valley_depth ~ uniform(0.2, 0.5); mountain_height ~ uniform(0.5, 1.0). */
  function Amplitude(kind: Kind, u: real): real
    requires IsUnit(u)
  {
    if kind == Valley then Uniform(0.2, 0.5, u) else Uniform(0.5, 1.0, u)
  }

  /** valley_bottom ~ uniform(0.2, 0.4); mountain_peak ~ uniform(0.6, 0.8). */
  function ColumnOffset(kind: Kind, u: real): real
    requires IsUnit(u)
  {
    if kind == Valley then Uniform(0.2, 0.4, u) else Uniform(0.6, 0.8, u)
  }

  /** The feature a record of draws describes once its window start is known. */
  function FeatureAt(startX: int, fd: FeatureDraws): (f: Feature)
    requires ValidFeatureDraws(fd)
    ensures f.kind == KindOf(fd.kindDraw)
    ensures f.startX == startX && InDrawnRanges(f)
  {
    var kind := KindOf(fd.kindDraw);
    Feature(kind, startX, Amplitude(kind, fd.amplitudeDraw),
            seq(FeatureWidth, k requires 0 <= k < FeatureWidth => ColumnOffset(kind, fd.columnDraws[k])))
  }

  /** The feature a record of draws describes in a raster of the given width:
      start_x ~ randint(0, width - 4000). */
  function Resolve(fd: FeatureDraws, width: int): (f: Feature)
    requires ValidFeatureDraws(fd) && FeatureWidth <= width
    ensures Fits(f, width) && InDrawnRanges(f)
  {
    FeatureAt(RandInt(0, width - FeatureWidth, fd.startDraw).value, fd)
  }

  /** The features one call applies, in order, or None where the source raises
      ValueError: randint(1, max_areas) with max_areas < 1, or randint(0, width - 4000)
      with width < 4000 (the first feature's start draw, before anything is written). */
  function Plan(d: Draws, maxAreas: int, width: int): (r: Option<seq<Feature>>)
    requires ValidDraws(d, maxAreas)
    ensures r.Some? <==> 1 <= maxAreas && FeatureWidth <= width
    ensures r.Some? ==> 1 <= |r.value| <= maxAreas
    ensures r.Some? ==> forall i :: 0 <= i < |r.value| ==> Fits(r.value[i], width) && InDrawnRanges(r.value[i])
  {
    match RandInt(1, maxAreas, d.countDraw)
    case None => None
    case Some(n) =>
      if width < FeatureWidth then None
      else Some(seq(n, i requires 0 <= i < n => Resolve(d.features[i], width)))
  }

  /** amplitude * sin((x - start_x) * pi / 4000): between 0 and the amplitude. */
  function Profile(amplitude: real, s: real): (p: real)
    requires 0.0 <= s <= 1.0
    ensures amplitude >= 0.0 ==> 0.0 <= p <= amplitude
  {
    ProfileBounds(amplitude, s);
    amplitude * s
  }

  lemma ProfileBounds(a: real, s: real)
    requires 0.0 <= s <= 1.0
    ensures a >= 0.0 ==> 0.0 <= a * s <= a
  {
    if a >= 0.0 {
      MulNonneg(a, s);
      MulNonneg(a, 1.0 - s);
      Distribute(a, s);
    }
  }

  /** The signed amount one feature moves every row of column x by. */
  function Delta(f: Feature, sine: seq<real>, x: int): real
    requires Shaped(f) && SineTable(sine)
  {
    if f.startX <= x < f.startX + FeatureWidth then
      var lift := Profile(f.amplitude, sine[x - f.startX]) + f.columnOffsets[x - f.startX];
      if f.kind == Valley then -lift else lift
    else 0.0
  }

  /** The sum of the signed deltas of a sequence of features at column x. */
  function TotalDelta(fs: seq<Feature>, sine: seq<real>, x: int): real
    requires SineTable(sine)
    requires forall i :: 0 <= i < |fs| ==> Shaped(fs[i])
  {
    if fs == [] then 0.0 else Delta(fs[0], sine, x) + TotalDelta(fs[1..], sine, x)
  }

  // ---------------------------------------------------------------------------
  // The carver

  /** ValueError stands for the exception random.randint raises on an empty range. */
  datatype Outcome = Carved | ValueError

  /** Applies one feature whose window starts at startX: the body of the source's
      `for _ in range(num_areas)` loop after start_x has been drawn. */
  method CarveFeature(data: array2<real>, startX: nat, fd: FeatureDraws, sine: seq<real>)
    requires ValidFeatureDraws(fd) && SineTable(sine)
    requires startX + FeatureWidth <= data.Length1
    modifies data
    ensures forall y, x :: 0 <= y < data.Length0 && 0 <= x < data.Length1 ==>
              data[y, x] == old(data[y, x]) + Delta(FeatureAt(startX, fd), sine, x)
  {
    var height, width := data.Length0, data.Length1;
    var endX := startX + FeatureWidth;
    ghost var f := FeatureAt(startX, fd);
    assert forall y, x :: 0 <= y < height && 0 <= x < width ==> data[y, x] == old(data[y, x]);
    assert forall x :: x < startX ==> Delta(f, sine, x) == 0.0;
    var isValley := ChoiceTrueFalse(fd.kindDraw);
    if isValley {
      var valleyDepth := Uniform(0.2, 0.5, fd.amplitudeDraw);
      for x := startX to endX
        invariant forall y, x' :: 0 <= y < height && 0 <= x' < width ==>
                    data[y, x'] == old(data[y, x']) + (if x' < x then Delta(f, sine, x') else 0.0)
      {
        var valleyBottom := Uniform(0.2, 0.4, fd.columnDraws[x - startX]);
        var cut := valleyDepth * sine[x - startX] + valleyBottom;
        assert Delta(f, sine, x) == -cut;
        for y := 0 to height
          invariant forall y', x' :: 0 <= y' < height && 0 <= x' < width && x' != x ==>
                      data[y', x'] == old(data[y', x']) + (if x' < x then Delta(f, sine, x') else 0.0)
          invariant forall y' :: 0 <= y' < height ==>
                      data[y', x] == old(data[y', x]) - (if y' < y then cut else 0.0)
        {
          data[y, x] := data[y, x] - cut;
        }
      }
    } else {
      var mountainHeight := Uniform(0.5, 1.0, fd.amplitudeDraw);
      for x := startX to endX
        invariant forall y, x' :: 0 <= y < height && 0 <= x' < width ==>
                    data[y, x'] == old(data[y, x']) + (if x' < x then Delta(f, sine, x') else 0.0)
      {
        var mountainPeak := Uniform(0.6, 0.8, fd.columnDraws[x - startX]);
        var rise := mountainHeight * sine[x - startX] + mountainPeak;
        assert Delta(f, sine, x) == rise;
        for y := 0 to height
          invariant forall y', x' :: 0 <= y' < height && 0 <= x' < width && x' != x ==>
                      data[y', x'] == old(data[y', x']) + (if x' < x then Delta(f, sine, x') else 0.0)
          invariant forall y' :: 0 <= y' < height ==>
                      data[y', x] == old(data[y', x]) + (if y' < y then rise else 0.0)
        {
          data[y, x] := data[y, x] + rise;
        }
      }
    }
  }

  /** add_continuous_nodata_areas: on success every cell has moved by the sum of the
      planned features' deltas at its column; on ValueError nothing was written.
      The no-data sentinel is accepted and, as in the source, not used. */
  method AddContinuousNodataAreas(data: array2<real>, nodataValue: real, maxAreas: int,
                                  draws: Draws, sine: seq<real>)
    returns (outcome: Outcome)
    requires ValidDraws(draws, maxAreas) && SineTable(sine)
    modifies data
    ensures outcome == Carved <==> Plan(draws, maxAreas, data.Length1).Some?
    ensures outcome == ValueError ==>
              forall y, x :: 0 <= y < data.Length0 && 0 <= x < data.Length1 ==> data[y, x] == old(data[y, x])
    ensures outcome == Carved ==>
              forall y, x :: 0 <= y < data.Length0 && 0 <= x < data.Length1 ==>
                data[y, x] == old(data[y, x]) + TotalDelta(Plan(draws, maxAreas, data.Length1).value, sine, x)
  {
    var height, width := data.Length0, data.Length1;
    var count := RandInt(1, maxAreas, draws.countDraw);
    if count.None? {
      return ValueError;
    }
    var numAreas := count.value;
    ghost var applied: seq<Feature> := [];
    assert forall x :: TotalDelta(applied, sine, x) == 0.0;
    assert forall y, x :: 0 <= y < height && 0 <= x < width ==> data[y, x] == old(data[y, x]);
    for i := 0 to numAreas
      invariant i == 0 || FeatureWidth <= width
      invariant |applied| == i
      invariant forall k :: 0 <= k < i ==> applied[k] == Resolve(draws.features[k], width)
      invariant forall y, x :: 0 <= y < height && 0 <= x < width ==>
                  data[y, x] == old(data[y, x]) + TotalDelta(applied, sine, x)
    {
      var fd := draws.features[i];
      var startX := RandInt(0, width - FeatureWidth, fd.startDraw);
      if startX.None? {
        return ValueError;
      }
      CarveFeature(data, startX.value, fd, sine);
      ghost var f := Resolve(fd, width);
      forall x | 0 <= x < width
        ensures TotalDelta(applied + [f], sine, x) == TotalDelta(applied, sine, x) + Delta(f, sine, x)
      {
        TotalDeltaAppend(applied, f, sine, x);
      }
      applied := applied + [f];
    }
    assert applied == Plan(draws, maxAreas, width).value;
    return Carved;
  }

  // ---------------------------------------------------------------------------
  // Properties of the plan and of the deltas

  /** Later features add to what earlier ones did. */
  lemma {:induction false} TotalDeltaAppend(fs: seq<Feature>, f: Feature, sine: seq<real>, x: int)
    requires SineTable(sine) && Shaped(f)
    requires forall i :: 0 <= i < |fs| ==> Shaped(fs[i])
    ensures TotalDelta(fs + [f], sine, x) == TotalDelta(fs, sine, x) + Delta(f, sine, x)
  {
    if fs != [] {
      assert (fs + [f])[1..] == fs[1..] + [f];
      TotalDeltaAppend(fs[1..], f, sine, x);
    }
  }

  /** A column outside every feature's window is untouched. */
  lemma {:induction false} UntouchedColumn(fs: seq<Feature>, sine: seq<real>, x: int)
    requires SineTable(sine)
    requires forall i :: 0 <= i < |fs| ==> Shaped(fs[i])
    requires forall i :: 0 <= i < |fs| ==> !(fs[i].startX <= x < fs[i].startX + FeatureWidth)
    ensures TotalDelta(fs, sine, x) == 0.0
  {
    if fs != [] {
      UntouchedColumn(fs[1..], sine, x);
    }
  }

  /** Inside its window a valley lowers a column by between 0.2 and 0.9 and a
      mountain raises it by between 0.6 and 1.8. */
  lemma FeatureDeltaBounds(f: Feature, sine: seq<real>, x: int)
    requires InDrawnRanges(f) && SineTable(sine)
    requires f.startX <= x < f.startX + FeatureWidth
    ensures f.kind == Valley ==> -0.9 <= Delta(f, sine, x) <= -0.2
    ensures f.kind == Mountain ==> 0.6 <= Delta(f, sine, x) <= 1.8
  {
    var k := x - f.startX;
    var profile, offset := Profile(f.amplitude, sine[k]), f.columnOffsets[k];
    assert Delta(f, sine, x) == if f.kind == Valley then -(profile + offset) else profile + offset;
  }

  /** Every feature of the sequence was drawn from the source's ranges. */
  predicate AllDrawn(fs: seq<Feature>)
    ensures AllDrawn(fs) ==> forall i :: 0 <= i < |fs| ==> Shaped(fs[i])
  {
    forall i :: 0 <= i < |fs| ==> InDrawnRanges(fs[i])
  }

  /** Any one feature moves a column by between -0.9 and 1.8. */
  lemma DeltaRange(f: Feature, sine: seq<real>, x: int)
    requires InDrawnRanges(f) && SineTable(sine)
    ensures -0.9 <= Delta(f, sine, x) <= 1.8
  {
    if f.startX <= x < f.startX + FeatureWidth {
      FeatureDeltaBounds(f, sine, x);
    }
  }

  /** n features move a column by between -0.9 n and 1.8 n. */
  lemma {:induction false} TotalDeltaRange(fs: seq<Feature>, sine: seq<real>, x: int)
    requires SineTable(sine) && AllDrawn(fs)
    ensures -0.9 * |fs| as real <= TotalDelta(fs, sine, x) <= 1.8 * |fs| as real
  {
    if fs != [] {
      DeltaRange(fs[0], sine, x);
      TotalDeltaRange(fs[1..], sine, x);
    }
  }

  /** A cell that started at or above `floor` cannot end at a sentinel lying more than
      0.9 per feature below it: carving never produces the no-data value. */
  lemma CarvedAvoidsSentinel(fs: seq<Feature>, sine: seq<real>, x: int, v: real, floor: real, nodata: real)
    requires SineTable(sine) && AllDrawn(fs)
    requires floor <= v && nodata < floor - 0.9 * |fs| as real
    ensures v + TotalDelta(fs, sine, x) != nodata
    ensures v + TotalDelta(fs, sine, x) > nodata
  {
    TotalDeltaRange(fs, sine, x);
  }

  /** With the generator's settings (heights normalised to [0, 1000], at most 8
      features) every carved cell stays within [-7.2, 1014.4], far from -10000. */
  lemma GeneratorAvoidsNodata(draws: Draws, width: int, sine: seq<real>, x: int, v: real)
    requires ValidDraws(draws, GeneratorMaxAreas) && SineTable(sine)
    requires FeatureWidth <= width
    requires 0.0 <= v <= 1000.0
    ensures Plan(draws, GeneratorMaxAreas, width).Some?
    ensures -7.2 <= v + TotalDelta(Plan(draws, GeneratorMaxAreas, width).value, sine, x) <= 1014.4
    ensures v + TotalDelta(Plan(draws, GeneratorMaxAreas, width).value, sine, x) != GeneratorNodata
  {
    var fs := Plan(draws, GeneratorMaxAreas, width).value;
    TotalDeltaRange(fs, sine, x);
  }
}
