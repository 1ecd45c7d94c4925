/** The decision of compare_tiff_files once both rasters' first bands have been read:
    1 when the shapes differ, otherwise 1 when some absolute cell difference exceeds
    threshold_cm / 100 metres, and 0 when none does. */
module CompareTiff {

  /** A band as read from a raster: its shape (rows x columns) and its rows. Keeping the
      shape apart from the rows tells a 0 x 3 band from a 0 x 5 one, as numpy shapes do. */
  datatype Band = Band(height: nat, width: nat, cells: seq<seq<real>>)

  predicate WellFormed(b: Band) {
    && |b.cells| == b.height
    && forall i :: 0 <= i < |b.cells| ==> |b.cells[i]| == b.width
  }

  predicate SameShape(a: Band, b: Band) {
    a.height == b.height && a.width == b.width
  }

  /** The command line's default tolerance, in centimetres. */
  const DefaultThresholdCm: real := 1.0

  function Abs(v: real): real {
    if v < 0.0 then -v else v
  }

  /** np.abs(original - reconstructed) for two bands of the same shape. */
  function Differences(a: Band, b: Band): (d: seq<seq<real>>)
    requires WellFormed(a) && WellFormed(b) && SameShape(a, b)
    ensures |d| == a.height
    ensures forall i :: 0 <= i < a.height ==> |d[i]| == a.width
  {
    seq(a.height, i requires 0 <= i < a.height =>
      seq(a.width, j requires 0 <= j < a.width => Abs(a.cells[i][j] - b.cells[i][j])))
  }

  /** np.any(row > t), as a scan over the row. */
  function AnyRowExceeds(row: seq<real>, t: real): (r: bool)
    ensures r <==> exists j :: 0 <= j < |row| && row[j] > t
  {
    if row == [] then false
    else row[0] > t || AnyRowExceeds(row[1..], t)
  }

  /** np.any(grid > t), as a scan over the rows. */
  function AnyExceeds(grid: seq<seq<real>>, t: real): (r: bool)
    ensures r <==> exists i, j :: 0 <= i < |grid| && 0 <= j < |grid[i]| && grid[i][j] > t
  {
    if grid == [] then false
    else
      var rest := AnyExceeds(grid[1..], t);
      assert rest ==> exists i, j :: 0 <= i < |grid| && 0 <= j < |grid[i]| && grid[i][j] > t by {
        if rest {
          var i, j :| 0 <= i < |grid[1..]| && 0 <= j < |grid[1..][i]| && grid[1..][i][j] > t;
          assert grid[i + 1][j] > t;
        }
      }
      AnyRowExceeds(grid[0], t) || rest
  }

  /** Two samples differ by at most the tolerance, given in centimetres. */
  predicate CellWithin(x: real, y: real, thresholdCm: real) {
    Abs(x - y) <= thresholdCm / 100.0
  }

  /** Every cell pair is within the tolerance. */
  predicate WithinTolerance(a: Band, b: Band, thresholdCm: real)
    requires WellFormed(a) && WellFormed(b) && SameShape(a, b)
  {
    forall i, j :: 0 <= i < a.height && 0 <= j < a.width ==>
      CellWithin(a.cells[i][j], b.cells[i][j], thresholdCm)
  }

  /** compare_tiff_files: 0 when the bands match within the tolerance, 1 otherwise. */
  function CompareTiffFiles(original: Band, reconstructed: Band, thresholdCm: real): (r: int)
    requires WellFormed(original) && WellFormed(reconstructed)
    ensures r == 0 || r == 1
    ensures !SameShape(original, reconstructed) ==> r == 1
    ensures SameShape(original, reconstructed) ==>
              (r == 0 <==> WithinTolerance(original, reconstructed, thresholdCm))
  {
    if original.height != reconstructed.height || original.width != reconstructed.width then 1
    else
      var differences := Differences(original, reconstructed);
      assert forall i, j :: 0 <= i < original.height && 0 <= j < original.width ==>
        differences[i][j] == Abs(original.cells[i][j] - reconstructed.cells[i][j]);
      if AnyExceeds(differences, thresholdCm / 100.0) then 1 else 0
  }

  // ---------------------------------------------------------------------------
  // Properties of the comparison

  /** Swapping the two rasters does not change the verdict. */
  lemma CompareSymmetric(a: Band, b: Band, thresholdCm: real)
    requires WellFormed(a) && WellFormed(b)
    ensures CompareTiffFiles(a, b, thresholdCm) == CompareTiffFiles(b, a, thresholdCm)
  {
    if SameShape(a, b) {
      forall i, j | 0 <= i < a.height && 0 <= j < a.width
        ensures Abs(a.cells[i][j] - b.cells[i][j]) == Abs(b.cells[i][j] - a.cells[i][j])
      {
      }
    }
  }

  /** A band compared with itself passes at every non-negative threshold. */
  lemma CompareReflexive(a: Band, thresholdCm: real)
    requires WellFormed(a) && thresholdCm >= 0.0
    ensures CompareTiffFiles(a, a, thresholdCm) == 0
  {
    assert thresholdCm / 100.0 >= 0.0;
    forall i, j | 0 <= i < a.height && 0 <= j < a.width
      ensures CellWithin(a.cells[i][j], a.cells[i][j], thresholdCm)
    {
    }
  }

  /** A pair that passes at one threshold passes at every larger one. */
  lemma ThresholdMonotone(a: Band, b: Band, t: real, t': real)
    requires WellFormed(a) && WellFormed(b) && t <= t'
    requires CompareTiffFiles(a, b, t) == 0
    ensures CompareTiffFiles(a, b, t') == 0
  {
    assert t / 100.0 <= t' / 100.0;
  }

  /** The test is strict: a difference of exactly the tolerance passes, and any cell
      strictly beyond it fails. */
  lemma ToleranceBoundary(a: Band, b: Band, thresholdCm: real, i: nat, j: nat)
    requires WellFormed(a) && WellFormed(b) && SameShape(a, b)
    requires i < a.height && j < a.width
    ensures Abs(a.cells[i][j] - b.cells[i][j]) > thresholdCm / 100.0 ==>
              CompareTiffFiles(a, b, thresholdCm) == 1
    ensures (forall i', j' :: 0 <= i' < a.height && 0 <= j' < a.width ==>
               Abs(a.cells[i'][j'] - b.cells[i'][j']) == thresholdCm / 100.0) ==>
              CompareTiffFiles(a, b, thresholdCm) == 0
  {
  }

  // ---------------------------------------------------------------------------
  // Worked scenarios

  /** A height x width band with every cell equal to v. */
  function Filled(height: nat, width: nat, v: real): (b: Band)
    ensures WellFormed(b) && b.height == height && b.width == width
    ensures forall i, j :: 0 <= i < height && 0 <= j < width ==> b.cells[i][j] == v
  {
    Band(height, width, seq(height, _ => seq(width, _ => v)))
  }

  /** A zero band except for the cell (row, col), which holds v. */
  function Spike(height: nat, width: nat, row: nat, col: nat, v: real): (b: Band)
    ensures WellFormed(b) && b.height == height && b.width == width
    ensures forall i, j :: 0 <= i < height && 0 <= j < width ==>
              b.cells[i][j] == (if i == row && j == col then v else 0.0)
  {
    Band(height, width,
         seq(height, i => seq(width, j => if i == row && j == col then v else 0.0)))
  }

  /** All zeros against all zeros but one cell at 0.02 m fails at the default 1 cm. */
  lemma OneCellTwoCentimetresOff(height: nat, width: nat, row: nat, col: nat)
    requires row < height && col < width
    ensures CompareTiffFiles(Filled(height, width, 0.0), Spike(height, width, row, col, 0.02), DefaultThresholdCm) == 1
  {
    var a, b := Filled(height, width, 0.0), Spike(height, width, row, col, 0.02);
    assert Abs(a.cells[row][col] - b.cells[row][col]) > DefaultThresholdCm / 100.0;
  }

  /** All zeros against all 0.005 m passes at the default 1 cm. */
  lemma EverywhereHalfCentimetreOff(height: nat, width: nat)
    ensures CompareTiffFiles(Filled(height, width, 0.0), Filled(height, width, 0.005), DefaultThresholdCm) == 0
  {
  }

  /** A 100 x 100 band against a 100 x 200 band fails whatever they hold and whatever
      the threshold. */
  lemma ShapeMismatchScenario(a: Band, b: Band, thresholdCm: real)
    requires WellFormed(a) && WellFormed(b)
    requires a.height == 100 && a.width == 100 && b.height == 100 && b.width == 200
    ensures CompareTiffFiles(a, b, thresholdCm) == 1
  {
  }
}
