/** The sampling grid of `OnFindInterestingFeatures`: a feature is taken at
    every `(stepX, stepY)` grid point of the image, row by row, and the
    matches are then scored twice — once with the interesting threshold to
    cull, once with threshold 0 to renormalise.

    Feature extraction (`GetFeature`) is a parameter: `None` stands for a
    call that wrote to the shared error stream. That stream is never
    cleared, so after the first failure every later grid point is refused
    too, and the matches are the row-major grid points before the first
    failure. */
module FeatureGrid {
  import opened Wrappers
  import opened InterestingFeatures

  /** The grid points of row `y` from column `x` on. */
  function RowFrom(x: int, y: int, width: int, stepX: int): (row: seq<Coord>)
    requires stepX > 0
    ensures forall i :: 0 <= i < |row| ==> row[i].y == y && x <= row[i].x < width
    decreases width - x
  {
    if x >= width then [] else [Coord(x, y)] + RowFrom(x + stepX, y, width, stepX)
  }

  /** The grid points of the rows from `y` on, row by row. */
  function GridFrom(y: int, width: int, height: int, stepX: int, stepY: int): (grid: seq<Coord>)
    requires stepX > 0 && stepY > 0
    ensures forall i :: 0 <= i < |grid| ==> y <= grid[i].y < height && 0 <= grid[i].x < width
    decreases height - y
  {
    if y >= height then []
    else RowFrom(0, y, width, stepX) + GridFrom(y + stepY, width, height, stepX, stepY)
  }

  function Grid(width: int, height: int, stepX: int, stepY: int): seq<Coord>
    requires stepX > 0 && stepY > 0
  {
    GridFrom(0, width, height, stepX, stepY)
  }

  /** A fresh grid match: no source coordinate yet and score 0. */
  function NewMatch<K>(c: Coord, feature: K): FeatureMatch<K> {
    FeatureMatch(c, Coord(-1, -1), feature, 0.0)
  }

  /** The matches for `coords` up to the first point extraction refuses. */
  function TakeExtracted<K>(coords: seq<Coord>, extract: (int, int) -> Option<K>): (r: seq<FeatureMatch<K>>)
    ensures |r| <= |coords|
  {
    if |coords| == 0 then []
    else
      match extract(coords[0].x, coords[0].y)
      case None => []
      case Some(feature) => [NewMatch(coords[0], feature)] + TakeExtracted(coords[1..], extract)
  }

  /** The matches are the points of `coords` in order, each with its
      extracted feature, up to (not including) the first point that
      extraction refuses. */
  lemma {:induction false} TakeExtractedIsPrefix<K>(coords: seq<Coord>, extract: (int, int) -> Option<K>)
    ensures var r := TakeExtracted(coords, extract);
      (forall i :: 0 <= i < |r| ==>
        extract(coords[i].x, coords[i].y).Some? &&
        r[i] == NewMatch(coords[i], extract(coords[i].x, coords[i].y).value)) &&
      (|r| < |coords| ==> extract(coords[|r|].x, coords[|r|].y).None?)
  {
    if |coords| > 0 && extract(coords[0].x, coords[0].y).Some? {
      TakeExtractedIsPrefix(coords[1..], extract);
    }
  }

  lemma {:induction false} TakeExtractedStops<K>(a: seq<Coord>, b: seq<Coord>, extract: (int, int) -> Option<K>)
    requires |TakeExtracted(a, extract)| < |a|
    ensures TakeExtracted(a + b, extract) == TakeExtracted(a, extract)
  {
    if extract(a[0].x, a[0].y).Some? {
      assert (a + b)[1..] == a[1..] + b;
      TakeExtractedStops(a[1..], b, extract);
    }
  }

  lemma {:induction false} TakeExtractedAppend<K>(a: seq<Coord>, c: Coord, extract: (int, int) -> Option<K>)
    requires |TakeExtracted(a, extract)| == |a|
    ensures TakeExtracted(a + [c], extract) ==
      match extract(c.x, c.y)
      case None => TakeExtracted(a, extract)
      case Some(feature) => TakeExtracted(a, extract) + [NewMatch(c, feature)]
  {
    if |a| > 0 {
      assert (a + [c])[1..] == a[1..] + [c];
      TakeExtractedAppend(a[1..], c, extract);
    }
  }

  /** The source's nested grid loops. `stepX` and `stepY` must be positive.
      A 0 step divides by zero when the buffer is reserved, a negative row
      step never ends the outer loop, and a negative column step ends its
      row only at the first refusal. */
  method SampleGrid<K>(width: int, height: int, stepX: int, stepY: int, extract: (int, int) -> Option<K>)
    returns (matches: seq<FeatureMatch<K>>)
    requires stepX > 0 && stepY > 0
    ensures matches == TakeExtracted(Grid(width, height, stepX, stepY), extract)
  {
    matches := [];
    var failed := false;
    ghost var done: seq<Coord> := [];
    var y := 0;
    while y < height
      invariant done + GridFrom(y, width, height, stepX, stepY) == Grid(width, height, stepX, stepY)
      invariant matches == TakeExtracted(done, extract)
      invariant failed <==> |matches| < |done|
      decreases height - y
    {
      matches, failed := SampleRow(done, matches, failed, y, width, stepX, extract);
      assert GridFrom(y, width, height, stepX, stepY)
        == RowFrom(0, y, width, stepX) + GridFrom(y + stepY, width, height, stepX, stepY);
      Associative(done, RowFrom(0, y, width, stepX), GridFrom(y + stepY, width, height, stepX, stepY));
      done := done + RowFrom(0, y, width, stepX);
      y := y + stepY;
    }
    assert done + [] == done;
  }

  /** The inner loop over one row: it appends matches until extraction
      fails, and once the shared error is set it takes nothing more. */
  method SampleRow<K>(ghost done: seq<Coord>, matches: seq<FeatureMatch<K>>, failed: bool,
                      y: int, width: int, stepX: int, extract: (int, int) -> Option<K>)
    returns (matches': seq<FeatureMatch<K>>, failed': bool)
    requires stepX > 0
    requires matches == TakeExtracted(done, extract)
    requires failed <==> |matches| < |done|
    ensures matches' == TakeExtracted(done + RowFrom(0, y, width, stepX), extract)
    ensures failed' <==> |matches'| < |done + RowFrom(0, y, width, stepX)|
  {
    matches', failed' := matches, failed;
    ghost var rowDone: seq<Coord> := [];
    assert done + rowDone == done;
    var x := 0;
    while x < width
      invariant rowDone + RowFrom(x, y, width, stepX) == RowFrom(0, y, width, stepX)
      invariant matches' == TakeExtracted(done + rowDone, extract)
      invariant failed' <==> |matches'| < |done + rowDone|
      decreases width - x
    {
      var feature := extract(x, y);
      if feature.None? {
        failed' := true;
      }
      if failed' {
        assert RowFrom(x, y, width, stepX) == [Coord(x, y)] + RowFrom(x + stepX, y, width, stepX);
        StopRow(done + rowDone, Coord(x, y), RowFrom(x + stepX, y, width, stepX), extract);
        Associative(done, rowDone, RowFrom(x, y, width, stepX));
        return;
      }
      TakeExtractedAppend(done + rowDone, Coord(x, y), extract);
      matches' := matches' + [NewMatch(Coord(x, y), feature.value)];
      Associative(done, rowDone, [Coord(x, y)]);
      rowDone := rowDone + [Coord(x, y)];
      x := x + stepX;
    }
    assert rowDone == RowFrom(0, y, width, stepX);
  }

  lemma Associative<T>(a: seq<T>, b: seq<T>, c: seq<T>)
    ensures a + b + c == a + (b + c)
  {
  }

  /** Once the point `c` fails, or an earlier one did, nothing more of the
      row or the grid is taken. */
  lemma StopRow<K>(visited: seq<Coord>, c: Coord, rest: seq<Coord>, extract: (int, int) -> Option<K>)
    requires |TakeExtracted(visited, extract)| < |visited| || extract(c.x, c.y).None?
    ensures TakeExtracted(visited + ([c] + rest), extract) == TakeExtracted(visited, extract)
    ensures |TakeExtracted(visited, extract)| < |visited + ([c] + rest)|
  {
    assert visited + ([c] + rest) == (visited + [c]) + rest;
    if |TakeExtracted(visited, extract)| < |visited| {
      TakeExtractedStops(visited, [c] + rest, extract);
    } else {
      TakeExtractedAppend(visited, c, extract);
      TakeExtractedStops(visited + [c], rest, extract);
    }
  }

  /** A grid point is exactly a coordinate inside the image that is a whole
      number of steps from the origin on both axes. */
  lemma GridMembership(width: int, height: int, stepX: int, stepY: int, c: Coord)
    requires stepX > 0 && stepY > 0
    ensures c in Grid(width, height, stepX, stepY) <==>
      0 <= c.x < width && c.x % stepX == 0 && 0 <= c.y < height && c.y % stepY == 0
  {
    GridFromMembership(0, width, height, stepX, stepY, c);
  }

  lemma {:induction false} GridFromMembership(y: int, width: int, height: int, stepX: int, stepY: int, c: Coord)
    requires stepX > 0 && stepY > 0
    ensures c in GridFrom(y, width, height, stepX, stepY) <==>
      0 <= c.x < width && c.x % stepX == 0 && y <= c.y < height && (c.y - y) % stepY == 0
    decreases height - y
  {
    if y < height {
      GridFromMembership(y + stepY, width, height, stepX, stepY, c);
      RowFromMembership(0, c.y, width, stepX, c);
      RowFromMembership(0, y, width, stepX, c);
      StepModulus(c.y - y, stepY);
    }
  }

  lemma {:induction false} RowFromMembership(x: int, y: int, width: int, stepX: int, c: Coord)
    requires stepX > 0
    ensures c in RowFrom(x, y, width, stepX) <==>
      c.y == y && x <= c.x < width && (c.x - x) % stepX == 0
    decreases width - x
  {
    if x < width {
      RowFromMembership(x + stepX, y, width, stepX, c);
      StepModulus(c.x - x, stepX);
    }
  }

  /** A non-negative distance is a whole number of steps when it is zero or
      one step plus a whole number of steps. */
  lemma StepModulus(d: int, step: int)
    requires step > 0
    ensures d >= 0 ==> (d % step == 0 <==> d == 0 || (d >= step && (d - step) % step == 0))
  {
    if 0 < d < step {
      ModulusOf(d, step, 0, d);
    } else if d >= step {
      var q := (d - step) / step;
      var r := (d - step) % step;
      assert d == (q + 1) * step + r;
      ModulusOf(d, step, q + 1, r);
    }
  }

  /** Euclidean division leaves a unique remainder. */
  lemma ModulusOf(d: int, step: int, q: int, r: int)
    requires step > 0 && d == q * step + r && 0 <= r < step
    ensures d % step == r
  {
    var q', r' := d / step, d % step;
    assert (q - q') * step == r' - r;
    if q > q' {
      AtLeastOneStep(q - q', step);
    } else if q < q' {
      assert (q' - q) * step == r - r';
      AtLeastOneStep(q' - q, step);
    }
  }

  lemma AtLeastOneStep(k: int, step: int)
    requires k >= 1 && step > 0
    ensures k * step >= step
  {
    assert k * step == (k - 1) * step + step;
  }

  /** `a` comes before `b` in row-major order. */
  predicate Before(a: Coord, b: Coord) {
    a.y < b.y || (a.y == b.y && a.x < b.x)
  }

  predicate RowMajor(coords: seq<Coord>) {
    forall i, j :: 0 <= i < j < |coords| ==> Before(coords[i], coords[j])
  }

  lemma RowMajorConcat(a: seq<Coord>, b: seq<Coord>)
    requires RowMajor(a) && RowMajor(b)
    requires forall i, j :: 0 <= i < |a| && 0 <= j < |b| ==> Before(a[i], b[j])
    ensures RowMajor(a + b)
  {
    forall i, j | 0 <= i < j < |a + b|
      ensures Before((a + b)[i], (a + b)[j])
    {
      if j < |a| {
      } else if i >= |a| {
        assert (a + b)[i] == b[i - |a|] && (a + b)[j] == b[j - |a|];
      }
    }
  }

  lemma {:induction false} RowFromIsRowMajor(x: int, y: int, width: int, stepX: int)
    requires stepX > 0
    ensures RowMajor(RowFrom(x, y, width, stepX))
    decreases width - x
  {
    if x < width {
      RowFromIsRowMajor(x + stepX, y, width, stepX);
      RowMajorConcat([Coord(x, y)], RowFrom(x + stepX, y, width, stepX));
    }
  }

  /** The grid is visited strictly in row-major order: row by row, and left
      to right within a row. */
  lemma {:induction false} GridFromIsRowMajor(y: int, width: int, height: int, stepX: int, stepY: int)
    requires stepX > 0 && stepY > 0
    ensures RowMajor(GridFrom(y, width, height, stepX, stepY))
    decreases height - y
  {
    if y < height {
      RowFromIsRowMajor(0, y, width, stepX);
      GridFromIsRowMajor(y + stepY, width, height, stepX, stepY);
      RowMajorConcat(RowFrom(0, y, width, stepX), GridFrom(y + stepY, width, height, stepX, stepY));
    }
  }

  /** The features of the image after both scoring passes: cull with the
      interesting threshold, then rescore with threshold 0. */
  function FindInterestingFeatures<K(==)>(width: int, height: int, stepX: int, stepY: int, minScore: real,
                                          extract: (int, int) -> Option<K>): seq<FeatureMatch<K>>
    requires stepX > 0 && stepY > 0
  {
    var matches := TakeExtracted(Grid(width, height, stepX, stepY), extract);
    ScoreInteresting(ScoreInteresting(matches, minScore), 0.0)
  }

  /** The sampling and the two scoring passes, as the job handler runs them. */
  method SampleAndScore<K(==)>(width: int, height: int, stepX: int, stepY: int, minScore: real,
                               extract: (int, int) -> Option<K>)
    returns (features: seq<FeatureMatch<K>>)
    requires stepX > 0 && stepY > 0
    ensures features == FindInterestingFeatures(width, height, stepX, stepY, minScore, extract)
  {
    var matches := SampleGrid(width, height, stepX, stepY, extract);
    features := ScoreInterestingFeatures(matches, minScore);
    features := ScoreInterestingFeatures(features, 0.0);
  }

  /** The second pass removes nothing: it only renormalises the scores of
      the survivors of the first, so the survivors keep their sampling
      order and every reported score lies in [0, 1]. */
  lemma SecondPassOnlyRescores<K>(width: int, height: int, stepX: int, stepY: int, minScore: real,
                                  extract: (int, int) -> Option<K>)
    requires stepX > 0 && stepY > 0
    ensures var matches := TakeExtracted(Grid(width, height, stepX, stepY), extract);
      var survivors := ScoreInteresting(matches, minScore);
      var features := FindInterestingFeatures(width, height, stepX, stepY, minScore, extract);
      features == Rescored(survivors) &&
      (forall i :: 0 <= i < |features| ==> 0.0 <= features[i].score <= 1.0) &&
      IsSubsequence(survivors, Rescored(matches))
  {
    var matches := TakeExtracted(Grid(width, height, stepX, stepY), extract);
    NormalisingPass(ScoreInteresting(matches, minScore));
    CullIsSubsequence(Rescored(matches), minScore);
  }
}
