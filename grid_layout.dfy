/** The layout of a 2-D lookup table file: a row-major matrix `[a x; y z]`
    whose first row (after the dummy corner `a`) is the x axis, whose first
    column (after the corner) is the y axis, and whose bottom-right block `z`
    holds the grid values, `f(x(j), y(i)) = z(i, j)`. */
module GridLayout {
  import opened Sequences

  /** The table kept for interpolation: axes `x` (n values) and `y` (m values)
      and the grid values `f`, row-major, `f[i * n + j]` at `(x(j), y(i))`. */
  datatype Table = Table(x: seq<real>, y: seq<real>, f: seq<real>)

  /** `|f| == m * n`: the size invariant the constructor asserts as
      `n * m == f.length()` and the writer asserts as `n * m == k`. */
  ghost predicate WellShaped(t: Table)
  {
    |t.f| == |t.y| * |t.x|
  }

  /** The body of the table as a matrix: row `i` holds `f(x(0), y(i)) .. f(x(n - 1), y(i))`. */
  function Body(t: Table): (z: seq<seq<real>>)
    requires WellShaped(t)
    ensures |z| == |t.y| && Uniform(z, |t.x|)
  {
    Chunks(t.f, |t.y|, |t.x|)
  }

  /** The reader's cut of a matrix with at least one row and one column: row 0
      without its corner is x, column 0 without its corner is y, and the
      bottom-right block, row-major, is f. */
  function Cut(grid: seq<seq<real>>, cols: nat): (t: Table)
    requires |grid| >= 1 && cols >= 1 && Uniform(grid, cols)
    ensures |t.x| == cols - 1 && |t.y| == |grid| - 1 && WellShaped(t)
  {
    var block := seq(|grid| - 1, i requires 0 <= i < |grid| - 1 => grid[i + 1][1..]);
    ChunksFlatten(block, cols - 1);
    Table(grid[0][1..], seq(|grid| - 1, i requires 0 <= i < |grid| - 1 => grid[i + 1][0]), Flatten(block))
  }

  /** The cut applied to the row-major `rows`-by-`cols` matrix held in `data`. */
  function Split(data: seq<real>, rows: nat, cols: nat): (t: Table)
    requires 1 <= rows && 1 <= cols && |data| == rows * cols
    ensures |t.x| == cols - 1 && |t.y| == rows - 1 && WellShaped(t)
  {
    Cut(Chunks(data, rows, cols), cols)
  }

  /** Each piece of the cut, entry by entry, in the matrix view of `data`
      (entry `(i, j)` of that view is `data[i * cols + j]`, by `ChunksIndex`). */
  lemma SplitEntries(data: seq<real>, rows: nat, cols: nat)
    requires 1 <= rows && 1 <= cols && |data| == rows * cols
    ensures var t, grid := Split(data, rows, cols), Chunks(data, rows, cols);
      && (forall j :: 0 <= j < cols - 1 ==> t.x[j] == grid[0][j + 1])
      && (forall i :: 0 <= i < rows - 1 ==> t.y[i] == grid[i + 1][0])
      && (forall i, j :: 0 <= i < rows - 1 && 0 <= j < cols - 1 ==> Body(t)[i][j] == grid[i + 1][j + 1])
  {
    var grid := Chunks(data, rows, cols);
    var block := seq(rows - 1, i requires 0 <= i < rows - 1 => grid[i + 1][1..]);
    ChunksFlatten(block, cols - 1);
  }

  /** Entry `(i, j)` of the body is `f[i * n + j]`. */
  lemma BodyIndex(t: Table, i: nat, j: nat)
    requires WellShaped(t) && i < |t.y| && j < |t.x|
    ensures 0 <= i * |t.x| && i * |t.x| + j < |t.f| && Body(t)[i][j] == t.f[i * |t.x| + j]
  {
    ChunksIndex(t.f, |t.y|, |t.x|, i, j);
  }

  /** The index law of the cut, on flat indices: `x(j)` is `data[j + 1]`,
      `y(i)` is `data[(i + 1) * cols]`, and `f[i * n + j]` (with `n = cols - 1`)
      is `data[(i + 1) * cols + (j + 1)]`. */
  lemma SplitIndexLaw(data: seq<real>, rows: nat, cols: nat, i: nat, j: nat)
    requires 1 <= rows && 1 <= cols && |data| == rows * cols
    requires i < rows - 1 && j < cols - 1
    ensures var t := Split(data, rows, cols); var n := |t.x|;
      && 0 <= i * n && 0 <= (i + 1) * cols
      && i * n + j < |t.f| && (i + 1) * cols + (j + 1) < |data|
      && t.x[j] == data[j + 1]
      && t.y[i] == data[(i + 1) * cols]
      && t.f[i * n + j] == data[(i + 1) * cols + (j + 1)]
  {
    SplitX(data, rows, cols, j);
    SplitY(data, rows, cols, i);
    SplitF(data, rows, cols, i, j);
  }

  /** `x(j)` is `data[j + 1]`. */
  lemma SplitX(data: seq<real>, rows: nat, cols: nat, j: nat)
    requires 1 <= rows && 1 <= cols && |data| == rows * cols && j < cols - 1
    ensures j + 1 < |data| && Split(data, rows, cols).x[j] == data[j + 1]
  {
    var grid := Chunks(data, rows, cols);
    ChunksIndex(data, rows, cols, 0, j + 1);
    assert 0 * cols + (j + 1) == j + 1;
    assert Split(data, rows, cols).x[j] == grid[0][j + 1] by {
      SplitEntries(data, rows, cols);
    }
  }

  /** `y(i)` is `data[(i + 1) * cols]`. */
  lemma SplitY(data: seq<real>, rows: nat, cols: nat, i: nat)
    requires 1 <= rows && 1 <= cols && |data| == rows * cols && i < rows - 1
    ensures 0 <= (i + 1) * cols < |data| && Split(data, rows, cols).y[i] == data[(i + 1) * cols]
  {
    var grid := Chunks(data, rows, cols);
    ChunksIndex(data, rows, cols, i + 1, 0);
    assert (i + 1) * cols + 0 == (i + 1) * cols;
    assert Split(data, rows, cols).y[i] == grid[i + 1][0] by {
      SplitEntries(data, rows, cols);
    }
  }

  /** `f[i * n + j]` is `data[(i + 1) * cols + (j + 1)]`. */
  lemma SplitF(data: seq<real>, rows: nat, cols: nat, i: nat, j: nat)
    requires 1 <= rows && 1 <= cols && |data| == rows * cols
    requires i < rows - 1 && j < cols - 1
    ensures var t := Split(data, rows, cols); var n := |t.x|;
      && 0 <= i * n && 0 <= (i + 1) * cols
      && i * n + j < |t.f| && (i + 1) * cols + (j + 1) < |data|
      && t.f[i * n + j] == data[(i + 1) * cols + (j + 1)]
  {
    var t := Split(data, rows, cols);
    var grid := Chunks(data, rows, cols);
    ChunksIndex(data, rows, cols, i + 1, j + 1);
    BodyIndex(t, i, j);
    assert Body(t)[i][j] == grid[i + 1][j + 1] by {
      SplitEntries(data, rows, cols);
    }
  }

  /** The `(m + 1)`-by-`(n + 1)` matrix the writer fills: a zero corner, x
      along row 0, y down column 0, and the body in the block below-right. */
  function Layout(t: Table): (out: seq<seq<real>>)
    requires WellShaped(t)
    ensures |out| == |t.y| + 1 && Uniform(out, |t.x| + 1)
  {
    var z := Body(t);
    [[0.0] + t.x] + seq(|t.y|, i requires 0 <= i < |t.y| => [t.y[i]] + z[i])
  }

  /** The writer's matrix, row-major. */
  function Assemble(t: Table): (data: seq<real>)
    requires WellShaped(t)
    ensures |data| == (|t.y| + 1) * (|t.x| + 1)
    ensures Chunks(data, |t.y| + 1, |t.x| + 1) == Layout(t)
  {
    ChunksFlatten(Layout(t), |t.x| + 1);
    Flatten(Layout(t))
  }

  /** The writer's layout entry by entry: `(0, 0)` is 0, `(0, j + 1)` is x(j),
      `(i + 1, 0)` is y(i), and `(i + 1, j + 1)` is entry `(i, j)` of the body,
      that is `f[i * n + j]`. */
  lemma LayoutEntries(t: Table)
    requires WellShaped(t)
    ensures var n, m, out := |t.x|, |t.y|, Layout(t);
      && out[0][0] == 0.0
      && (forall j :: 0 <= j < n ==> out[0][j + 1] == t.x[j])
      && (forall i :: 0 <= i < m ==> out[i + 1][0] == t.y[i])
      && (forall i, j :: 0 <= i < m && 0 <= j < n ==> out[i + 1][j + 1] == Body(t)[i][j])
  {
    var out := Layout(t);
    forall i | 0 <= i < |t.y|
      ensures out[i + 1] == [t.y[i]] + Body(t)[i]
    {
    }
  }

  /** Reading back what the writer lays out gives the same axes and values. */
  lemma SplitAssemble(t: Table)
    requires WellShaped(t)
    ensures Split(Assemble(t), |t.y| + 1, |t.x| + 1) == t
  {
    var n, m := |t.x|, |t.y|;
    var out := Layout(t);
    var block := seq(m, i requires 0 <= i < m => out[i + 1][1..]);
    forall i | 0 <= i < m
      ensures block[i] == Body(t)[i]
    {
      assert out[i + 1] == [t.y[i]] + Body(t)[i];
    }
    assert block == Body(t);
    FlattenChunks(t.f, m, n);
    var c := Cut(out, n + 1);
    assert c.f == t.f;
    assert c.x == t.x;
    assert c.y == t.y;
  }

  /** Overwriting the first element of a sequence overwrites entry `(0, 0)` of its matrix view. */
  lemma ChunksUpdateCorner(data: seq<real>, rows: nat, cols: nat, v: real)
    requires 1 <= rows && 1 <= cols && |data| == rows * cols
    ensures var grid := Chunks(data, rows, cols);
      Chunks(data[0 := v], rows, cols) == grid[0 := grid[0][0 := v]]
  {
    MulSucc(rows - 1, cols);
    assert data[0 := v][..cols] == data[..cols][0 := v];
    assert data[0 := v][cols..] == data[cols..];
  }

  /** Laying out what the reader cuts gives the matrix back, with its dummy
      corner replaced by 0. */
  lemma AssembleSplit(data: seq<real>, rows: nat, cols: nat)
    requires 1 <= rows && 1 <= cols && |data| == rows * cols
    ensures Assemble(Split(data, rows, cols)) == data[0 := 0.0]
  {
    var t := Split(data, rows, cols);
    var out, want := Layout(t), Chunks(data[0 := 0.0], rows, cols);
    forall i | 0 <= i < rows
      ensures out[i] == want[i]
    {
      forall j | 0 <= j < cols
        ensures out[i][j] == want[i][j]
      {
        AssembleSplitEntry(data, rows, cols, i, j);
      }
    }
    assert out == want;
    FlattenChunks(Assemble(t), rows, cols);
    FlattenChunks(data[0 := 0.0], rows, cols);
  }

  /** `AssembleSplit` for one entry of the matrix view. */
  lemma AssembleSplitEntry(data: seq<real>, rows: nat, cols: nat, i: nat, j: nat)
    requires 1 <= rows && 1 <= cols && |data| == rows * cols
    requires i < rows && j < cols
    ensures Layout(Split(data, rows, cols))[i][j] == Chunks(data[0 := 0.0], rows, cols)[i][j]
  {
    var t := Split(data, rows, cols);
    var out := Layout(t);
    SplitEntries(data, rows, cols);
    LayoutEntries(t);
    ChunksUpdateCorner(data, rows, cols, 0.0);
    if i == 0 && j == 0 {
    } else if i == 0 {
      assert out[0][(j - 1) + 1] == t.x[j - 1];
    } else if j == 0 {
      assert out[(i - 1) + 1][0] == t.y[i - 1];
    } else {
      assert out[(i - 1) + 1][(j - 1) + 1] == Body(t)[i - 1][j - 1];
    }
  }

  /** Every later value exceeds every earlier one. */
  ghost predicate StrictlyIncreasing(v: seq<real>)
  {
    forall i, j :: 0 <= i < j < |v| ==> v[i] < v[j]
  }

  /** Consecutive differences `v[k + 1] - v[k]`, the vectorised
      `bottomRows(n - 1) - topRows(n - 1)`. */
  function Differences(v: seq<real>): (d: seq<real>)
    requires |v| >= 1
    ensures |d| == |v| - 1
    ensures forall k :: 0 <= k < |d| ==> v[k] + d[k] == v[k + 1]
  {
    seq(|v| - 1, k requires 0 <= k < |v| - 1 => v[k + 1] - v[k])
  }

  /** Whether `v` (at least two values) is sorted: every consecutive
      difference is positive, so equal neighbours make it false. */
  function IsSorted(v: seq<real>): (sorted: bool)
    requires |v| > 1
    ensures sorted <==> StrictlyIncreasing(v)
  {
    var temp := Differences(v);
    assert forall k :: 0 <= k < |temp| ==> temp[k] == v[k + 1] - v[k];
    ConsecutiveIncreasing(v, |v|);
    forall k :: 0 <= k < |temp| ==> temp[k] > 0.0
  }

  /** Positive consecutive differences on a prefix make the prefix strictly increasing. */
  lemma {:induction false} ConsecutiveIncreasing(v: seq<real>, len: nat)
    requires len <= |v|
    ensures (forall k :: 0 <= k < len - 1 ==> v[k + 1] - v[k] > 0.0) <==>
            (forall i, j :: 0 <= i < j < len ==> v[i] < v[j])
    decreases len
  {
    if len > 1 && forall k :: 0 <= k < len - 1 ==> v[k + 1] - v[k] > 0.0 {
      ConsecutiveIncreasing(v, len - 1);
      forall i, j | 0 <= i < j < len
        ensures v[i] < v[j]
      {
        if j < len - 1 {
        } else if i < j - 1 {
          assert v[i] < v[j - 1];
          assert v[j] - v[j - 1] > 0.0;
        } else {
          assert v[j] - v[j - 1] > 0.0;
        }
      }
    } else if len > 1 {
      assert exists k :: 0 <= k < len - 1 && !(v[k + 1] - v[k] > 0.0);
      var k :| 0 <= k < len - 1 && !(v[k + 1] - v[k] > 0.0);
      assert !(v[k] < v[k + 1]);
    }
  }
}
