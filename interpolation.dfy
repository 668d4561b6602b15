/** The lookup-table object of the solver's transport coefficients: it reads a
    grid file into axes x, y and row-major grid values f, checks that the axes
    increase, and writes the grid back as one matrix. */
module Interpolation {
  import opened Wrappers
  import opened Sequences
  import opened CsvText
  import opened GridLayout

  /** The per-axis transformations a table may be stored under. */
  datatype DataTransform = NoTransform | Inverse | Log

  /** The element-wise transformation of a vector or of a row-major matrix.
      The floating-point kernels (`array().inverse()`, `array().log()`) are
      parameters. */
  function ApplyTransform(a: seq<real>, trans: DataTransform, inverse: real -> real, log: real -> real): (r: seq<real>)
    ensures |r| == |a|
    ensures trans == NoTransform ==> r == a
    ensures trans == Inverse ==> forall k :: 0 <= k < |a| ==> r[k] == inverse(a[k])
    ensures trans == Log ==> forall k :: 0 <= k < |a| ==> r[k] == log(a[k])
  {
    if trans == Inverse then seq(|a|, k requires 0 <= k < |a| => inverse(a[k]))
    else if trans == Log then seq(|a|, k requires 0 <= k < |a| => log(a[k]))
    else a
  }

  datatype Axis = XAxis | YAxis

  /** Why a grid file is refused. In the source each of these is an exception
      of `std::stod` or a failed `assert`. */
  datatype ReadError =
    | ParseFailure            // a chunk is not a number
    | SizeMismatch            // the value count is not rows * cols
    | NoData                  // no data line at all: there is no row 0 to cut
    | AxisTooShort(axis: Axis)  // fewer than two values on an axis
    | AxisNotSorted(axis: Axis) // an axis is not strictly increasing

  /** The column count: the number of chunks on the first data line. */
  function Cols(dl: seq<string>): (c: nat)
    ensures dl == [] ==> c == 0
    ensures dl != [] && IsDataLine(dl[0]) ==> c >= 1
  {
    if dl == [] then 0 else |Tokens(dl[0])|
  }

  /** The chunks counted by `Cols` are the first chunks of the file: `cols` is
      `data.size()` once the first data line is read. */
  lemma ColsFirstChunks(dl: seq<string>)
    requires dl != []
    ensures Cols(dl) <= |TokensOf(dl)| && TokensOf(dl)[..Cols(dl)] == Tokens(dl[0])
  {
    TokensOfAround([], dl[0], dl[1..]);
    assert [] + [dl[0]] + dl[1..] == dl;
  }

  /** The sortedness checks on the cut, x before y, each preceded by the
      two-value minimum that `isSorted` asserts. */
  function CheckAxes(t: Table): (r: Result<Table, ReadError>)
    ensures r.Ok? <==> |t.x| >= 2 && StrictlyIncreasing(t.x) && |t.y| >= 2 && StrictlyIncreasing(t.y)
    ensures r.Ok? ==> r.value == t
    ensures |t.x| <= 1 ==> r == Err(AxisTooShort(XAxis))
    ensures |t.x| >= 2 && !StrictlyIncreasing(t.x) ==> r == Err(AxisNotSorted(XAxis))
    ensures |t.x| >= 2 && StrictlyIncreasing(t.x) && |t.y| <= 1 ==> r == Err(AxisTooShort(YAxis))
    ensures |t.x| >= 2 && StrictlyIncreasing(t.x) && |t.y| >= 2 && !StrictlyIncreasing(t.y) ==> r == Err(AxisNotSorted(YAxis))
  {
    if |t.x| <= 1 then Err(AxisTooShort(XAxis))
    else if !IsSorted(t.x) then Err(AxisNotSorted(XAxis))
    else if |t.y| <= 1 then Err(AxisTooShort(YAxis))
    else if !IsSorted(t.y) then Err(AxisNotSorted(YAxis))
    else Ok(t)
  }

  /** What reading the file `lines` yields: the values of all chunks of the
      data lines, row-major, cut into axes and body once the total count is
      rows * cols and both axes increase. */
  function Read(lines: seq<string>, parse: string -> Option<real>): (r: Result<Table, ReadError>)
    ensures r.Ok? ==> WellShaped(r.value) && |r.value.x| >= 2 && |r.value.y| >= 2
    ensures r.Ok? ==> StrictlyIncreasing(r.value.x) && StrictlyIncreasing(r.value.y)
    ensures ParseAll(TokensOf(DataLines(lines)), parse).None? ==> r == Err(ParseFailure)
  {
    var dl := DataLines(lines);
    match ParseAll(TokensOf(dl), parse)
    case None => Err(ParseFailure)
    case Some(data) =>
      if |data| != |dl| * Cols(dl) then Err(SizeMismatch)
      else if |dl| == 0 then Err(NoData)
      else CheckAxes(Split(data, |dl|, Cols(dl)))
  }

  /** A table that was read meets what the spline construction asserts
      (`n * m == |f|`, at least two sites per axis) and has strictly
      increasing axes; its rows and columns are those of the file's values. */
  lemma ReadTable(lines: seq<string>, parse: string -> Option<real>, t: Table)
    requires Read(lines, parse) == Ok(t)
    ensures var dl := DataLines(lines);
      && ParseAll(TokensOf(dl), parse).Some?
      && |dl| == |t.y| + 1 && Cols(dl) == |t.x| + 1
      && |ParseAll(TokensOf(dl), parse).value| == |dl| * Cols(dl)
      && Split(ParseAll(TokensOf(dl), parse).value, |dl|, Cols(dl)) == t
    ensures |t.x| >= 2 && |t.y| >= 2 && WellShaped(t)
    ensures StrictlyIncreasing(t.x) && StrictlyIncreasing(t.y)
  {
  }

  /** The index law: with `data` the file's values row-major and `cols` the
      column count, `x(j)` is entry `(0, j + 1)`, `y(i)` is entry `(i + 1, 0)`,
      and `f[i * n + j]` is entry `(i + 1, j + 1)`, the value at `(x(j), y(i))`. */
  lemma ReadIndexLaw(lines: seq<string>, parse: string -> Option<real>, t: Table, i: nat, j: nat)
    requires Read(lines, parse) == Ok(t)
    requires i < |t.y| && j < |t.x|
    ensures ParseAll(TokensOf(DataLines(lines)), parse).Some?
    ensures var data, n, cols := ParseAll(TokensOf(DataLines(lines)), parse).value, |t.x|, Cols(DataLines(lines));
      && 0 <= i * n && 0 <= (i + 1) * cols
      && i * n + j < |t.f| && (i + 1) * cols + (j + 1) < |data|
      && t.x[j] == data[j + 1]
      && t.y[i] == data[(i + 1) * cols]
      && t.f[i * n + j] == data[(i + 1) * cols + (j + 1)]
  {
    var dl := DataLines(lines);
    ReadTable(lines, parse, t);
    SplitIndexLaw(ParseAll(TokensOf(dl), parse).value, |dl|, Cols(dl), i, j);
  }

  /** For a rectangular file (every data line has `cols` chunks) the table is
      the file's text: `x(j)` is chunk `j + 1` of the first data line, `y(i)`
      chunk 0 of data line `i + 1`, and `f[i * n + j]` chunk `j + 1` of data
      line `i + 1`. */
  lemma ReadGridText(lines: seq<string>, parse: string -> Option<real>, t: Table, i: nat, j: nat)
    requires Read(lines, parse) == Ok(t)
    requires forall k :: 0 <= k < |DataLines(lines)| ==> |Tokens(DataLines(lines)[k])| == Cols(DataLines(lines))
    requires i < |t.y| && j < |t.x|
    ensures var dl, n := DataLines(lines), |t.x|;
      && i + 1 < |dl| && j + 1 < |Tokens(dl[0])| && j + 1 < |Tokens(dl[i + 1])|
      && 0 <= i * n && i * n + j < |t.f|
      && parse(Tokens(dl[0])[j + 1]) == Some(t.x[j])
      && parse(Tokens(dl[i + 1])[0]) == Some(t.y[i])
      && parse(Tokens(dl[i + 1])[j + 1]) == Some(t.f[i * n + j])
  {
    var dl := DataLines(lines);
    var data := ParseAll(TokensOf(dl), parse).value;
    ReadTable(lines, parse, t);
    GridTextX(dl, parse, data, Cols(dl), t, i, j);
    GridTextY(dl, parse, data, Cols(dl), t, i, j);
    GridTextF(dl, parse, data, Cols(dl), t, i, j);
  }

  /** `ReadGridText` for x, on the file's values `data` cut as a `|dl|`-by-`cols` matrix. */
  lemma GridTextX(dl: seq<string>, parse: string -> Option<real>, data: seq<real>, cols: nat, t: Table, i: nat, j: nat)
    requires forall k :: 0 <= k < |dl| ==> |Tokens(dl[k])| == cols
    requires ParseAll(TokensOf(dl), parse) == Some(data)
    requires 1 <= |dl| && 1 <= cols && |data| == |dl| * cols && Split(data, |dl|, cols) == t
    requires i < |t.y| && j < |t.x|
    ensures j + 1 < cols && parse(Tokens(dl[0])[j + 1]) == Some(t.x[j])
  {
    SplitX(data, |dl|, cols, j);
    assert t.x[j] == data[j + 1];
    ChunkValue(dl, parse, data, cols, 0, j + 1, j + 1);
    assert parse(Tokens(dl[0])[j + 1]) == Some(data[j + 1]);
  }

  /** `ReadGridText` for y. */
  lemma GridTextY(dl: seq<string>, parse: string -> Option<real>, data: seq<real>, cols: nat, t: Table, i: nat, j: nat)
    requires forall k :: 0 <= k < |dl| ==> |Tokens(dl[k])| == cols
    requires ParseAll(TokensOf(dl), parse) == Some(data)
    requires 1 <= |dl| && 1 <= cols && |data| == |dl| * cols && Split(data, |dl|, cols) == t
    requires i < |t.y| && j < |t.x|
    ensures i + 1 < |dl| && parse(Tokens(dl[i + 1])[0]) == Some(t.y[i])
  {
    assert i + 1 < |dl|;
    var p := (i + 1) * cols;
    SplitY(data, |dl|, cols, i);
    ChunkValue(dl, parse, data, cols, i + 1, 0, p);
  }

  /** `ReadGridText` for the grid values. */
  lemma GridTextF(dl: seq<string>, parse: string -> Option<real>, data: seq<real>, cols: nat, t: Table, i: nat, j: nat)
    requires forall k :: 0 <= k < |dl| ==> |Tokens(dl[k])| == cols
    requires ParseAll(TokensOf(dl), parse) == Some(data)
    requires 1 <= |dl| && 1 <= cols && |data| == |dl| * cols && Split(data, |dl|, cols) == t
    requires i < |t.y| && j < |t.x|
    ensures 0 <= i * |t.x| && i * |t.x| + j < |t.f|
    ensures parse(Tokens(dl[i + 1])[j + 1]) == Some(t.f[i * |t.x| + j])
  {
    assert i + 1 < |dl| && j + 1 < cols;
    var q := i * |t.x| + j;
    var p := (i + 1) * cols + (j + 1);
    ChunkValue(dl, parse, data, cols, i + 1, j + 1, p);
    SplitF(data, |dl|, cols, i, j);
    assert t.f[q] == data[p];
  }

  /** On data lines of `cols` chunks each, chunk `b` of line `a` parses to
      value `p = a * cols + b` of the file. */
  lemma ChunkValue(dl: seq<string>, parse: string -> Option<real>, data: seq<real>, cols: nat, a: nat, b: nat, p: int)
    requires forall k :: 0 <= k < |dl| ==> |Tokens(dl[k])| == cols
    requires ParseAll(TokensOf(dl), parse) == Some(data)
    requires a < |dl| && b < cols && p == a * cols + b
    ensures 0 <= p < |data| && parse(Tokens(dl[a])[b]) == Some(data[p])
  {
    ChunkAt(dl, cols, a, b, p);
    ParseAllAt(TokensOf(dl), parse, data, p);
  }

  /** On data lines of `cols` chunks each, chunk `b` of line `a` is chunk
      `a * cols + b` of the file. */
  lemma ChunkAt(dl: seq<string>, cols: nat, a: nat, b: nat, p: int)
    requires forall k :: 0 <= k < |dl| ==> |Tokens(dl[k])| == cols
    requires a < |dl| && b < cols && p == a * cols + b
    ensures 0 <= p < |TokensOf(dl)| && TokensOf(dl)[p] == Tokens(dl[a])[b]
  {
    MulSucc(a, cols);
    var rowsOfChunks := seq(|dl|, k requires 0 <= k < |dl| => Tokens(dl[k]));
    assert Uniform(rowsOfChunks, cols);
    FlattenIndex(rowsOfChunks, cols, a, b);
  }

  /** Blank and comment lines contribute no values and no rows: removing one
      anywhere leaves the result of the read unchanged. */
  lemma CommentLineIgnored(a: seq<string>, line: string, b: seq<string>, parse: string -> Option<real>)
    requires !IsDataLine(line)
    ensures Read(a + [line] + b, parse) == Read(a + b, parse)
  {
    DataLinesAppend(a + [line], b);
    DataLinesAppend(a, [line]);
    DataLinesAppend(a, b);
    assert [line][..0] == [];
    assert DataLines([line]) == [];
    assert DataLines(a + [line] + b) == DataLines(a + b);
  }

  /** Only the data lines matter: reading them alone gives the same result. */
  lemma ReadOfDataLines(lines: seq<string>, parse: string -> Option<real>)
    ensures Read(DataLines(lines), parse) == Read(lines, parse)
  {
    DataLinesOfDataOnly(DataLines(lines));
  }

  /** Failure and success of the read are decided by the cut once the values
      parse, fill rows * cols and there is a first row: the read succeeds
      exactly when both axes have at least two values and strictly increase. */
  lemma ReadAxesChecked(lines: seq<string>, parse: string -> Option<real>)
    requires var dl := DataLines(lines);
      && ParseAll(TokensOf(dl), parse).Some?
      && |dl| >= 1 && |ParseAll(TokensOf(dl), parse).value| == |dl| * Cols(dl)
    ensures var dl := DataLines(lines);
      var t := Split(ParseAll(TokensOf(dl), parse).value, |dl|, Cols(dl));
      Read(lines, parse).Ok? <==>
        |t.x| >= 2 && StrictlyIncreasing(t.x) && |t.y| >= 2 && StrictlyIncreasing(t.y)
  {
  }

  /** The layout round trip: cutting the writer's matrix of a table that was
      read passes the reader's checks and gives the same table. */
  lemma ReadWriteRoundTrip(lines: seq<string>, parse: string -> Option<real>, t: Table)
    requires Read(lines, parse) == Ok(t)
    ensures CheckAxes(Split(Assemble(t), |t.y| + 1, |t.x| + 1)) == Ok(t)
  {
    SplitAssemble(t);
  }

  /** The size check counts values only, not values per line: data lines of
      3, 2 and 4 chunks pass as a 3-by-3 matrix. Row 1 of that matrix is the
      second line's two chunks followed by the first chunk of the third line,
      so the grid value at `(x(1), y(0))` is that chunk's value. */
  lemma RaggedLinesAccepted(l0: string, l1: string, l2: string, parse: string -> Option<real>)
    requires IsDataLine(l0) && IsDataLine(l1) && IsDataLine(l2)
    requires |Tokens(l0)| == 3 && |Tokens(l1)| == 2 && |Tokens(l2)| == 4
    requires ParseAll(TokensOf([l0, l1, l2]), parse).Some?
    ensures var data := ParseAll(TokensOf([l0, l1, l2]), parse).value;
      |data| == 9 && Read([l0, l1, l2], parse) == CheckAxes(Split(data, 3, 3))
    ensures Read([l0, l1, l2], parse).Ok? ==>
      parse(Tokens(l2)[0]) == Some(Read([l0, l1, l2], parse).value.f[1])
  {
    var lines := [l0, l1, l2];
    assert DataLines(lines) == lines by {
      DataLinesOfDataOnly(lines);
    }
    var toks := TokensOf(lines);
    assert |toks| == 9 && toks[5] == Tokens(l2)[0] by {
      TokensOfThree(l0, l1, l2);
    }
    var data := ParseAll(toks, parse).value;
    assert Cols(lines) == 3;
    assert Read(lines, parse) == CheckAxes(Split(data, 3, 3));
    assert parse(Tokens(l2)[0]) == Some(data[5]) by {
      ParseAllAt(toks, parse, data, 5);
    }
    assert Split(data, 3, 3).f[1] == data[5] by {
      SplitF(data, 3, 3, 0, 1);
    }
  }

  lemma TokensOfThree(l0: string, l1: string, l2: string)
    ensures TokensOf([l0, l1, l2]) == Tokens(l0) + Tokens(l1) + Tokens(l2)
  {
    assert [l0, l1, l2] == [l0] + [l1] + [l2];
    TokensOfAppend([l0] + [l1], [l2]);
    TokensOfAppend([l0], [l1]);
    TokensOfSingle(l0);
    TokensOfSingle(l1);
    TokensOfSingle(l2);
  }

  /** The table object: axes, grid values and their lengths, as the reader
      stores them for the spline. */
  class Interpolation2d {
    var x: seq<real>
    var y: seq<real>
    var f: seq<real>
    var n: nat
    var m: nat

    /** `n` and `m` are the axis lengths and f holds `m * n` values. */
    ghost predicate Valid()
      reads this
    {
      n == |x| && m == |y| && |f| == m * n
    }

    ghost function Contents(): Table
      reads this
    {
      Table(x, y, f)
    }

    constructor ()
      ensures Valid() && x == [] && y == [] && f == []
    {
      x, y, f := [], [], [];
      n, m := 0, 0;
    }

    /** Reads the grid file `lines` into x, y, f, n and m. On a refused file
        nothing is stored and the error is returned. */
    method ReadCsvFile(lines: seq<string>, parse: string -> Option<real>) returns (err: Option<ReadError>)
      requires Valid()
      modifies this
      ensures Valid()
      ensures Read(lines, parse) == if err.None? then Ok(Contents()) else Err(err.value)
      ensures err.Some? ==> unchanged(this)
    {
      var t;
      err, t := ReadChecked(lines, parse);
      if err.None? {
        f := t.f;
        y := t.y;
        x := t.x;
        n := |x|;
        m := |y|;
      }
    }

    /** Builds the `(m + 1)`-by-`(n + 1)` output matrix: zeros, then the grid
        values into the bottom-right block, y into column 0 below the corner,
        and x into row 0 right of the corner. */
    method WriteData() returns (outData: array2<real>)
      requires Valid()
      ensures fresh(outData)
      ensures outData.Length0 == m + 1 && outData.Length1 == n + 1
      ensures forall i, j :: 0 <= i <= m && 0 <= j <= n ==> outData[i, j] == Layout(Contents())[i][j]
    {
      var xResult, yResult, fResult := x, y, f;
      outData := new real[m + 1, n + 1]((i, j) => 0.0);
      FillBody(outData, fResult, m, n);
      FillAxisY(outData, yResult);
      FillAxisX(outData, xResult);
      LayoutEntries(Contents());
    }
  }

  /** `outData.bottomRightCorner(m, n) = fMap`: the grid values, row-major,
      into the block below and right of the corner. */
  method FillBody(outData: array2<real>, fMap: seq<real>, m: nat, n: nat)
    requires |fMap| == m * n && outData.Length0 == m + 1 && outData.Length1 == n + 1
    modifies outData
    ensures forall a, b :: 0 <= a < outData.Length0 && 0 <= b < outData.Length1 ==>
      outData[a, b] == if 1 <= a && 1 <= b then Chunks(fMap, m, n)[a - 1][b - 1] else old(outData[a, b])
  {
    var i := 0;
    while i < m
      invariant 0 <= i <= m
      invariant forall a, b :: 0 <= a <= m && 0 <= b <= n ==>
        outData[a, b] == if 1 <= a <= i && 1 <= b then Chunks(fMap, m, n)[a - 1][b - 1] else old(outData[a, b])
    {
      var j := 0;
      while j < n
        invariant 0 <= j <= n
        invariant forall a, b :: 0 <= a <= m && 0 <= b <= n ==>
          outData[a, b] == if (1 <= a <= i && 1 <= b) || (a == i + 1 && 1 <= b <= j)
            then Chunks(fMap, m, n)[a - 1][b - 1] else old(outData[a, b])
      {
        ChunksIndex(fMap, m, n, i, j);
        outData[i + 1, j + 1] := fMap[i * n + j];
        j := j + 1;
      }
      i := i + 1;
    }
  }

  /** `outData.bottomLeftCorner(m, 1) = yResult`: y down column 0 below the corner. */
  method FillAxisY(outData: array2<real>, yResult: seq<real>)
    requires outData.Length0 == |yResult| + 1 && 1 <= outData.Length1
    modifies outData
    ensures forall a, b :: 0 <= a < outData.Length0 && 0 <= b < outData.Length1 ==>
      outData[a, b] == if 1 <= a && b == 0 then yResult[a - 1] else old(outData[a, b])
  {
    var i := 0;
    while i < |yResult|
      invariant 0 <= i <= |yResult|
      invariant forall a, b :: 0 <= a < outData.Length0 && 0 <= b < outData.Length1 ==>
        outData[a, b] == if 1 <= a <= i && b == 0 then yResult[a - 1] else old(outData[a, b])
    {
      outData[i + 1, 0] := yResult[i];
      i := i + 1;
    }
  }

  /** `outData(0, i + 1) = xResult(i)`: x along row 0 right of the corner. */
  method FillAxisX(outData: array2<real>, xResult: seq<real>)
    requires 1 <= outData.Length0 && outData.Length1 == |xResult| + 1
    modifies outData
    ensures forall a, b :: 0 <= a < outData.Length0 && 0 <= b < outData.Length1 ==>
      outData[a, b] == if a == 0 && 1 <= b then xResult[b - 1] else old(outData[a, b])
  {
    var j := 0;
    while j < |xResult|
      invariant 0 <= j <= |xResult|
      invariant forall a, b :: 0 <= a < outData.Length0 && 0 <= b < outData.Length1 ==>
        outData[a, b] == if a == 0 && 1 <= b <= j then xResult[b - 1] else old(outData[a, b])
    {
      outData[0, j + 1] := xResult[j];
      j := j + 1;
    }
  }

  /** The whole of the reader short of storing the table: the line loop,
      then the size check, then the axis checks in the order of the source. */
  method ReadChecked(lines: seq<string>, parse: string -> Option<real>) returns (err: Option<ReadError>, t: Table)
    ensures Read(lines, parse) == if err.None? then Ok(t) else Err(err.value)
  {
    t := Table([], [], []);
    var parsed, data, rows, cols := ReadValues(lines, parse);
    if !parsed {
      return Some(ParseFailure), t;
    }
    if |data| != rows * cols {
      return Some(SizeMismatch), t;
    }
    if rows == 0 {
      return Some(NoData), t;
    }
    var cut := Split(data, rows, cols);
    var lambdaVec, teVec := cut.x, cut.y;
    if |lambdaVec| <= 1 {
      return Some(AxisTooShort(XAxis)), t;
    }
    if !IsSorted(lambdaVec) {
      return Some(AxisNotSorted(XAxis)), t;
    }
    if |teVec| <= 1 {
      return Some(AxisTooShort(YAxis)), t;
    }
    if !IsSorted(teVec) {
      return Some(AxisNotSorted(YAxis)), t;
    }
    return None, cut;
  }

  /** The line loop of the reader: every data line is cut into chunks, each
      chunk is parsed and appended to `data`, `rows` counts the data lines and
      `cols` is the chunk count of the first one. `parsed` is false when a chunk
      does not parse (the exception of `std::stod`). */
  method ReadValues(lines: seq<string>, parse: string -> Option<real>)
    returns (parsed: bool, data: seq<real>, rows: nat, cols: nat)
    ensures var dl := DataLines(lines);
      && (parsed <==> ParseAll(TokensOf(dl), parse).Some?)
      && (parsed ==> data == ParseAll(TokensOf(dl), parse).value && rows == |dl| && cols == Cols(dl))
  {
    rows, cols, data := 0, 0, [];
    var k := 0;
    while k < |lines|
      invariant 0 <= k <= |lines|
      invariant rows == |DataLines(lines[..k])|
      invariant cols == Cols(DataLines(lines[..k]))
      invariant ParseAll(TokensOf(DataLines(lines[..k])), parse) == Some(data)
    {
      var line := lines[k];
      if line == [] || line[0] == '#' {
        DataLinesStep(lines, k);
        k := k + 1;
        continue;
      }
      var ok, values, bad := ParseLine(line, parse);
      if !ok {
        BadChunkFailsRead(lines, k, bad, parse);
        return false, [], 0, 0;
      }
      ReadStep(lines, k, parse, data, values);
      if rows == 0 {
        cols := |values|;
      }
      data := data + values;
      rows := rows + 1;
      k := k + 1;
    }
    assert lines[..k] == lines;
    parsed := true;
  }

  /** The chunk loop of the reader for one line: `getline(ss, chunk, ',')`
      hands out the chunks of `Tokens(line)` one by one and each is parsed.
      When one does not parse, `bad` is its position. */
  method ParseLine(line: string, parse: string -> Option<real>) returns (ok: bool, values: seq<real>, bad: nat)
    ensures ok <==> ParseAll(Tokens(line), parse).Some?
    ensures ok ==> values == ParseAll(Tokens(line), parse).value
    ensures !ok ==> bad < |Tokens(line)| && parse(Tokens(line)[bad]).None?
  {
    ghost var done: seq<string> := [];
    values := [];
    var rest, count := line, 0;
    while rest != []
      invariant count == |done|
      invariant done + Tokens(rest) == Tokens(line)
      invariant ParseAll(done, parse) == Some(values)
      decreases |rest|
    {
      var i := CommaIndex(rest);
      var chunk := rest[..i];
      var next: string := if i == |rest| then [] else rest[i + 1..];
      NextToken(rest, chunk, next);
      ShiftToken(done, chunk, Tokens(next), Tokens(line));
      var value := parse(chunk);
      if value.None? {
        ParseAllFails(Tokens(line), parse, |done|);
        return false, [], count;
      }
      ParseAllSnoc(done, chunk, parse, values, value.value);
      values := values + [value.value];
      done, count := done + [chunk], count + 1;
      rest := next;
    }
    assert done == Tokens(line);
    ok, bad := true, 0;
  }

  /** The chunk up to the first comma of a non-empty `rest` is its first token,
      and the tokens of what follows that comma are the others. */
  lemma NextToken(rest: string, chunk: string, next: string)
    requires rest != [] && chunk == rest[..CommaIndex(rest)]
    requires next == if CommaIndex(rest) == |rest| then [] else rest[CommaIndex(rest) + 1..]
    ensures Tokens(rest) == [chunk] + Tokens(next) && |next| < |rest|
  {
    TokensStep(rest);
  }

  /** Moving the first of the remaining tokens over to those already taken. */
  lemma ShiftToken(done: seq<string>, chunk: string, more: seq<string>, whole: seq<string>)
    requires done + ([chunk] + more) == whole
    ensures (done + [chunk]) + more == whole && |done| < |whole| && whole[|done|] == chunk
  {
    assert whole[|done|] == ([chunk] + more)[0];
  }

  /** One data line more: its values follow those of the lines before it. */
  lemma ReadStep(lines: seq<string>, k: nat, parse: string -> Option<real>, data: seq<real>, values: seq<real>)
    requires k < |lines| && IsDataLine(lines[k])
    requires ParseAll(TokensOf(DataLines(lines[..k])), parse) == Some(data)
    requires ParseAll(Tokens(lines[k]), parse) == Some(values)
    ensures DataLines(lines[..k + 1]) == DataLines(lines[..k]) + [lines[k]]
    ensures ParseAll(TokensOf(DataLines(lines[..k + 1])), parse) == Some(data + values)
  {
    DataLinesStep(lines, k);
    TokensOfAppend(DataLines(lines[..k]), [lines[k]]);
    TokensOfSingle(lines[k]);
    ParseAllConcat(TokensOf(DataLines(lines[..k])), Tokens(lines[k]), parse);
  }

  lemma DataLinesStep(lines: seq<string>, k: nat)
    requires k < |lines|
    ensures IsDataLine(lines[k]) ==> DataLines(lines[..k + 1]) == DataLines(lines[..k]) + [lines[k]]
    ensures !IsDataLine(lines[k]) ==> DataLines(lines[..k + 1]) == DataLines(lines[..k])
  {
    assert lines[..k + 1][..k] == lines[..k];
    assert DataLines(lines[..k]) + [] == DataLines(lines[..k]);
  }

  /** The data lines of a file with a data line at `k` are those before it,
      that line, and those after it. */
  lemma DataLinesAround(lines: seq<string>, k: nat)
    requires k < |lines| && IsDataLine(lines[k])
    ensures DataLines(lines) == DataLines(lines[..k]) + [lines[k]] + DataLines(lines[k + 1..])
  {
    var pre, line, post := lines[..k], lines[k], lines[k + 1..];
    assert lines == pre + [line] + post;
    DataLinesAppend(pre + [line], post);
    DataLinesAppend(pre, [line]);
    DataLinesOne(line);
  }

  lemma DataLinesOne(line: string)
    requires IsDataLine(line)
    ensures DataLines([line]) == [line]
  {
    assert [line][..0] == [];
  }

  lemma TokensOfAround(pre: seq<string>, line: string, post: seq<string>)
    ensures TokensOf(pre + [line] + post) == TokensOf(pre) + Tokens(line) + TokensOf(post)
  {
    TokensOfAppend(pre + [line], post);
    TokensOfAppend(pre, [line]);
    TokensOfSingle(line);
  }

  /** A chunk that does not parse, anywhere on a data line, makes the whole read fail. */
  lemma BadChunkFailsRead(lines: seq<string>, k: nat, bad: nat, parse: string -> Option<real>)
    requires k < |lines| && IsDataLine(lines[k])
    requires bad < |Tokens(lines[k])| && parse(Tokens(lines[k])[bad]).None?
    ensures ParseAll(TokensOf(DataLines(lines)), parse) == None
    ensures Read(lines, parse) == Err(ParseFailure)
  {
    var dpre, dpost := DataLines(lines[..k]), DataLines(lines[k + 1..]);
    DataLinesAround(lines, k);
    TokensOfAround(dpre, lines[k], dpost);
    var all := TokensOf(DataLines(lines));
    var p := |TokensOf(dpre)| + bad;
    assert all[p] == Tokens(lines[k])[bad];
    ParseAllFails(all, parse, p);
  }
}
