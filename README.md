# Interpolation2d grid tables in Dafny

This model covers the 2-D lookup tables that the APPM solver uses for its
transport coefficients (`Appm/Interpolation2d.cpp`). A table file is a
comma-separated matrix `M = [a x; y z]`:

- `a` is a dummy corner value;
- row 0 after the corner is the x axis;
- column 0 below the corner is the y axis;
- the block `z` below and to the right of the corner holds the grid values, with
  `f(x(j), y(i)) = z(i, j)`.

The model has five modules:

- `Wrappers`: `Option` and `Result`.
- `Sequences`: row-major views of flat sequences:
  - `Chunks` cuts a flat sequence into `h` rows of `w`;
  - `Flatten` glues rows back together;
  - lemmas connect the two, including the index law `Chunks(s, h, w)[i][j] == s[i * w + j]`.
- `CsvText`: the text side of `readCsvFile`:
  - which lines are data lines (not empty, not starting with `#`);
  - how `std::getline(ss, chunk, ',')` cuts a line into chunks (`Tokens`);
  - how the chunks become numbers. `ParseAll` uses a parameter `parse: string -> Option<real>` in place of `std::stod`. `None` stands for the exception `std::stod` throws.
- `GridLayout`: the table datatype (`x`, `y`, row-major `f`) and the layout in both directions:
  - the reader's cut (`Cut`, `Split`) and its index law;
  - the writer's `(m + 1)`-by-`(n + 1)` matrix (`Layout`, `Assemble`);
  - both round trips between the two;
  - `IsSorted`: the vectorised test "every consecutive difference is positive", proved equal to strict increase.
- `Interpolation`:
  - `ApplyTransform`;
  - the reader as a specification function `Read`, with its lemmas;
  - the class `Interpolation2d` with the fields `x`, `y`, `f`, `n`, `m`.
    - `ReadCsvFile` is imperative: a line loop (`ReadValues`) around a chunk loop (`ParseLine`), the size and axis checks (`ReadChecked`), then the field updates. It is proved equal to `Read`.
    - `WriteData` fills a fresh `array2` block by block: the grid values (`FillBody`), then y (`FillAxisY`), then x (`FillAxisX`). It is proved equal to `Layout` of the stored table.

The source's `assert`s in the reader are modelled as error results (`ReadError`). So are the `assert` inside `isSorted` that an axis has at least two values, and the exception of `std::stod`. They are checked in the source's order:

1. `ParseFailure`: a chunk does not parse.
2. `SizeMismatch`: `data.size() == rows * cols` fails.
3. `NoData`: there are no data lines, so there is no row 0 to cut.
4. The x axis: too short, then not sorted.
5. The y axis: too short, then not sorted.

On an error, `ReadCsvFile` stores nothing. This follows a build with
assertions enabled (without `NDEBUG`); there a failed check aborts the program
or lets `std::invalid_argument` escape, rather than returning an error and
keeping the object's state. A build without assertions skips the `assert`s,
though `std::stod` still throws on a chunk it cannot parse.

Values are Dafny `real`s, so there is no NaN and no infinity.
`real -> real` parameters stand in for the floating-point kernels of `ApplyTransform`.

The reader checks only the total number of values against `rows * cols`. It
does not check the number of values on each line. So a file whose data lines
have 3, 2 and 4 chunks is accepted as a 3-by-3 matrix, and its rows then
straddle the file's lines. `RaggedLinesAccepted` states this. It is the
program's behaviour as written, not a misreading of it.

## Model

| member | source | states |
|---|---|---|
| CsvText.IsDataLine | Appm/Interpolation2d.cpp:192 | definition (no contract): a line is read for values when it is non-empty and its first character is not `#` |
| CsvText.DataLineHasChunks | Appm/Interpolation2d.cpp:192-202 | a data line yields at least one chunk, so it adds a row and at least one value |
| CsvText.DataLines | Appm/Interpolation2d.cpp:190-194 | the kept lines are data lines (non-empty, first character not `#`) and no more than the file's lines |
| CsvText.DataLinesAppend | Appm/Interpolation2d.cpp:190-194 | the line filter distributes over concatenation of files |
| CsvText.DataLinesMembers | Appm/Interpolation2d.cpp:192-194 | a line survives the filter exactly when it is in the file and is neither empty nor a comment |
| CsvText.DataLinesOfDataOnly | Appm/Interpolation2d.cpp:190-194 | a file of data lines only passes the filter unchanged (filtering is idempotent) |
| CsvText.CommaIndex | Appm/Interpolation2d.cpp:199 | the result is the position of the first comma, or the line's length when there is none |
| CsvText.Tokens | Appm/Interpolation2d.cpp:197-202 | the chunks that repeated `getline(ss, chunk, ',')` extract; a non-empty line gives at least one chunk; its meaning is pinned by the round trips `JoinTokens` and `TokensJoin` |
| CsvText.TokensStep | Appm/Interpolation2d.cpp:199 | helper (unfolds `Tokens` once): one `getline(ss, chunk, ',')` takes the text up to the first comma |
| CsvText.CommaIndexAt | Appm/Interpolation2d.cpp:199 | the first comma after a comma-free prefix is the one that ends it |
| CsvText.TokensAfterChunk | Appm/Interpolation2d.cpp:197-202 | a comma-free chunk followed by a comma and any text gives that chunk, then the chunks of the rest; with no text after the comma, no empty chunk follows |
| CsvText.TokensLast | Appm/Interpolation2d.cpp:197-202 | a non-empty comma-free line is a single chunk |
| CsvText.TokensHaveNoComma | Appm/Interpolation2d.cpp:199 | no chunk contains the separator |
| CsvText.JoinTokens | Appm/Interpolation2d.cpp:197-202 | joining the chunks with commas gives back the line, less one trailing comma (no empty chunk after a final comma) |
| CsvText.TokensJoin | Appm/Interpolation2d.cpp:197-202 | cutting comma-joined comma-free chunks, the last one non-empty, gives the chunks back |
| CsvText.TokensOf | Appm/Interpolation2d.cpp:190-202 | definition (no contract): all chunks of the data lines, line after line, in the order the nested loops push their values; stated by `TokensOfAppend`, `TokensOfSingle` and `ChunkAt` |
| CsvText.TokensOfAppend | Appm/Interpolation2d.cpp:190-202 | the chunks of two groups of lines are those of the first group followed by those of the second |
| CsvText.TokensOfSingle | Appm/Interpolation2d.cpp:197-202 | the chunks of one line alone are that line's chunks |
| CsvText.ParseAll | Appm/Interpolation2d.cpp:199-202 | parsing succeeds exactly when every chunk parses; the values then follow the chunks one for one, in order |
| CsvText.ParseAllSnoc | Appm/Interpolation2d.cpp:200-201 | parsing one more chunk appends its value (`push_back`) |
| CsvText.ParseAllConcat | Appm/Interpolation2d.cpp:199-202 | parsing a concatenation gives the two value lists concatenated, and fails when either half fails |
| CsvText.ParseAllOf | Appm/Interpolation2d.cpp:199-202 | the converse: values that every chunk parses to are the result |
| CsvText.ParseAllAt | Appm/Interpolation2d.cpp:200-201 | helper (an instance of `ParseAll`'s contract): value `p` is what chunk `p` parses to |
| CsvText.ParseAllFails | Appm/Interpolation2d.cpp:200 | helper (an instance of `ParseAll`'s contract): one chunk that does not parse makes the whole parse fail |
| Sequences.Chunks | Appm/Interpolation2d.cpp:213-214 | the row-major view of `h * w` values has `h` rows of `w` values each |
| Sequences.FlattenAppend | Appm/Interpolation2d.cpp:213-214 | gluing distributes over concatenation of row lists |
| Sequences.FlattenChunks | Appm/Interpolation2d.cpp:213-214 | gluing the rows of the row-major view gives the values back |
| Sequences.ChunksFlatten | Appm/Interpolation2d.cpp:139-140 | viewing glued rows of equal length row-major gives the rows back |
| Sequences.ChunksIndex | Appm/Interpolation2d.cpp:212-214 | entry `(i, j)` of the row-major view is value `i * w + j` |
| Sequences.FlattenIndex | Appm/Interpolation2d.cpp:139-140 | value `i * w + j` of glued rows of length `w` is entry `j` of row `i` |
| GridLayout.WellShaped | Appm/Interpolation2d.cpp:22 | definition (no contract): the size invariant `|f| == m * n` of a table, which the constructor asserts at line 22 and `writeData` at line 130 as `n * m == k` |
| GridLayout.Body | Appm/Interpolation2d.cpp:139-140 | the grid values viewed row-major form `m` rows of `n` values |
| GridLayout.BodyIndex | Appm/Interpolation2d.cpp:241 | entry `(i, j)` of the body is `f[i * n + j]` |
| GridLayout.Cut | Appm/Interpolation2d.cpp:216-228 | cutting a matrix of `rows` rows and `cols` columns gives `cols - 1` x values and `rows - 1` y values, with `|f| == m * n` |
| GridLayout.Split | Appm/Interpolation2d.cpp:212-228 | the cut of the row-major map of `data` has `cols - 1` x values, `rows - 1` y values and `m * n` grid values |
| GridLayout.SplitEntries | Appm/Interpolation2d.cpp:216-228 | each x value is row 0 after the corner, each y value is column 0 below the corner, and each body entry is the bottom-right block's entry |
| GridLayout.SplitX | Appm/Interpolation2d.cpp:216-219 | `x(j)` is `data[j + 1]` |
| GridLayout.SplitY | Appm/Interpolation2d.cpp:217-220 | `y(i)` is `data[(i + 1) * cols]` |
| GridLayout.SplitF | Appm/Interpolation2d.cpp:228 | `f[i * n + j]` is `data[(i + 1) * cols + (j + 1)]` |
| GridLayout.SplitIndexLaw | Appm/Interpolation2d.cpp:212-228 | the index law of the cut on flat indices, for x, y and f together |
| GridLayout.Layout | Appm/Interpolation2d.cpp:154-159 | the writer's matrix has `m + 1` rows of `n + 1` entries |
| GridLayout.Assemble | Appm/Interpolation2d.cpp:153-159 | the writer's matrix read row-major has `(m + 1) * (n + 1)` values, and its row-major view is the layout |
| GridLayout.LayoutEntries | Appm/Interpolation2d.cpp:153-159 | entry `(0, 0)` is 0, `(0, j + 1)` is `x(j)`, `(i + 1, 0)` is `y(i)`, and `(i + 1, j + 1)` is body entry `(i, j)` |
| GridLayout.SplitAssemble | Appm/Interpolation2d.cpp:153-159 | the reader's cut of the writer's matrix gives the same x, y and f |
| GridLayout.ChunksUpdateCorner | Appm/Interpolation2d.cpp:212-214 | overwriting the first value of the reader's row-major data overwrites entry `(0, 0)` of its matrix view; a step of `AssembleSplit`, where the writer's zero corner (line 154) replaces the dummy corner |
| GridLayout.AssembleSplit | Appm/Interpolation2d.cpp:212-228 | laying out what the reader cuts gives the matrix back with its dummy corner zeroed |
| GridLayout.AssembleSplitEntry | Appm/Interpolation2d.cpp:212-228 | `AssembleSplit` for one entry |
| GridLayout.Differences | Appm/Interpolation2d.cpp:286 | definition (its contract only rearranges the body): one difference per consecutive pair, value `k + 1` less value `k`; its meaning is carried by `IsSorted` |
| GridLayout.IsSorted | Appm/Interpolation2d.cpp:282-293 | the all-differences-positive test holds exactly when the vector is strictly increasing (both directions; equal neighbours fail) |
| GridLayout.ConsecutiveIncreasing | Appm/Interpolation2d.cpp:286-287 | on any prefix, positive consecutive differences and strict increase are equivalent |
| Interpolation.ApplyTransform | Appm/Interpolation2d.cpp:295-306 | `NONE` returns the input unchanged; `INVERSE` and `LOG` apply their kernel to every entry; the shape is kept |
| Interpolation.Cols | Appm/Interpolation2d.cpp:204-207 | the column count is 0 without data lines and at least 1 when the first data line exists |
| Interpolation.ColsFirstChunks | Appm/Interpolation2d.cpp:204-207 | the `cols` chunks of the first data line are the first chunks of the file, so `cols` is `data.size()` after row 0 |
| Interpolation.CheckAxes | Appm/Interpolation2d.cpp:222-224 | the axis checks pass, returning the table itself, exactly when both axes have at least two values and strictly increase; otherwise the error is the first check that fails, in the order x too short, x unsorted, y too short, y unsorted ("too short" is `isSorted`'s assert at line 284) |
| Interpolation.Read | Appm/Interpolation2d.cpp:184-228 | the specification of `readCsvFile`'s outcome: a table it returns satisfies `|f| == m * n`, has at least two values per axis and strictly increasing axes; a chunk that does not parse gives `ParseFailure` |
| Interpolation.ReadTable | Appm/Interpolation2d.cpp:177-258 | a read table has strictly increasing axes of at least two values each, `|f| == m * n`, `m + 1` data lines, the first of which has `n + 1` chunks; it is the cut of the file's values |
| Interpolation.ReadIndexLaw | Appm/Interpolation2d.cpp:212-228 | after a read, `x(j)`, `y(i)` and `f[i * n + j]` are the file's values at entries `(0, j + 1)`, `(i + 1, 0)` and `(i + 1, j + 1)` |
| Interpolation.ReadGridText | Appm/Interpolation2d.cpp:169-228 | for a rectangular file, `x(j)` is chunk `j + 1` of the first data line, `y(i)` chunk 0 of data line `i + 1`, and `f[i * n + j]` chunk `j + 1` of data line `i + 1`, so `f(x(j), y(i)) = z(i, j)` |
| Interpolation.GridTextX | Appm/Interpolation2d.cpp:216-219 | `ReadGridText` for x |
| Interpolation.GridTextY | Appm/Interpolation2d.cpp:217-220 | `ReadGridText` for y |
| Interpolation.GridTextF | Appm/Interpolation2d.cpp:228 | `ReadGridText` for the grid values |
| Interpolation.ChunkValue | Appm/Interpolation2d.cpp:199-201 | on lines of `cols` chunks each, chunk `b` of line `a` parses to value `a * cols + b` |
| Interpolation.ChunkAt | Appm/Interpolation2d.cpp:199-201 | on lines of `cols` chunks each, chunk `b` of line `a` is chunk `a * cols + b` of the file |
| Interpolation.CommentLineIgnored | Appm/Interpolation2d.cpp:192-194 | inserting a blank or comment line anywhere leaves the result of the read unchanged |
| Interpolation.ReadOfDataLines | Appm/Interpolation2d.cpp:190-194 | reading the data lines alone gives the same result as reading the file |
| Interpolation.ReadAxesChecked | Appm/Interpolation2d.cpp:222-224 | once the values parse, fill `rows * cols` and there is a first row, the read succeeds exactly when both axes have at least two values and strictly increase |
| Interpolation.ReadWriteRoundTrip | Appm/Interpolation2d.cpp:153-159 | a round trip on the layout, with transforms and scales set aside: the writer's matrix of a table that was read passes the reader's checks and cuts back to the same table |
| Interpolation.RaggedLinesAccepted | Appm/Interpolation2d.cpp:204-210 | data lines of 3, 2 and 4 chunks pass the size check as a 3-by-3 matrix, and grid value `(x(1), y(0))` is then the first chunk of the third line |
| Interpolation.TokensOfThree | Appm/Interpolation2d.cpp:199-202 | the chunks of three lines, line after line |
| Interpolation.Interpolation2d.constructor | Appm/Interpolation2d.cpp:3-5 | a new table is empty and consistent |
| Interpolation.Interpolation2d.ReadCsvFile | Appm/Interpolation2d.cpp:177-258 | the stored table is exactly `Read` of the lines, `n == |x|`, `m == |y|` and `|f| == m * n`; on an error the error is `Read`'s and nothing changes |
| Interpolation.Interpolation2d.WriteData | Appm/Interpolation2d.cpp:153-159 | a fresh `(m + 1)`-by-`(n + 1)` matrix whose every entry is the layout's: corner 0, x in row 0, y in column 0, `f[i * n + j]` at `(i + 1, j + 1)` |
| Interpolation.FillBody | Appm/Interpolation2d.cpp:155 | the block below and right of the corner receives the grid values row-major; every other entry is unchanged |
| Interpolation.FillAxisY | Appm/Interpolation2d.cpp:156 | column 0 below the corner receives y; every other entry is unchanged |
| Interpolation.FillAxisX | Appm/Interpolation2d.cpp:157-159 | row 0 right of the corner receives x; every other entry is unchanged |
| Interpolation.ReadChecked | Appm/Interpolation2d.cpp:184-224 | the line loop followed by the size and axis checks, in the source's order, computes `Read` |
| Interpolation.ReadValues | Appm/Interpolation2d.cpp:184-209 | the line loop fails exactly when some chunk of some data line does not parse; otherwise it yields all values row-major, the data-line count and the first data line's chunk count |
| Interpolation.ParseLine | Appm/Interpolation2d.cpp:196-202 | the chunk loop of one line succeeds exactly when all its chunks parse and then yields their values; on failure it names a chunk that does not parse |
| Interpolation.NextToken | Appm/Interpolation2d.cpp:199 | helper (a step of `ParseLine`): one turn of the chunk loop takes the next chunk and leaves strictly less text |
| Interpolation.ShiftToken | Appm/Interpolation2d.cpp:199-201 | helper (sequence algebra for `ParseLine`): the chunk taken is the next one of the line |
| Interpolation.ReadStep | Appm/Interpolation2d.cpp:196-208 | one more data line appends its values after those of the lines before it |
| Interpolation.DataLinesStep | Appm/Interpolation2d.cpp:190-194 | one more line adds itself to the data lines if it is a data line, and nothing otherwise |
| Interpolation.DataLinesOne | Appm/Interpolation2d.cpp:192 | a file of one data line has that line as its data |
| Interpolation.DataLinesAround | Appm/Interpolation2d.cpp:190-194 | the data lines of a file around one data line are those before it, it, and those after it |
| Interpolation.TokensOfAround | Appm/Interpolation2d.cpp:199-202 | the chunks of the lines around one line are those before, its own, and those after |
| Interpolation.BadChunkFailsRead | Appm/Interpolation2d.cpp:200 | a chunk that does not parse, on any data line, makes the whole read fail with `ParseFailure` |

## Left out

- The spline: `spline2dbuildbicubicv`, `spline2dcalc` and the rest of `bicubicInterp`. They call into a library that is not part of this model and compute in floating point. The model stops at the table that the spline would be built from. The constructor's asserts on that table (`n * m == |f|`, two sites per axis) are stated by `ReadTable`.
- `ReadCsvFile`: reads as if `yScale = fScale = 1` and `yTrans = fTrans = NONE`. It does not model the scaling `TeVec *= yScale` and `dataMatrix *= fScale`, or the later `applyTransform` calls on the y axis and the grid values. These are floating-point numerics. `ApplyTransform` itself is modelled with its kernels as parameters. The axis checks come before the scaling in the source, so they see the unscaled values, as in the model.
- `ReadCsvFile`: does not model the `assert(xTrans == DataTransform::NONE)` at its start, because `xTrans` is not a parameter of the model.
- `ReadCsvFile`: does not model the `allFinite` asserts. Dafny `real`s are always finite.
- `WriteData`: models only the matrix assembly, on the stored x, y and f. The source's `writeData` asserts `fTrans == LOG` and `yTrans == INVERSE` (lines 133 and 142). With assertions enabled, it therefore runs only on tables read under those transforms, and it undoes them (`exp() / fScale` on f, `inverse() / yScale` on y). The model's reader stores tables as if read with `NONE` transforms and unit scales. So `WriteData`, and the round trip `ReadWriteRoundTrip`, describe the path where those asserts are off and the transforms are `NONE`. The back-transform is floating-point numerics; the two asserts are left out with it. It does not model the element-by-element copy loops into `tempX`, `tempY` and `tempF`: they only copy, so they become plain copies of the fields.
- File and console I/O:
  - The input file is a sequence of lines.
  - The output is the `array2` matrix. Writing it with `file << outData` is left out. Eigen prints it with spaces, not commas, so the reader would not read that file back, and no file-level round trip is claimed. The round trips are proved on the layout (`SplitAssemble`, `AssembleSplit`, `ReadWriteRoundTrip`).
  - `writeCsvFile` is left out.
  - The messages printed by `isSorted` and `writeData` are left out.
- `std::stod` is the parameter `parse`. This leaves out leading whitespace, trailing characters after the number, and the exact decimal-to-double conversion.
- `ReadCsvFile`: does not model the overflow of `int rows * cols`. It uses unbounded integers, because tables are small grids.
- `Appm/AppmSolver.h` and `Appm/Cell.h` hold declarations only. Their behaviour is not part of this model.
- The assignments inside `assert(this->n = x.length())` in the constructor happen only in debug builds. `ReadCsvFile` sets `n` and `m` itself, as the source does.
