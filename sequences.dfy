/** Row-major views of flat sequences: cutting a sequence into rows and gluing rows back. */
module Sequences {

  /** The rows concatenated, first row first. */
  function Flatten<T>(rows: seq<seq<T>>): seq<T>
    decreases |rows|
  {
    if rows == [] then [] else rows[0] + Flatten(rows[1..])
  }

  /** Every row has exactly `w` elements. */
  ghost predicate Uniform<T>(rows: seq<seq<T>>, w: nat)
  {
    forall i :: 0 <= i < |rows| ==> |rows[i]| == w
  }

  /** The `h` consecutive rows of `w` elements each that a row-major
      `h`-by-`w` matrix over `s` consists of. */
  function Chunks<T>(s: seq<T>, h: nat, w: nat): (rows: seq<seq<T>>)
    requires |s| == h * w
    ensures |rows| == h && Uniform(rows, w)
    decreases h
  {
    if h == 0 then []
    else
      assert |s| == (h - 1) * w + w;
      [s[..w]] + Chunks(s[w..], h - 1, w)
  }

  lemma {:induction false} FlattenAppend<T>(a: seq<seq<T>>, b: seq<seq<T>>)
    ensures Flatten(a + b) == Flatten(a) + Flatten(b)
    decreases |a|
  {
    if a == [] {
      assert a + b == b;
    } else {
      assert (a + b)[1..] == a[1..] + b;
      FlattenAppend(a[1..], b);
    }
  }

  /** Cutting a sequence into rows and gluing the rows gives the sequence back. */
  lemma {:induction false} FlattenChunks<T>(s: seq<T>, h: nat, w: nat)
    requires |s| == h * w
    ensures Flatten(Chunks(s, h, w)) == s
    decreases h
  {
    if h > 0 {
      assert |s| == (h - 1) * w + w;
      assert Chunks(s, h, w)[1..] == Chunks(s[w..], h - 1, w);
      FlattenChunks(s[w..], h - 1, w);
      assert s == s[..w] + s[w..];
    }
  }

  /** Gluing rows of equal length and cutting the result gives the rows back. */
  lemma {:induction false} ChunksFlatten<T>(rows: seq<seq<T>>, w: nat)
    requires Uniform(rows, w)
    ensures |Flatten(rows)| == |rows| * w
    ensures Chunks(Flatten(rows), |rows|, w) == rows
    decreases |rows|
  {
    if rows != [] {
      ChunksFlatten(rows[1..], w);
      var s := Flatten(rows);
      assert s == rows[0] + Flatten(rows[1..]);
      assert |s| == (|rows| - 1) * w + w;
      assert s[..w] == rows[0];
      assert s[w..] == Flatten(rows[1..]);
      assert rows == [rows[0]] + rows[1..];
    }
  }

  /** Entry `(i, j)` of the row-major view is element `i * w + j` of the flat sequence. */
  lemma {:induction false} ChunksIndex<T>(s: seq<T>, h: nat, w: nat, i: nat, j: nat)
    requires |s| == h * w && i < h && j < w
    ensures 0 <= i * w && i * w + j < |s|
    ensures Chunks(s, h, w)[i][j] == s[i * w + j]
    decreases i
  {
    MulSucc(h - 1, w);
    MulSucc(i, w);
    if i > 0 {
      ChunksIndex(s[w..], h - 1, w, i - 1, j);
      MulSucc(i - 1, w);
    }
  }

  /** Element `i * w + j` of glued rows of length `w` is entry `j` of row `i`. */
  lemma FlattenIndex<T>(rows: seq<seq<T>>, w: nat, i: nat, j: nat)
    requires Uniform(rows, w) && i < |rows| && j < w
    ensures 0 <= i * w && i * w + j < |Flatten(rows)|
    ensures Flatten(rows)[i * w + j] == rows[i][j]
  {
    ChunksFlatten(rows, w);
    ChunksIndex(Flatten(rows), |rows|, w, i, j);
  }

  lemma MulSucc(a: nat, w: nat)
    ensures (a + 1) * w == a * w + w
    ensures a * w >= 0
  {
  }
}
