/** The text side of the grid reader: which lines hold values, how a line is
    cut into comma-separated chunks, and how chunks become numbers. */
module CsvText {
  import opened Wrappers
  import opened Sequences

  /** A line the reader takes values from: neither empty nor a comment ('#' first). */
  predicate IsDataLine(line: string)
  {
    line != [] && line[0] != '#'
  }

  /** A data line yields at least one chunk, so it adds a row and a value. */
  lemma DataLineHasChunks(line: string)
    requires IsDataLine(line)
    ensures |Tokens(line)| >= 1
  {
  }

  /** The data lines of `lines`, in file order. */
  function DataLines(lines: seq<string>): (d: seq<string>)
    ensures |d| <= |lines|
    ensures forall k :: 0 <= k < |d| ==> IsDataLine(d[k])
    decreases |lines|
  {
    if lines == [] then []
    else
      var last := lines[|lines| - 1];
      DataLines(lines[..|lines| - 1]) + (if IsDataLine(last) then [last] else [])
  }

  /** Filtering distributes over concatenation of files. */
  lemma {:induction false} DataLinesAppend(a: seq<string>, b: seq<string>)
    ensures DataLines(a + b) == DataLines(a) + DataLines(b)
    decreases |b|
  {
    if b == [] {
      assert a + b == a;
    } else {
      assert (a + b)[..|a + b| - 1] == a + b[..|b| - 1];
      DataLinesAppend(a, b[..|b| - 1]);
    }
  }

  /** A line survives the filter exactly when it is in the file and is a data line. */
  lemma {:induction false} DataLinesMembers(lines: seq<string>, line: string)
    ensures line in DataLines(lines) <==> line in lines && IsDataLine(line)
    decreases |lines|
  {
    if lines != [] {
      DataLinesMembers(lines[..|lines| - 1], line);
      assert lines == lines[..|lines| - 1] + [lines[|lines| - 1]];
    }
  }

  /** A file of data lines only passes the filter unchanged; so filtering twice is filtering once. */
  lemma {:induction false} DataLinesOfDataOnly(lines: seq<string>)
    requires forall k :: 0 <= k < |lines| ==> IsDataLine(lines[k])
    ensures DataLines(lines) == lines
    decreases |lines|
  {
    if lines != [] {
      DataLinesOfDataOnly(lines[..|lines| - 1]);
      assert lines == lines[..|lines| - 1] + [lines[|lines| - 1]];
    }
  }

  /** Index of the first ',' in `s`, or `|s|` when there is none. */
  function CommaIndex(s: string): (i: nat)
    ensures i <= |s|
    ensures forall k :: 0 <= k < i ==> s[k] != ','
    ensures i < |s| ==> s[i] == ','
    decreases |s|
  {
    if s == [] || s[0] == ',' then 0 else 1 + CommaIndex(s[1..])
  }

  /** The chunks that repeated `std::getline(stream, chunk, ',')` extracts from a
      line: each stops at the next comma (which is consumed) or at the end of the
      line; extraction stops once the line is used up, so a trailing comma does
      not produce a final empty chunk, while two adjacent commas produce one. */
  function Tokens(s: string): (toks: seq<string>)
    ensures s != [] ==> |toks| >= 1
    decreases |s|
  {
    if s == [] then []
    else
      var i := CommaIndex(s);
      [s[..i]] + (if i == |s| then [] else Tokens(s[i + 1..]))
  }

  /** One extraction step: the first chunk runs up to the first comma, and the
      rest of the chunks come from the text after it. */
  lemma TokensStep(s: string)
    requires s != []
    ensures var i := CommaIndex(s);
      Tokens(s) == [s[..i]] + Tokens(if i == |s| then [] else s[i + 1..])
  {
  }

  /** The first comma after a comma-free prefix is the one that ends it. */
  lemma {:induction false} CommaIndexAt(c: string, rest: string)
    requires ',' !in c && (rest == [] || rest[0] == ',')
    ensures CommaIndex(c + rest) == |c|
    decreases |c|
  {
    if c != [] {
      CommaIndexAt(c[1..], rest);
      assert (c + rest)[1..] == c[1..] + rest;
    } else {
      assert c + rest == rest;
    }
  }

  /** A comma-free first chunk followed by a comma: the chunk, then the chunks of the rest. */
  lemma TokensAfterChunk(c: string, rest: string)
    requires ',' !in c
    ensures Tokens(c + [','] + rest) == [c] + Tokens(rest)
  {
    var s := c + [','] + rest;
    assert s[|c|] == ',';
    assert forall k :: 0 <= k < |c| ==> s[k] == c[k];
    CommaIndexAt(c, [','] + rest);
    TokensStep(s);
    assert s[..|c|] == c;
    assert s[|c| + 1..] == rest;
  }

  /** A non-empty comma-free line is a single chunk. */
  lemma TokensLast(c: string)
    requires c != [] && ',' !in c
    ensures Tokens(c) == [c]
  {
    CommaIndexAt(c, []);
    assert c + [] == c;
    TokensStep(c);
    assert c[..|c|] == c;
  }

  /** The chunks joined back with commas. */
  function Join(toks: seq<string>): string
    decreases |toks|
  {
    if toks == [] then []
    else if |toks| == 1 then toks[0]
    else toks[0] + [','] + Join(toks[1..])
  }

  /** No chunk contains the separator. */
  lemma {:induction false} TokensHaveNoComma(s: string)
    ensures forall k :: 0 <= k < |Tokens(s)| ==> ',' !in Tokens(s)[k]
    decreases |s|
  {
    if s != [] {
      var i := CommaIndex(s);
      if i < |s| {
        TokensHaveNoComma(s[i + 1..]);
      }
    }
  }

  /** Joining the chunks of a line gives the line back, less a trailing comma. */
  lemma {:induction false} JoinTokens(s: string)
    ensures Join(Tokens(s)) == if s != [] && s[|s| - 1] == ',' then s[..|s| - 1] else s
    decreases |s|
  {
    if s != [] {
      var i := CommaIndex(s);
      if i == |s| {
        JoinTokensLast(s);
      } else if i == |s| - 1 {
        JoinTokensTrailing(s);
      } else {
        JoinTokens(s[i + 1..]);
        JoinTokensCons(s);
        CommaGlue(s, i);
      }
    }
  }

  lemma JoinTokensLast(s: string)
    requires s != [] && CommaIndex(s) == |s|
    ensures s[|s| - 1] != ',' && Join(Tokens(s)) == s
  {
    TokensStep(s);
    assert s[..|s|] == s;
    assert Tokens(s) == [s];
  }

  lemma JoinTokensTrailing(s: string)
    requires s != [] && CommaIndex(s) == |s| - 1
    ensures s[|s| - 1] == ',' && Join(Tokens(s)) == s[..|s| - 1]
  {
    TokensStep(s);
    assert s[|s| - 1 + 1..] == [];
    assert Tokens(s) == [s[..|s| - 1]];
  }

  lemma JoinTokensCons(s: string)
    requires s != [] && CommaIndex(s) < |s| - 1
    ensures var i := CommaIndex(s);
      Join(Tokens(s)) == s[..i] + [','] + Join(Tokens(s[i + 1..]))
  {
    var i := CommaIndex(s);
    var rest := Tokens(s[i + 1..]);
    assert rest != [];
    TokensStep(s);
    JoinCons(s[..i], rest);
  }

  /** A line cut at an inner comma `i` is its head, the comma and its tail. */
  lemma CommaGlue(s: string, i: nat)
    requires i < |s| - 1 && s[i] == ','
    ensures var r := s[i + 1..];
      && s == s[..i] + [','] + r
      && s[|s| - 1] == r[|r| - 1]
      && s[..|s| - 1] == s[..i] + [','] + r[..|r| - 1]
  {
  }

  lemma JoinCons(c: string, toks: seq<string>)
    requires toks != []
    ensures Join([c] + toks) == c + [','] + Join(toks)
  {
    assert ([c] + toks)[1..] == toks;
  }

  /** Cutting a comma-joined list of comma-free chunks, the last one non-empty,
      gives the chunks back. */
  lemma {:induction false} TokensJoin(toks: seq<string>)
    requires toks != [] && toks[|toks| - 1] != []
    requires forall k :: 0 <= k < |toks| ==> ',' !in toks[k]
    ensures Tokens(Join(toks)) == toks
    decreases |toks|
  {
    var s := Join(toks);
    if |toks| == 1 {
      assert CommaIndex(s) == |s|;
      assert s[..|s|] == s;
    } else {
      var rest := toks[1..];
      assert s == toks[0] + [','] + Join(rest);
      var i := CommaIndex(s);
      assert s[|toks[0]|] == ',';
      assert i == |toks[0]|;
      assert s[..i] == toks[0];
      assert s[i + 1..] == Join(rest);
      TokensJoin(rest);
      assert toks == [toks[0]] + rest;
    }
  }

  /** All chunks of the data lines `dl`, line after line. */
  function TokensOf(dl: seq<string>): seq<string>
  {
    Flatten(seq(|dl|, k requires 0 <= k < |dl| => Tokens(dl[k])))
  }

  lemma TokensOfAppend(a: seq<string>, b: seq<string>)
    ensures TokensOf(a + b) == TokensOf(a) + TokensOf(b)
  {
    var ra := seq(|a|, k requires 0 <= k < |a| => Tokens(a[k]));
    var rb := seq(|b|, k requires 0 <= k < |b| => Tokens(b[k]));
    assert seq(|a + b|, k requires 0 <= k < |a + b| => Tokens((a + b)[k])) == ra + rb;
    FlattenAppend(ra, rb);
  }

  lemma TokensOfSingle(line: string)
    ensures TokensOf([line]) == Tokens(line)
  {
    var rows := seq(1, k requires 0 <= k < 1 => Tokens([line][k]));
    assert rows == [Tokens(line)];
    assert rows[1..] == [];
    assert Flatten(rows) == Tokens(line) + [];
  }

  /** The values of `toks` read one after the other with `parse` (the model of
      `std::stod`); `None` as soon as one chunk does not parse. */
  function ParseAll(toks: seq<string>, parse: string -> Option<real>): (r: Option<seq<real>>)
    ensures r.Some? <==> forall k :: 0 <= k < |toks| ==> parse(toks[k]).Some?
    ensures r.Some? ==> |r.value| == |toks|
    ensures r.Some? ==> forall k :: 0 <= k < |toks| ==> parse(toks[k]) == Some(r.value[k])
    decreases |toks|
  {
    if toks == [] then Some([])
    else
      match ParseAll(toks[..|toks| - 1], parse)
      case None => None
      case Some(vs) =>
        match parse(toks[|toks| - 1])
        case None => None
        case Some(v) => Some(vs + [v])
  }

  /** Parsing one more chunk appends its value. */
  lemma ParseAllSnoc(toks: seq<string>, c: string, parse: string -> Option<real>, data: seq<real>, v: real)
    requires ParseAll(toks, parse) == Some(data) && parse(c) == Some(v)
    ensures ParseAll(toks + [c], parse) == Some(data + [v])
  {
    assert (toks + [c])[..|toks + [c]| - 1] == toks;
  }

  /** Parsing a concatenation parses both halves, and fails when either fails. */
  lemma {:induction false} ParseAllConcat(a: seq<string>, b: seq<string>, parse: string -> Option<real>)
    ensures ParseAll(a + b, parse) ==
      if ParseAll(a, parse).Some? && ParseAll(b, parse).Some?
      then Some(ParseAll(a, parse).value + ParseAll(b, parse).value)
      else None
    decreases |b|
  {
    if b == [] {
      assert a + b == a;
      if ParseAll(a, parse).Some? {
        assert ParseAll(a, parse).value + [] == ParseAll(a, parse).value;
      }
    } else {
      var b' := b[..|b| - 1];
      ParseAllConcat(a, b', parse);
      assert (a + b)[..|a + b| - 1] == a + b';
      assert (a + b)[|a + b| - 1] == b[|b| - 1];
      match ParseAll(b', parse)
      case None =>
      case Some(vb) =>
        match ParseAll(a, parse)
        case None =>
        case Some(va) =>
          match parse(b[|b| - 1])
          case None =>
          case Some(v) =>
            assert va + vb + [v] == va + (vb + [v]);
    }
  }

  /** The converse of `ParseAll`'s contract: values that every chunk parses to are the result. */
  lemma {:induction false} ParseAllOf(toks: seq<string>, parse: string -> Option<real>, data: seq<real>)
    requires |toks| == |data|
    requires forall k :: 0 <= k < |toks| ==> parse(toks[k]) == Some(data[k])
    ensures ParseAll(toks, parse) == Some(data)
    decreases |toks|
  {
    if toks != [] {
      var n := |toks| - 1;
      ParseAllOf(toks[..n], parse, data[..n]);
      assert data == data[..n] + [data[n]];
    }
  }

  lemma ParseAllAt(toks: seq<string>, parse: string -> Option<real>, data: seq<real>, p: nat)
    requires ParseAll(toks, parse) == Some(data) && p < |toks|
    ensures p < |data| && parse(toks[p]) == Some(data[p])
  {
  }

  lemma ParseAllFails(toks: seq<string>, parse: string -> Option<real>, p: nat)
    requires p < |toks| && parse(toks[p]).None?
    ensures ParseAll(toks, parse) == None
  {
  }
}
