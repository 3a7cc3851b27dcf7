/**
 * The ORCA `.hess` reader of nudge_structure.py (class `OrcaHessian`).
 *
 * The file is a sequence of lines and a cursor into it.  Section handlers
 * (`ParseBlock`, `ParseNormalModes`, `ParseAtoms`) and the derivation step
 * (`Finalize`) work on freshly allocated arrays as numpy does; each is proved
 * against a specification function on the text (`BlockSpec`,
 * `AtomsSection`) or on the arrays it is given (`SourceRow`, `UnweightedMode`).  `Hessian.Read` is the line-prefix
 * dispatcher that stores the handlers' results in the object's fields.
 *
 * `np.empty` leaves cells unwritten; the model therefore only specifies the
 * cells that the text writes.  The readers of a run of lines (`ReadLines`,
 * `Chunks`) are stated for any line parser; the block and atom sections
 * instantiate them with the parsers of their data lines.  Number conversion (`int`, `float`), square
 * roots and the Bohr-to-Angstrom factor are parameters.
 */
module OrcaHessian {
  import opened Common

  /** Below this norm a mode is left unnormalised (`_finalize`). */
  const NormTolerance: real := 0.0000001

  // ---------------------------------------------------------------------
  // Numbers in a line

  /** `[int(f) for f in fs]`. */
  function Ints(fs: seq<string>, conv: Conv): (r: Result<seq<int>>)
  {
    if fs == [] then Ok([])
    else match conv.toInt(fs[0])
      case None => Err(ValueError)
      case Some(n) =>
        match Ints(fs[1..], conv)
        case Err(e) => Err(e)
        case Ok(ns) => Ok([n] + ns)
  }

  /** `[float(f) for f in fs]`. */
  function Reals(fs: seq<string>, conv: Conv): (r: Result<seq<real>>)
  {
    if fs == [] then Ok([])
    else match conv.toReal(fs[0])
      case None => Err(ValueError)
      case Some(x) =>
        match Reals(fs[1..], conv)
        case Err(e) => Err(e)
        case Ok(xs) => Ok([x] + xs)
  }

  /** Every field converts and the list holds the numbers in order, or some field fails with ValueError. */
  lemma {:induction false} IntsSpec(fs: seq<string>, conv: Conv)
    ensures Ints(fs, conv).Ok? <==> forall i :: 0 <= i < |fs| ==> conv.toInt(fs[i]).Some?
    ensures Ints(fs, conv).Ok? ==> (|Ints(fs, conv).value| == |fs| &&
              forall i :: 0 <= i < |fs| ==> conv.toInt(fs[i]) == Some(Ints(fs, conv).value[i]))
    ensures Ints(fs, conv).Err? ==> Ints(fs, conv).error == ValueError
  {
    if fs != [] {
      IntsSpec(fs[1..], conv);
      assert forall i :: 1 <= i < |fs| ==> fs[i] == fs[1..][i - 1];
    }
  }

  lemma {:induction false} RealsSpec(fs: seq<string>, conv: Conv)
    ensures Reals(fs, conv).Ok? <==> forall i :: 0 <= i < |fs| ==> conv.toReal(fs[i]).Some?
    ensures Reals(fs, conv).Ok? ==> (|Reals(fs, conv).value| == |fs| &&
              forall i :: 0 <= i < |fs| ==> conv.toReal(fs[i]) == Some(Reals(fs, conv).value[i]))
    ensures Reals(fs, conv).Err? ==> Reals(fs, conv).error == ValueError
  {
    if fs != [] {
      RealsSpec(fs[1..], conv);
      assert forall i :: 1 <= i < |fs| ==> fs[i] == fs[1..][i - 1];
    }
  }

  predicate NonNegative(dims: seq<int>)
  {
    forall i :: 0 <= i < |dims| ==> dims[i] >= 0
  }

  // ---------------------------------------------------------------------
  // Data lines

  /** A rank-1 data line `LABEL VALUE ...`: the second field as a number. */
  function VectorEntry(line: string, conv: Conv): (r: Result<real>)
    ensures r.Ok? <==> |Fields(line)| >= 2 && conv.toReal(Fields(line)[1]).Some?
    ensures r.Ok? ==> Some(r.value) == conv.toReal(Fields(line)[1])
    ensures r.Err? ==> r.error == (if |Fields(line)| < 2 then IndexError else ValueError)
  {
    var fs := Fields(line);
    if |fs| < 2 then Err(IndexError)
    else match conv.toReal(fs[1])
      case None => Err(ValueError)
      case Some(x) => Ok(x)
  }

  /** A rank-2 data line: every field converted (the row label too), then the label dropped. */
  function RowValues(line: string, conv: Conv): (r: Result<seq<real>>)
  {
    match Reals(Fields(line), conv)
    case Err(e) => Err(e)
    case Ok(xs) => Ok(if xs == [] then [] else xs[1..])
  }

  /** A data row yields one value per field after the row label, each the field's number. */
  lemma RowValuesFields(line: string, conv: Conv)
    ensures RowValues(line, conv).Ok? <==> forall i :: 0 <= i < |Fields(line)| ==> conv.toReal(Fields(line)[i]).Some?
    ensures RowValues(line, conv).Ok? ==>
              var vs := RowValues(line, conv).value;
              |vs| == (if Fields(line) == [] then 0 else |Fields(line)| - 1) &&
              forall j :: 0 <= j < |vs| ==> conv.toReal(Fields(line)[j + 1]) == Some(vs[j])
    ensures RowValues(line, conv).Err? ==> RowValues(line, conv).error == ValueError
  {
    RealsSpec(Fields(line), conv);
  }

  /** One atom line `LABEL MASS X Y Z` as read, coordinates still in Bohr. */
  datatype AtomRecord = AtomRecord(name: string, mass: real, x: real, y: real, z: real)
  {
    /** Coordinate k of the atom: x, y, z for k = 0, 1, 2. */
    function Coord(k: nat): real
      requires k < 3
    {
      if k == 0 then x else if k == 1 then y else z
    }
  }

  /**
   * `coords[iatom] = [float(f) for f in fields[2:]]` on a row of three:
   * three values are copied, a single value is broadcast, any other count
   * is numpy's ValueError.
   */
  function CoordRow(xs: seq<real>): (r: Result<seq<real>>)
    ensures r.Ok? ==> |r.value| == 3
  {
    if |xs| == 3 then Ok(xs)
    else if |xs| == 1 then Ok([xs[0], xs[0], xs[0]])
    else Err(ValueError)
  }

  lemma CoordRowShape(xs: seq<real>)
    ensures CoordRow(xs).Ok? <==> |xs| == 3 || |xs| == 1
    ensures CoordRow(xs).Err? ==> CoordRow(xs).error == ValueError
    ensures CoordRow(xs).Ok? ==> var row := CoordRow(xs).value;
              |row| == 3 && forall k :: 0 <= k < 3 ==> row[k] == xs[if |xs| == 3 then k else 0]
  {
  }

  /** An atom line: label from field 0, mass from field 1, coordinates from the fields after them. */
  function AtomLine(line: string, conv: Conv): (r: Result<AtomRecord>)
    ensures |Fields(line)| < 2 ==> r == Err(IndexError)
    ensures r.Ok? ==> |Fields(line)| >= 2 && r.value.name == Fields(line)[0] &&
                      conv.toReal(Fields(line)[1]) == Some(r.value.mass) &&
                      Reals(Fields(line)[2..], conv).Ok? &&
                      CoordRow(Reals(Fields(line)[2..], conv).value) == Ok([r.value.x, r.value.y, r.value.z])
  {
    var fs := Fields(line);
    if |fs| < 2 then Err(IndexError)
    else match conv.toReal(fs[1])
      case None => Err(ValueError)
      case Some(m) =>
        match Reals(fs[2..], conv)
        case Err(e) => Err(e)
        case Ok(xs) =>
          match CoordRow(xs)
          case Err(e) => Err(e)
          case Ok(xyz) =>
            assert xyz == [xyz[0], xyz[1], xyz[2]];
            Ok(AtomRecord(fs[0], m, xyz[0], xyz[1], xyz[2]))
  }

  /** The line parsers as values, for the readers below. */
  function VectorReader(conv: Conv): string -> Result<real>
  {
    line => VectorEntry(line, conv)
  }

  function RowReader(conv: Conv): string -> Result<seq<real>>
  {
    line => RowValues(line, conv)
  }

  function AtomReader(conv: Conv): string -> Result<AtomRecord>
  {
    line => AtomLine(line, conv)
  }

  // ---------------------------------------------------------------------
  // A run of data lines: `for i in range(n): ... next(infile) ...`

  /** The next `n` lines from `p`, each read by `read`, or the first error (StopIteration at the end of the file). */
  function ReadLines<T>(lines: seq<string>, p: nat, n: nat, read: string -> Result<T>): (r: Result<seq<T>>)
    requires p <= |lines|
    ensures r.Ok? ==> |r.value| == n && p + n <= |lines|
  {
    if n == 0 then Ok([])
    else match ReadLines(lines, p, n - 1, read)
      case Err(e) => Err(e)
      case Ok(xs) =>
        if p + n - 1 >= |lines| then Err(StopIteration)
        else match read(lines[p + n - 1])
          case Err(e) => Err(e)
          case Ok(x) => Ok(xs + [x])
  }

  /** Item i of a successful run is line p + i as read: exactly the n lines after p are used, in order. */
  lemma {:induction false} ReadLinesEach<T>(lines: seq<string>, p: nat, n: nat, read: string -> Result<T>)
    requires p <= |lines| && ReadLines(lines, p, n, read).Ok?
    ensures forall i :: 0 <= i < n ==> read(lines[p + i]) == Ok(ReadLines(lines, p, n, read).value[i])
  {
    if n > 0 {
      ReadLinesEach(lines, p, n - 1, read);
    }
  }

  /** Line q exists and `read` rejects it. */
  ghost predicate LineFails<T>(lines: seq<string>, q: nat, read: string -> Result<T>)
  {
    q < |lines| && read(lines[q]).Err?
  }

  /** A run fails exactly when the file ends before its n-th line or some line in it is rejected. */
  lemma {:induction false} ReadLinesFails<T>(lines: seq<string>, p: nat, n: nat, read: string -> Result<T>)
    requires p <= |lines|
    ensures ReadLines(lines, p, n, read).Err? <==>
              p + n > |lines| || exists q :: p <= q < p + n && LineFails(lines, q, read)
  {
    if n > 0 {
      ReadLinesFails(lines, p, n - 1, read);
      if ReadLines(lines, p, n - 1, read).Ok? && p + n - 1 < |lines| && read(lines[p + n - 1]).Err? {
        assert LineFails(lines, p + n - 1, read);
      }
    }
  }

  lemma {:induction false} ReadLinesErrorStays<T>(lines: seq<string>, p: nat, i: nat, n: nat, read: string -> Result<T>)
    requires p <= |lines| && i <= n && ReadLines(lines, p, i, read).Err?
    ensures ReadLines(lines, p, n, read) == ReadLines(lines, p, i, read)
    decreases n
  {
    if i < n { ReadLinesErrorStays(lines, p, i, n - 1, read); }
  }

  // ---------------------------------------------------------------------
  // parse_block: the specification

  /** A parsed block as a value: a vector, or a matrix of which only the cells the text wrote are known. */
  datatype BlockValue =
    | VectorValue(entries: seq<real>)
    | MatrixValue(rows: nat, cols: nat, cells: map<(int, int), real>)

  /** `array[row, col:col+len(vs)] = vs`. */
  function WriteRow(cells: map<(int, int), real>, row: int, col: int, vs: seq<real>): (r: map<(int, int), real>)
    decreases |vs|
  {
    if vs == [] then cells else WriteRow(cells[(row, col) := vs[0]], row, col + 1, vs[1..])
  }

  /** The row's values land at (row, col ..); every other cell is as it was. */
  lemma {:induction false} WriteRowSpec(cells: map<(int, int), real>, row: int, col: int, vs: seq<real>)
    ensures var r := WriteRow(cells, row, col, vs);
            (forall j :: 0 <= j < |vs| ==> (row, col + j) in r && r[(row, col + j)] == vs[j]) &&
            (forall c :: c in r <==> c in cells || (c.0 == row && col <= c.1 < col + |vs|)) &&
            (forall c :: c in cells && !(c.0 == row && col <= c.1 < col + |vs|) ==> r[c] == cells[c])
    decreases |vs|
  {
    if vs != [] {
      WriteRowSpec(cells[(row, col) := vs[0]], row, col + 1, vs[1..]);
      assert forall j :: 1 <= j < |vs| ==> vs[j] == vs[1..][j - 1] && col + j == (col + 1) + (j - 1);
    }
  }

  predicate CellsWithin(cells: map<(int, int), real>, rows: nat, cols: nat)
  {
    forall c :: c in cells ==> 0 <= c.0 < rows && 0 <= c.1 < cols
  }

  /**
   * One data row of a chunk whose columns start at `col`: the row's values,
   * or the error reading line p raises.  A row with more values than columns
   * remain is numpy's broadcast error.
   */
  function RowStep(lines: seq<string>, p: nat, cols: nat, col: nat, read: string -> Result<seq<real>>): (r: Result<seq<real>>)
    ensures r.Ok? ==> p < |lines| && read(lines[p]) == Ok(r.value) && |r.value| <= cols - col
  {
    if p >= |lines| then Err(StopIteration)
    else match read(lines[p])
      case Err(e) => Err(e)
      case Ok(vs) => if |vs| > cols - col then Err(ValueError) else Ok(vs)
  }

  /**
   * The data lines of one column chunk, from row `row` on: each row's values
   * land at columns `col ..`, and the count of the last row read is kept.
   */
  function ChunkRows(lines: seq<string>, p: nat, rows: nat, cols: nat, col: nat, row: nat,
                     cells: map<(int, int), real>, last: Option<nat>, read: string -> Result<seq<real>>)
    : (r: Result<(map<(int, int), real>, nat, Option<nat>)>)
    requires row <= rows && p <= |lines|
    ensures r.Ok? ==> r.value.1 == p + (rows - row) && r.value.1 <= |lines|
    ensures r.Ok? ==> row < rows ==> r.value.2.Some? && r.value.2.value <= cols - col
    ensures r.Ok? ==> row == rows ==> r.value.2 == last
    decreases rows - row
  {
    if row == rows then Ok((cells, p, last))
    else match RowStep(lines, p, cols, col, read)
      case Err(e) => Err(e)
      case Ok(vs) => ChunkRows(lines, p + 1, rows, cols, col, row + 1, WriteRow(cells, row, col, vs), Some(|vs|), read)
  }

  /**
   * Column chunks from `col` on: one column-label line, then `rows` data
   * lines; `col` then advances by the value count of the chunk's last row.
   * With no rows the count is never bound: UnboundLocalError.
   */
  function Chunks(lines: seq<string>, p: nat, rows: nat, cols: nat, col: nat,
                  cells: map<(int, int), real>, read: string -> Result<seq<real>>)
    : (r: Result<(map<(int, int), real>, nat)>)
    requires p <= |lines|
    ensures r.Ok? ==> p <= r.value.1 <= |lines|
    decreases |lines| - p
  {
    if col >= cols then Ok((cells, p))
    else if p >= |lines| then Err(StopIteration)
    else
      var chunk := ChunkRows(lines, p + 1, rows, cols, col, 0, cells, None, read);
      if chunk.Err? then Err(chunk.error)
      else if chunk.value.2.None? then Err(UnboundLocalError)
      else Chunks(lines, chunk.value.1, rows, cols, col + chunk.value.2.value, chunk.value.0, read)
  }

  /** `parse_block` on the text: the block's value and where the cursor stops, or the error raised. */
  function BlockSpec(lines: seq<string>, pos: nat, conv: Conv): (r: Result<(BlockValue, nat)>)
    ensures r.Ok? ==> pos < r.value.1 <= |lines|
  {
    if pos >= |lines| then Err(StopIteration)
    else match Ints(Fields(lines[pos]), conv)
      case Err(e) => Err(e)
      case Ok(dims) =>
        if !NonNegative(dims) then Err(ValueError)
        else if |dims| == 1 then
          match ReadLines(lines, pos + 1, dims[0], VectorReader(conv))
          case Err(e) => Err(e)
          case Ok(vs) => Ok((VectorValue(vs), pos + 1 + dims[0]))
        else if |dims| == 2 then
          match Chunks(lines, pos + 1, dims[0], dims[1], 0, map[], RowReader(conv))
          case Err(e) => Err(e)
          case Ok(m) => Ok((MatrixValue(dims[0], dims[1], m.0), m.1))
        else Err(NotImplementedError)
  }

  // ---------------------------------------------------------------------
  // parse_block: the properties

  /** A rank-1 block of length n: entry i is the second field of the i-th following line; n+1 lines are consumed. */
  lemma VectorBlock(lines: seq<string>, pos: nat, conv: Conv, n: nat)
    requires pos < |lines| && Ints(Fields(lines[pos]), conv) == Ok([n])
    ensures BlockSpec(lines, pos, conv).Ok? ==>
              var v := BlockSpec(lines, pos, conv).value.0;
              BlockSpec(lines, pos, conv).value.1 == pos + 1 + n && v.VectorValue? && |v.entries| == n &&
              forall i :: 0 <= i < n ==> VectorEntry(lines[pos + 1 + i], conv) == Ok(v.entries[i])
    ensures BlockSpec(lines, pos, conv).Err? <==>
              pos + 1 + n > |lines| || exists q :: pos < q <= pos + n && LineFails(lines, q, VectorReader(conv))
  {
    assert NonNegative([n]);
    ReadLinesFails(lines, pos + 1, n, VectorReader(conv));
    if BlockSpec(lines, pos, conv).Ok? {
      ReadLinesEach(lines, pos + 1, n, VectorReader(conv));
    }
  }

  /** Headers with no dimension or more than two raise NotImplementedError (after the numpy shape check). */
  lemma RankNotImplemented(lines: seq<string>, pos: nat, conv: Conv, dims: seq<int>)
    requires pos < |lines| && Ints(Fields(lines[pos]), conv) == Ok(dims)
    requires |dims| != 1 && |dims| != 2
    ensures BlockSpec(lines, pos, conv) == if NonNegative(dims) then Err(NotImplementedError) else Err(ValueError)
  {
  }

  /** Row r of a chunk whose row `row` is line p was read from line p + (r - row), and its values sit at cells (r, col ..). */
  ghost predicate RowLanded(lines: seq<string>, p: nat, row: nat, r: nat, col: int, cells: map<(int, int), real>,
                            read: string -> Result<seq<real>>)
    requires row <= r
  {
    p + (r - row) < |lines| && read(lines[p + (r - row)]).Ok? && RowAt(read(lines[p + (r - row)]).value, r, col, cells)
  }

  /** The values `vs` sit at cells (r, col), (r, col + 1), ... */
  ghost predicate RowAt(vs: seq<real>, r: int, col: int, cells: map<(int, int), real>)
  {
    forall j :: 0 <= j < |vs| ==> (r, col + j) in cells && cells[(r, col + j)] == vs[j]
  }

  /** One chunk's data rows: row r comes from the r-th line after the label line, and its values land at (r, col ..). */
  lemma {:induction false} ChunkRowsWrites(lines: seq<string>, p: nat, rows: nat, cols: nat, col: nat, row: nat,
                                           cells: map<(int, int), real>, last: Option<nat>, read: string -> Result<seq<real>>)
    requires row <= rows && p <= |lines|
    requires ChunkRows(lines, p, rows, cols, col, row, cells, last, read).Ok?
    ensures var cells' := ChunkRows(lines, p, rows, cols, col, row, cells, last, read).value.0;
            forall r: nat :: row <= r < rows ==> RowLanded(lines, p, row, r, col, cells', read)
    decreases rows - row
  {
    if row < rows {
      var vs := RowStep(lines, p, cols, col, read).value;
      var next := WriteRow(cells, row, col, vs);
      WriteRowSpec(cells, row, col, vs);
      var cells' := ChunkRows(lines, p + 1, rows, cols, col, row + 1, next, Some(|vs|), read).value.0;
      ChunkRowsWrites(lines, p + 1, rows, cols, col, row + 1, next, Some(|vs|), read);
      ChunkRowsKeeps(lines, p + 1, rows, cols, col, row + 1, next, Some(|vs|), read);
      forall r: nat | row <= r < rows
        ensures RowLanded(lines, p, row, r, col, cells', read)
      {
        if r == row {
          forall j | 0 <= j < |vs| ensures (row, col + j) in cells' && cells'[(row, col + j)] == vs[j] {
            var c := (row, col + j);
            assert c in next && next[c] == vs[j];
            assert !(row + 1 <= c.0 < rows);
          }
          assert RowAt(vs, row, col, cells');
          RowLandedHere(lines, p, row, col, cells', read);
        } else {
          RowLandedShift(lines, p, row, r, col, cells', read);
        }
      }
    }
  }

  /** The row read from line p landed when all its values are in place. */
  lemma RowLandedHere(lines: seq<string>, p: nat, row: nat, col: int, cells: map<(int, int), real>,
                      read: string -> Result<seq<real>>)
    requires p < |lines| && read(lines[p]).Ok? && RowAt(read(lines[p]).value, row, col, cells)
    ensures RowLanded(lines, p, row, row, col, cells, read)
  {
    assert p + (row - row) == p;
  }

  /** Counting rows from the next line and the next row names the same line. */
  lemma RowLandedShift(lines: seq<string>, p: nat, row: nat, r: nat, col: int, cells: map<(int, int), real>,
                       read: string -> Result<seq<real>>)
    requires row < r
    requires RowLanded(lines, p + 1, row + 1, r, col, cells, read)
    ensures RowLanded(lines, p, row, r, col, cells, read)
  {
    assert p + 1 + (r - (row + 1)) == p + (r - row);
  }

  /** A chunk's data rows from `row` on leave every cell of the rows before `row` (and past the end) as it was. */
  lemma {:induction false} ChunkRowsKeeps(lines: seq<string>, p: nat, rows: nat, cols: nat, col: nat, row: nat,
                                          cells: map<(int, int), real>, last: Option<nat>, read: string -> Result<seq<real>>)
    requires row <= rows && p <= |lines|
    requires ChunkRows(lines, p, rows, cols, col, row, cells, last, read).Ok?
    ensures var cells' := ChunkRows(lines, p, rows, cols, col, row, cells, last, read).value.0;
            forall c: (int, int) :: !(row <= c.0 < rows) ==> (c in cells' <==> c in cells) && (c in cells ==> cells'[c] == cells[c])
    decreases rows - row
  {
    if row < rows {
      var vs := RowStep(lines, p, cols, col, read).value;
      WriteRowSpec(cells, row, col, vs);
      ChunkRowsKeeps(lines, p + 1, rows, cols, col, row + 1, WriteRow(cells, row, col, vs), Some(|vs|), read);
    }
  }

  // ---------------------------------------------------------------------
  // parse_block: the method

  /** A numpy array as `parse_block` returns it. */
  datatype Block = Vector(v: array<real>) | Matrix(m: array2<real>)
  {
    function Objects(): set<object>
    {
      if Vector? then {v} else {m}
    }
  }

  /** The array holds the value: the same entries, or the same shape and every written cell. */
  ghost predicate Holds(b: Block, value: BlockValue)
    reads b.Objects()
  {
    match b
    case Vector(a) => value.VectorValue? && a[..] == value.entries
    case Matrix(a) =>
      value.MatrixValue? && a.Length0 == value.rows && a.Length1 == value.cols &&
      Agrees(a, value.cells)
  }

  method ParseBlock(lines: seq<string>, pos: nat, conv: Conv) returns (r: Result<Block>, next: nat)
    ensures r.Err? <==> BlockSpec(lines, pos, conv).Err?
    ensures r.Err? ==> r.error == BlockSpec(lines, pos, conv).error
    ensures r.Ok? ==> next == BlockSpec(lines, pos, conv).value.1 && Holds(r.value, BlockSpec(lines, pos, conv).value.0)
  {
    next := pos;
    if pos >= |lines| {
      return Err(StopIteration), next;
    }
    var shape := Ints(Fields(lines[pos]), conv);
    next := pos + 1;
    if shape.Err? {
      return Err(shape.error), next;
    }
    var dims := shape.value;
    if !NonNegative(dims) {
      return Err(ValueError), next;
    }
    if |dims| == 1 {
      var a := ParseVector(lines, next, dims[0], VectorReader(conv));
      if a.Err? {
        return Err(a.error), next;
      }
      return Ok(Vector(a.value)), next + dims[0];
    } else if |dims| == 2 {
      var a := new real[dims[0], dims[1]];
      var cells, q, e := FillMatrix(lines, next, a, RowReader(conv));
      if e.Some? {
        return Err(e.value), q;
      }
      return Ok(Matrix(a)), q;
    } else {
      return Err(NotImplementedError), next;
    }
  }

  /** The rank-1 branch: `for i in range(n): array[i] = float(next(infile).split()[1])`. */
  method ParseVector(lines: seq<string>, p: nat, n: nat, read: string -> Result<real>) returns (r: Result<array<real>>)
    requires p <= |lines|
    ensures r.Err? <==> ReadLines(lines, p, n, read).Err?
    ensures r.Err? ==> r.error == ReadLines(lines, p, n, read).error
    ensures r.Ok? ==> r.value[..] == ReadLines(lines, p, n, read).value
  {
    var a := new real[n];
    for i := 0 to n
      invariant ReadLines(lines, p, i, read) == Ok(a[..i])
    {
      if p + i >= |lines| {
        ReadLinesErrorStays(lines, p, i + 1, n, read);
        return Err(StopIteration);
      }
      var x := read(lines[p + i]);
      if x.Err? {
        ReadLinesErrorStays(lines, p, i + 1, n, read);
        return Err(x.error);
      }
      a[i] := x.value;
      assert a[..i + 1] == a[..i] + [x.value];
    }
    assert a[..] == a[..n];
    return Ok(a);
  }

  /** The matrix holds every written cell. */
  ghost predicate Agrees(a: array2<real>, cells: map<(int, int), real>)
    reads a
  {
    CellsWithin(cells, a.Length0, a.Length1) && forall c :: c in cells ==> a[c.0, c.1] == cells[c]
  }

  /** `array[row, col:col+len(vs)] = vs`, on the array. */
  method StoreRow(a: array2<real>, ghost cells: map<(int, int), real>, row: nat, col: nat, vs: seq<real>)
    requires row < a.Length0 && col + |vs| <= a.Length1
    requires Agrees(a, cells)
    modifies a
    ensures Agrees(a, WriteRow(cells, row, col, vs))
  {
    for j := 0 to |vs|
      invariant forall c :: c in cells && !(c.0 == row && col <= c.1 < col + |vs|) ==> a[c.0, c.1] == cells[c]
      invariant forall i :: 0 <= i < j ==> a[row, col + i] == vs[i]
    {
      a[row, col + j] := vs[j];
    }
    ghost var w := WriteRow(cells, row, col, vs);
    WriteRowSpec(cells, row, col, vs);
    forall c | c in w ensures 0 <= c.0 < a.Length0 && 0 <= c.1 < a.Length1 && a[c.0, c.1] == w[c] {
      if c.0 == row && col <= c.1 < col + |vs| {
        assert c == (row, col + (c.1 - col));
        assert w[(row, col + (c.1 - col))] == vs[c.1 - col];
      } else {
        assert c in cells;
      }
    }
  }

  /** A chunk that was read and bound a count moves `Chunks` on to the next column. */
  lemma ChunksStep(lines: seq<string>, p: nat, rows: nat, cols: nat, col: nat,
                   cells: map<(int, int), real>, read: string -> Result<seq<real>>,
                   cells': map<(int, int), real>, p': nat, last: nat)
    requires p < |lines| && col < cols
    requires ChunkRows(lines, p + 1, rows, cols, col, 0, cells, None, read) == Ok((cells', p', Some(last)))
    ensures p' <= |lines|
    ensures Chunks(lines, p, rows, cols, col, cells, read) == Chunks(lines, p', rows, cols, col + last, cells', read)
  {
  }

  /** The column loop writes only inside the matrix's rows: every other cell is as it was. */
  lemma {:induction false} ChunksKeeps(lines: seq<string>, p: nat, rows: nat, cols: nat, col: nat,
                                       cells: map<(int, int), real>, read: string -> Result<seq<real>>)
    requires p <= |lines| && Chunks(lines, p, rows, cols, col, cells, read).Ok?
    ensures var cells' := Chunks(lines, p, rows, cols, col, cells, read).value.0;
            forall c: (int, int) :: !(0 <= c.0 < rows) ==> (c in cells' <==> c in cells) && (c in cells ==> cells'[c] == cells[c])
    decreases |lines| - p
  {
    if col < cols {
      var chunk := ChunkRows(lines, p + 1, rows, cols, col, 0, cells, None, read).value;
      ChunkRowsKeeps(lines, p + 1, rows, cols, col, 0, cells, None, read);
      ChunksKeeps(lines, chunk.1, rows, cols, col + chunk.2.value, chunk.0, read);
    }
  }

  /** With columns but no rows, `len(fields)` names a variable no row has bound: UnboundLocalError, once the label line is there. */
  lemma ChunksNoRows(lines: seq<string>, p: nat, cols: nat, col: nat,
                     cells: map<(int, int), real>, read: string -> Result<seq<real>>)
    requires p <= |lines| && col < cols
    ensures Chunks(lines, p, 0, cols, col, cells, read) == Err(if p < |lines| then UnboundLocalError else StopIteration)
  {
  }

  /**
   * The rank-2 branch: `while col < cols`, skip the column-label line, read
   * the chunk's rows, then advance `col` by the last row's count.  Returns
   * the error, if any, and where the cursor stops.
   */
  method FillMatrix(lines: seq<string>, p0: nat, a: array2<real>, read: string -> Result<seq<real>>)
      returns (cells: map<(int, int), real>, p: nat, e: Option<Error>)
    requires p0 <= |lines|
    modifies a
    ensures var spec := Chunks(lines, p0, a.Length0, a.Length1, 0, map[], read);
            (e.Some? <==> spec.Err?) && (e.Some? ==> e.value == spec.error) &&
            (e.None? ==> cells == spec.value.0 && p == spec.value.1 && Agrees(a, cells))
  {
    var col: nat := 0;
    p := p0;
    cells := map[];
    ghost var spec := Chunks(lines, p0, a.Length0, a.Length1, 0, map[], read);
    while col < a.Length1
      invariant p <= |lines|
      invariant Chunks(lines, p, a.Length0, a.Length1, col, cells, read) == spec
      invariant Agrees(a, cells)
      decreases |lines| - p
    {
      if p >= |lines| {
        return cells, p, Some(StopIteration);
      }
      ghost var p1, cells1 := p, cells;
      var last;
      cells, p, last, e := FillChunk(lines, p + 1, a, col, cells, read);
      if e.Some? {
        return;
      }
      if last.None? {
        return cells, p, Some(UnboundLocalError);
      }
      ChunksStep(lines, p1, a.Length0, a.Length1, col, cells1, read, cells, p, last.value);
      assert Chunks(lines, p, a.Length0, a.Length1, col + last.value, cells, read) == spec;
      col := col + last.value;
    }
    return cells, p, None;
  }

  /** One column chunk's data rows: `for row in range(rows)`, write the row's values at `[row, col:col+k]`. */
  method FillChunk(lines: seq<string>, p0: nat, a: array2<real>, col: nat, cells0: map<(int, int), real>,
                   read: string -> Result<seq<real>>)
      returns (cells: map<(int, int), real>, p: nat, last: Option<nat>, e: Option<Error>)
    requires p0 <= |lines| && Agrees(a, cells0)
    modifies a
    ensures var spec := ChunkRows(lines, p0, a.Length0, a.Length1, col, 0, cells0, None, read);
            (e.Some? <==> spec.Err?) && (e.Some? ==> e.value == spec.error) &&
            (e.None? ==> (cells, p, last) == spec.value && Agrees(a, cells))
  {
    cells, p, last := cells0, p0, None;
    for row := 0 to a.Length0
      invariant p == p0 + row && p <= |lines|
      invariant ChunkRows(lines, p, a.Length0, a.Length1, col, row, cells, last, read)
             == ChunkRows(lines, p0, a.Length0, a.Length1, col, 0, cells0, None, read)
      invariant Agrees(a, cells)
    {
      var step := RowStep(lines, p, a.Length1, col, read);
      if step.Err? {
        return cells, p, last, Some(step.error);
      }
      var vs := step.value;
      StoreRow(a, cells, row, col, vs);
      cells := WriteRow(cells, row, col, vs);
      last := Some(|vs|);
      p := p + 1;
    }
    e := None;
  }

  // ---------------------------------------------------------------------
  // _parse_atoms

  /** `_parse_atoms` on the text: the count line, then that many atom lines. */
  function AtomsSection(lines: seq<string>, pos: nat, conv: Conv): (r: Result<(seq<AtomRecord>, nat)>)
    ensures r.Ok? ==> pos < |lines| && r.value.1 == pos + 1 + |r.value.0| && r.value.1 <= |lines|
  {
    if pos >= |lines| then Err(StopIteration)
    else match conv.toInt(Strip(lines[pos]))
      case None => Err(ValueError)
      case Some(n) =>
        if n < 0 then Err(ValueError)
        else match ReadLines(lines, pos + 1, n, AtomReader(conv))
          case Err(e) => Err(e)
          case Ok(recs) => Ok((recs, pos + 1 + n))
  }

  /** Exactly `natoms` lines follow the count line; atom i is read from the i-th of them. */
  lemma AtomsSectionReads(lines: seq<string>, pos: nat, conv: Conv)
    requires AtomsSection(lines, pos, conv).Ok?
    ensures var recs := AtomsSection(lines, pos, conv).value.0;
            conv.toInt(Strip(lines[pos])) == Some(|recs|) &&
            forall i :: 0 <= i < |recs| ==> AtomLine(lines[pos + 1 + i], conv) == Ok(recs[i])
  {
    var n := conv.toInt(Strip(lines[pos])).value;
    ReadLinesEach(lines, pos + 1, n, AtomReader(conv));
  }

  /** `_parse_atoms`'s three attributes. */
  datatype AtomsData = AtomsData(labels: seq<string>, masses: array<real>, coords: array2<real>)

  /** The attributes hold the records: one entry per atom, coordinates scaled from Bohr by `bohr`. */
  ghost predicate AtomsHold(d: AtomsData, recs: seq<AtomRecord>, bohr: real)
    reads d.masses, d.coords
  {
    |d.labels| == |recs| && d.masses.Length == |recs| && d.coords.Length0 == |recs| && d.coords.Length1 == 3 &&
    forall i :: 0 <= i < |recs| ==>
      d.labels[i] == recs[i].name && d.masses[i] == recs[i].mass &&
      forall k :: 0 <= k < 3 ==> d.coords[i, k] == recs[i].Coord(k) * bohr
  }

  /** The first |recs| entries of the attributes hold the records as read, still in Bohr. */
  ghost predicate AtomsPrefix(labels: seq<string>, masses: array<real>, coords: array2<real>, recs: seq<AtomRecord>)
    reads masses, coords
  {
    |labels| == |recs| && |recs| <= masses.Length && |recs| <= coords.Length0 && coords.Length1 == 3 &&
    forall i :: 0 <= i < |recs| ==>
      labels[i] == recs[i].name && masses[i] == recs[i].mass &&
      forall k :: 0 <= k < 3 ==> coords[i, k] == recs[i].Coord(k)
  }

  /** One iteration of the atom loop: `atoms.append`, `masses[i] = ...`, `coords[i] = ...`. */
  method StoreAtom(labels: seq<string>, masses: array<real>, coords: array2<real>, ghost recs: seq<AtomRecord>,
                   i: nat, a: AtomRecord) returns (labels': seq<string>)
    requires AtomsPrefix(labels, masses, coords, recs)
    requires i == |recs| && i < masses.Length && i < coords.Length0
    modifies masses, coords
    ensures AtomsPrefix(labels', masses, coords, recs + [a])
  {
    masses[i] := a.mass;
    coords[i, 0] := a.x;
    coords[i, 1] := a.y;
    coords[i, 2] := a.z;
    labels' := labels + [a.name];
  }

  /** `self.coords *= ANGSTROMS_PER_BOHR`. */
  method ScaleCoords(coords: array2<real>, bohr: real)
    modifies coords
    ensures forall i, k :: 0 <= i < coords.Length0 && 0 <= k < coords.Length1 ==> coords[i, k] == old(coords[i, k]) * bohr
  {
    for i := 0 to coords.Length0
      invariant forall i', k :: 0 <= i' < i && 0 <= k < coords.Length1 ==> coords[i', k] == old(coords[i', k]) * bohr
      invariant forall i', k :: i <= i' < coords.Length0 && 0 <= k < coords.Length1 ==> coords[i', k] == old(coords[i', k])
    {
      for k := 0 to coords.Length1
        invariant forall i', k' :: 0 <= i' < i && 0 <= k' < coords.Length1 ==> coords[i', k'] == old(coords[i', k']) * bohr
        invariant forall k' :: 0 <= k' < k ==> coords[i, k'] == old(coords[i, k']) * bohr
        invariant forall i', k' :: i <= i' < coords.Length0 && 0 <= k' < coords.Length1 && (i' > i || k' >= k) ==> coords[i', k'] == old(coords[i', k'])
      {
        coords[i, k] := coords[i, k] * bohr;
      }
    }
  }

  /** `_parse_atoms`: `natoms = int(next(hessfile).strip())`, then the atom lines. */
  method ParseAtoms(lines: seq<string>, pos: nat, conv: Conv, bohr: real) returns (r: Result<AtomsData>, next: nat)
    ensures r.Err? <==> AtomsSection(lines, pos, conv).Err?
    ensures r.Err? ==> r.error == AtomsSection(lines, pos, conv).error
    ensures r.Ok? ==> next == AtomsSection(lines, pos, conv).value.1 &&
                      AtomsHold(r.value, AtomsSection(lines, pos, conv).value.0, bohr)
  {
    next := pos;
    if pos >= |lines| {
      return Err(StopIteration), next;
    }
    var count := conv.toInt(Strip(lines[pos]));
    next := pos + 1;
    if count.None? || count.value < 0 {
      return Err(ValueError), next;
    }
    r := ReadAtoms(lines, next, count.value, AtomReader(conv), bohr);
    if r.Ok? {
      next := next + count.value;
    }
  }

  /**
   * The atom loop: label, mass and coordinate row of each line; the whole
   * coordinate array is then scaled from Bohr to Angstrom.
   */
  method ReadAtoms(lines: seq<string>, p: nat, n: nat, read: string -> Result<AtomRecord>, bohr: real)
      returns (r: Result<AtomsData>)
    requires p <= |lines|
    ensures r.Err? <==> ReadLines(lines, p, n, read).Err?
    ensures r.Err? ==> r.error == ReadLines(lines, p, n, read).error
    ensures r.Ok? ==> AtomsHold(r.value, ReadLines(lines, p, n, read).value, bohr)
  {
    var labels: seq<string> := [];
    var masses := new real[n];
    var coords := new real[n, 3];
    ghost var recs: seq<AtomRecord> := [];
    for i := 0 to n
      modifies masses, coords
      invariant ReadLines(lines, p, i, read) == Ok(recs)
      invariant |recs| == i && AtomsPrefix(labels, masses, coords, recs)
    {
      if p + i >= |lines| {
        ReadLinesErrorStays(lines, p, i + 1, n, read);
        return Err(StopIteration);
      }
      var atom := read(lines[p + i]);
      if atom.Err? {
        ReadLinesErrorStays(lines, p, i + 1, n, read);
        return Err(atom.error);
      }
      var a := atom.value;
      labels := StoreAtom(labels, masses, coords, recs, i, a);
      recs := recs + [a];
    }
    ScaleCoords(coords, bohr);
    return Ok(AtomsData(labels, masses, coords));
  }

  // ---------------------------------------------------------------------
  // _parse_normal_modes

  /**
   * Length of the row slice `[3a : 3a + 3]` of a matrix with `rows` rows,
   * which numpy clips at the end.
   */
  function SliceLen(rows: nat, a: nat): (r: nat)
    ensures r <= 3 && (r == 3 <==> 3 * a + 3 <= rows) && (r == 0 <==> rows <= 3 * a)
  {
    if rows >= 3 * a + 3 then 3 else if rows <= 3 * a then 0 else rows - 3 * a
  }

  /** Every atom's slice can be stored in a row of three: copied (three values) or broadcast (one). */
  predicate ModesFit(rows: nat, natom: nat)
  {
    forall a :: 0 <= a < natom ==> SliceLen(rows, a) == 3 || SliceLen(rows, a) == 1
  }

  /** Only the last atom's slice can be short, so the slices fit exactly when it has three rows or one. */
  lemma ModesFitIff(rows: nat, natom: nat)
    ensures ModesFit(rows, natom) <==> natom == 0 || rows >= 3 * natom || rows == 3 * natom - 2
  {
    if natom > 0 && !(rows >= 3 * natom || rows == 3 * natom - 2) {
      assert !(SliceLen(rows, natom - 1) == 3 || SliceLen(rows, natom - 1) == 1);
    }
  }

  /** The matrix row that component k of atom a is taken from: `3a + k`, or `3a` when one value is broadcast. */
  function SourceRow(rows: nat, a: nat, k: nat): (r: nat)
    requires k < 3
    ensures SliceLen(rows, a) == 3 ==> r == 3 * a + k
    ensures SliceLen(rows, a) == 3 || SliceLen(rows, a) == 1 ==> r < rows
  {
    if SliceLen(rows, a) == 3 then 3 * a + k else 3 * a
  }

  /** `nmode_displacements[m, a, k]` is column m of the matrix at row `SourceRow(a, k)`. */
  ghost predicate ModesFrom(d: array3<real>, m: array2<real>)
    reads d, m
  {
    d.Length0 == m.Length1 && d.Length1 == m.Length1 / 3 && d.Length2 == 3 && ModesFit(m.Length0, d.Length1) &&
    forall mo, a, k :: 0 <= mo < d.Length0 && 0 <= a < d.Length1 && 0 <= k < 3 ==>
      d[mo, a, k] == m[SourceRow(m.Length0, a, k), mo]
  }

  /** What `_parse_normal_modes` raises on a parsed block: IndexError for a vector, ValueError if a slice cannot be stored. */
  function ModesCheck(v: BlockValue): (r: Option<Error>)
    ensures r.None? <==> v.MatrixValue? && ModesFit(v.rows, v.cols / 3)
  {
    if v.VectorValue? then Some(IndexError)
    else if !ModesFit(v.rows, v.cols / 3) then Some(ValueError)
    else None
  }

  /**
   * `_parse_normal_modes` after its `parse_block`: a (3N x M) matrix becomes
   * M modes of `M // 3` atoms of three components each.
   */
  method ParseNormalModes(b: Block) returns (r: Result<array3<real>>)
    ensures b.Vector? ==> r == Err(IndexError)
    ensures b.Matrix? ==> (r.Ok? <==> ModesFit(b.m.Length0, b.m.Length1 / 3))
    ensures r.Err? ==> r.error == (if b.Vector? then IndexError else ValueError)
    ensures r.Ok? ==> b.Matrix? && fresh(r.value) && ModesFrom(r.value, b.m)
  {
    if b.Vector? {
      return Err(IndexError);
    }
    var m := b.m;
    var nmode := m.Length1;
    var natom := nmode / 3;
    var d := new real[nmode, natom, 3];
    for a := 0 to natom
      invariant forall a' :: 0 <= a' < a ==> SliceLen(m.Length0, a') == 3 || SliceLen(m.Length0, a') == 1
      invariant forall mo, a', k :: 0 <= mo < nmode && 0 <= a' < a && 0 <= k < 3 ==>
                  d[mo, a', k] == m[SourceRow(m.Length0, a', k), mo]
    {
      var len := SliceLen(m.Length0, a);
      if len != 3 && len != 1 {
        assert !ModesFit(m.Length0, natom);
        return Err(ValueError);
      }
      for mo := 0 to nmode
        invariant forall mo', a', k :: 0 <= mo' < nmode && 0 <= a' < a && 0 <= k < 3 ==>
                    d[mo', a', k] == m[SourceRow(m.Length0, a', k), mo']
        invariant forall mo', k :: 0 <= mo' < mo && 0 <= k < 3 ==> d[mo', a, k] == m[SourceRow(m.Length0, a, k), mo']
      {
        d[mo, a, 0] := m[SourceRow(m.Length0, a, 0), mo];
        d[mo, a, 1] := m[SourceRow(m.Length0, a, 1), mo];
        d[mo, a, 2] := m[SourceRow(m.Length0, a, 2), mo];
      }
    }
    return Ok(d);
  }

  // ---------------------------------------------------------------------
  // _finalize

  /** `masses[:, None]**0.5` as broadcast against `natom` atoms: one mass per atom, or a single mass for all. */
  function Weights(masses: seq<real>, natom: nat, sqrt: real -> real): (ws: seq<real>)
    requires |masses| == natom || |masses| == 1
    ensures |ws| == natom
    ensures forall a :: 0 <= a < natom ==> ws[a] == sqrt(masses[if |masses| == 1 then 0 else a])
  {
    seq(natom, a requires 0 <= a < natom => sqrt(masses[if |masses| == 1 then 0 else a]))
  }

  /** A mode's components in atom-major order: entry `3a + k` is component k of atom a. */
  function ModeFlat(d: array3<real>, mo: nat): (x: seq<real>)
    requires mo < d.Length0 && d.Length2 == 3
    reads d
    ensures |x| == 3 * d.Length1
  {
    seq(3 * d.Length1, i requires 0 <= i < 3 * d.Length1 reads d => d[mo, i / 3, i % 3])
  }

  /** Each component times its atom's weight. */
  function Weighted(x: seq<real>, ws: seq<real>): (u: seq<real>)
    requires |x| == 3 * |ws|
    ensures |u| == |x|
  {
    seq(|x|, i requires 0 <= i < |x| => x[i] * ws[i / 3])
  }

  /** Component k of atom a of a weighted mode is that component times the atom's weight. */
  lemma WeightedAtom(x: seq<real>, ws: seq<real>, a: nat, k: nat)
    requires |x| == 3 * |ws| && a < |ws| && k < 3
    ensures Weighted(x, ws)[3 * a + k] == x[3 * a + k] * ws[a]
  {
    assert (3 * a + k) / 3 == a;
  }

  /** `a**2`. */
  function Sq(a: real): real
  {
    a * a
  }

  /** `(x**2).sum()`, summed left to right. */
  function SumSq(x: seq<real>): (r: real)
  {
    if x == [] then 0.0 else SumSq(x[..|x| - 1]) + Sq(x[|x| - 1])
  }

  function Divide(x: seq<real>, n: real): (r: seq<real>)
    requires n != 0.0
    ensures |r| == |x|
  {
    seq(|x|, i requires 0 <= i < |x| => x[i] / n)
  }

  /** One mode of `_finalize`: weighted by the atoms' weights, then divided by its norm when that exceeds the tolerance. */
  function UnweightedMode(x: seq<real>, ws: seq<real>, sqrt: real -> real): (u: seq<real>)
    requires |x| == 3 * |ws|
    ensures |u| == |x|
  {
    var w := Weighted(x, ws);
    var norm := sqrt(SumSq(w));
    if norm > NormTolerance then Divide(w, norm) else w
  }

  /** Dividing every component by n divides the sum of squares by n squared. */
  lemma {:induction false} SumSqDivide(x: seq<real>, n: real)
    requires n != 0.0
    ensures SumSq(Divide(x, n)) * Sq(n) == SumSq(x)
  {
    if x == [] {
      assert Divide(x, n) == [];
    } else {
      var y := Divide(x, n);
      var l := |x| - 1;
      assert y[..l] == Divide(x[..l], n);
      SumSqDivide(x[..l], n);
      assert y[l] == x[l] / n;
      QuotientSquare(x[l], n);
      SumSqStep(SumSq(y), SumSq(y[..l]), y[l], SumSq(x), SumSq(x[..l]), x[l], Sq(n));
    }
  }

  // Steps of real arithmetic, each in a proof obligation of its own: the
  // solver's nonlinear reasoning does not survive being mixed with the
  // sequence reasoning above.

  lemma QuotientSquare(a: real, n: real)
    requires n != 0.0
    ensures Sq(a / n) * Sq(n) == Sq(a)
  {
    var q := a / n;
    assert q * n == a;
  }

  lemma SumSqStep(sy: real, syl: real, yl: real, sx: real, sxl: real, xl: real, m: real)
    requires sy == syl + Sq(yl) && sx == sxl + Sq(xl)
    requires syl * m == sxl && Sq(yl) * m == Sq(xl)
    ensures sy * m == sx
  {
  }

  lemma PositiveSquare(n: real)
    requires n > 0.0
    ensures 0.0 < Sq(n)
  {
    calc {
      Sq(n);
      n * n;
    >
      0.0 * n;
    }
  }

  lemma UnitFactor(t: real, s: real)
    requires t * s == s && s > 0.0
    ensures t == 1.0
  {
  }

  /** Divided by its norm, a vector has unit sum of squares. */
  lemma DivideByNorm(w: seq<real>, n: real)
    requires n > 0.0 && Sq(n) == SumSq(w)
    ensures SumSq(Divide(w, n)) == 1.0
  {
    SumSqDivide(w, n);
    PositiveSquare(n);
    UnitFactor(SumSq(Divide(w, n)), SumSq(w));
  }

  /** A mode whose norm exceeds the tolerance comes out with unit norm (for an exact square root). */
  lemma NormalisedUnitNorm(x: seq<real>, ws: seq<real>, sqrt: real -> real)
    requires |x| == 3 * |ws|
    requires Sq(sqrt(SumSq(Weighted(x, ws)))) == SumSq(Weighted(x, ws))
    requires sqrt(SumSq(Weighted(x, ws))) > NormTolerance
    ensures SumSq(UnweightedMode(x, ws, sqrt)) == 1.0
  {
    var w := Weighted(x, ws);
    DivideByNorm(w, sqrt(SumSq(w)));
  }

  /** A mode whose norm does not exceed the tolerance is only weighted. */
  lemma SmallModeUnnormalised(x: seq<real>, ws: seq<real>, sqrt: real -> real)
    requires |x| == 3 * |ws|
    requires sqrt(SumSq(Weighted(x, ws))) <= NormTolerance
    ensures UnweightedMode(x, ws, sqrt) == Weighted(x, ws)
  {
  }

  /** What `_finalize` raises: no modes read, no masses read while there are modes, or masses that do not broadcast. */
  function FinalizeError(hasModes: bool, nmode: nat, natom: nat, masses: Option<nat>): (r: Option<Error>)
    ensures r.None? <==> hasModes && (nmode == 0 || (masses.Some? && (masses.value == natom || masses.value == 1)))
  {
    if !hasModes then Some(AttributeError)
    else if nmode == 0 then None
    else if masses.None? then Some(AttributeError)
    else if masses.value == natom || masses.value == 1 then None
    else Some(ValueError)
  }

  /** `unweighted_nmode_displacements`: the same shape as the modes, each mode unweighted by `UnweightedMode`. */
  ghost predicate UnweightedFrom(out: array3<real>, d: array3<real>, masses: seq<real>, sqrt: real -> real)
    reads out, d
  {
    out.Length0 == d.Length0 && out.Length1 == d.Length1 && out.Length2 == 3 && d.Length2 == 3 &&
    (d.Length0 > 0 ==> |masses| == d.Length1 || |masses| == 1) &&
    forall mo, a, k :: 0 <= mo < d.Length0 && 0 <= a < d.Length1 && 0 <= k < 3 ==>
      out[mo, a, k] == UnweightedMode(ModeFlat(d, mo), Weights(masses, d.Length1, sqrt), sqrt)[3 * a + k]
  }

  /** The body of `_finalize` on the modes and masses read: a fresh array of unweighted modes, or the error raised. */
  method UnweightModes(d: Option<array3<real>>, masses: Option<array<real>>, sqrt: real -> real)
      returns (r: Result<array3<real>>)
    requires d.Some? ==> d.value.Length2 == 3
    ensures var f := FinalizeError(d.Some?, if d.Some? then d.value.Length0 else 0, if d.Some? then d.value.Length1 else 0,
                                   if masses.Some? then Some(masses.value.Length) else None);
            (r.Err? <==> f.Some?) && (r.Err? ==> r.error == f.value)
    ensures r.Ok? ==> d.Some? && fresh(r.value) &&
                      UnweightedFrom(r.value, d.value, if masses.Some? then masses.value[..] else [], sqrt)
  {
    if d.None? {
      return Err(AttributeError);
    }
    var modes := d.value;
    var out := new real[modes.Length0, modes.Length1, 3];
    if modes.Length0 == 0 {
      return Ok(out);
    }
    if masses.None? {
      return Err(AttributeError);
    }
    var ms := masses.value[..];
    if !(|ms| == modes.Length1 || |ms| == 1) {
      return Err(ValueError);
    }
    var ws := Weights(ms, modes.Length1, sqrt);
    for mo := 0 to modes.Length0
      invariant forall mo', a, k :: 0 <= mo' < mo && 0 <= a < modes.Length1 && 0 <= k < 3 ==>
                  out[mo', a, k] == UnweightedMode(ModeFlat(modes, mo'), ws, sqrt)[3 * a + k]
    {
      var u := UnweightedMode(ModeFlat(modes, mo), ws, sqrt);
      StoreMode(out, mo, u);
    }
    return Ok(out);
  }

  /** `unweighted_displacements[imode] = u`. */
  method StoreMode(out: array3<real>, mo: nat, u: seq<real>)
    requires mo < out.Length0 && out.Length2 == 3 && |u| == 3 * out.Length1
    modifies out
    ensures forall a, k :: 0 <= a < out.Length1 && 0 <= k < 3 ==> out[mo, a, k] == u[3 * a + k]
    ensures forall mo', a, k :: 0 <= mo' < out.Length0 && mo' != mo && 0 <= a < out.Length1 && 0 <= k < 3 ==>
              out[mo', a, k] == old(out[mo', a, k])
  {
    for a := 0 to out.Length1
      invariant forall a', k :: 0 <= a' < a && 0 <= k < 3 ==> out[mo, a', k] == u[3 * a' + k]
      invariant forall mo', a', k :: 0 <= mo' < out.Length0 && mo' != mo && 0 <= a' < out.Length1 && 0 <= k < 3 ==>
                  out[mo', a', k] == old(out[mo', a', k])
    {
      out[mo, a, 0] := u[3 * a];
      out[mo, a, 1] := u[3 * a + 1];
      out[mo, a, 2] := u[3 * a + 2];
    }
  }

  // ---------------------------------------------------------------------
  // OrcaHessian.read

  /** The section headers `read` dispatches on. */
  const FrequenciesKey: string := "$vibrational_frequencies"
  const NormalModesKey: string := "$normal_modes"
  const AtomsKey: string := "$atoms"

  /** The sections read so far, as values: the last frequency block, normal-mode block and atom list read. */
  datatype Sections = Sections(frequencies: Option<BlockValue>, modes: Option<BlockValue>, atoms: Option<seq<AtomRecord>>)

  /**
   * One turn of `read`'s loop at line `pos`: a line starting with a section
   * header hands the following lines to that section's parser, which
   * consumes them; any other line is skipped.  The new sections and the
   * next line to read, or the error raised.
   */
  function Step(lines: seq<string>, pos: nat, s: Sections, conv: Conv): (r: Result<(Sections, nat)>)
    requires pos < |lines|
    ensures r.Ok? ==> pos < r.value.1 <= |lines|
  {
    if StartsWith(lines[pos], FrequenciesKey) then
      var b := BlockSpec(lines, pos + 1, conv);
      if b.Err? then Err(b.error) else Ok((s.(frequencies := Some(b.value.0)), b.value.1))
    else if StartsWith(lines[pos], NormalModesKey) then
      var b := BlockSpec(lines, pos + 1, conv);
      if b.Err? then Err(b.error)
      else if ModesCheck(b.value.0).Some? then Err(ModesCheck(b.value.0).value)
      else Ok((s.(modes := Some(b.value.0)), b.value.1))
    else if StartsWith(lines[pos], AtomsKey) then
      var a := AtomsSection(lines, pos + 1, conv);
      if a.Err? then Err(a.error) else Ok((s.(atoms := Some(a.value.0)), a.value.1))
    else Ok((s, pos + 1))
  }

  /** `read`'s loop from line `pos` to the end of the file. */
  function Scan(lines: seq<string>, pos: nat, s: Sections, conv: Conv): (r: Result<Sections>)
    requires pos <= |lines|
    decreases |lines| - pos
  {
    if pos == |lines| then Ok(s)
    else
      var st := Step(lines, pos, s, conv);
      if st.Err? then Err(st.error) else Scan(lines, st.value.1, st.value.0, conv)
  }

  /** A section whose header starts no line from `pos` on keeps the value it had before. */
  lemma {:induction false} ScanKeepsUnnamed(lines: seq<string>, pos: nat, s: Sections, conv: Conv)
    requires pos <= |lines| && Scan(lines, pos, s, conv).Ok?
    ensures (forall q :: pos <= q < |lines| ==> !StartsWith(lines[q], FrequenciesKey)) ==>
              Scan(lines, pos, s, conv).value.frequencies == s.frequencies
    ensures (forall q :: pos <= q < |lines| ==> !StartsWith(lines[q], NormalModesKey)) ==>
              Scan(lines, pos, s, conv).value.modes == s.modes
    ensures (forall q :: pos <= q < |lines| ==> !StartsWith(lines[q], AtomsKey)) ==>
              Scan(lines, pos, s, conv).value.atoms == s.atoms
    decreases |lines| - pos
  {
    if pos < |lines| {
      var st := Step(lines, pos, s, conv).value;
      ScanKeepsUnnamed(lines, st.1, st.0, conv);
    }
  }

  predicate IsHeader(line: string)
  {
    StartsWith(line, FrequenciesKey) || StartsWith(line, NormalModesKey) || StartsWith(line, AtomsKey)
  }

  /** Lines that start with no section header change nothing: a file without headers leaves every section as it was. */
  lemma {:induction false} ScanSkipsOtherLines(lines: seq<string>, pos: nat, s: Sections, conv: Conv)
    requires pos <= |lines|
    requires forall q :: pos <= q < |lines| ==> !IsHeader(lines[q])
    ensures Scan(lines, pos, s, conv) == Ok(s)
    decreases |lines| - pos
  {
    if pos < |lines| {
      ScanSkipsOtherLines(lines, pos + 1, s, conv);
    }
  }

  /** What `_finalize` raises after the sections `s` were read. */
  function SectionsError(s: Sections): (r: Option<Error>)
  {
    var nmode := if s.modes.Some? && s.modes.value.MatrixValue? then s.modes.value.cols else 0;
    FinalizeError(s.modes.Some?, nmode, nmode / 3, if s.atoms.Some? then Some(|s.atoms.value|) else None)
  }

  /** The arrays the attributes of an `OrcaHessian` refer to. */
  ghost function HeldObjects(frequencies: Option<Block>, modes: Option<array3<real>>, modeMatrix: Option<array2<real>>,
                             atoms: Option<AtomsData>): set<object>
  {
    (if frequencies.Some? then frequencies.value.Objects() else {}) +
    (if modes.Some? then {modes.value} else {}) +
    (if modeMatrix.Some? then {modeMatrix.value} else {}) +
    (if atoms.Some? then {atoms.value.masses, atoms.value.coords} else {})
  }

  /** Every attribute is set exactly when its section was read, and holds that section. */
  ghost predicate Held(frequencies: Option<Block>, modes: Option<array3<real>>, modeMatrix: Option<array2<real>>,
                       atoms: Option<AtomsData>, sections: Sections, bohr: real)
    reads HeldObjects(frequencies, modes, modeMatrix, atoms)
  {
    (frequencies.Some? <==> sections.frequencies.Some?) &&
    (frequencies.Some? ==> Holds(frequencies.value, sections.frequencies.value)) &&
    (modes.Some? <==> sections.modes.Some?) &&
    (modes.Some? ==> modeMatrix.Some? && Holds(Matrix(modeMatrix.value), sections.modes.value) &&
                     ModesFrom(modes.value, modeMatrix.value)) &&
    (atoms.Some? <==> sections.atoms.Some?) &&
    (atoms.Some? ==> AtomsHold(atoms.value, sections.atoms.value, bohr))
  }

  /** An `OrcaHessian` object: the attributes `read` sets, with the sections they were parsed from. */
  class Hessian {
    var frequencies: Option<Block>
    var modes: Option<array3<real>>
    var atoms: Option<AtomsData>
    var unweighted: Option<array3<real>>
    /** The parsed `$normal_modes` matrix, a local of `_parse_normal_modes`. */
    ghost var modeMatrix: Option<array2<real>>
    ghost var sections: Sections
    /** `x**0.5` and `ANGSTROMS_PER_BOHR`. */
    const sqrt: real -> real
    const bohr: real

    ghost function Footprint(): set<object>
      reads this
    {
      HeldObjects(frequencies, modes, modeMatrix, atoms)
    }

    /** Every attribute holds the section it was parsed from. */
    ghost predicate Valid()
      reads this, Footprint()
    {
      Held(frequencies, modes, modeMatrix, atoms, sections, bohr)
    }

    /** `OrcaHessian()`: no attribute is set yet. */
    constructor (sqrt: real -> real, bohr: real)
      ensures Valid() && sections == Sections(None, None, None) && unweighted.None?
      ensures this.sqrt == sqrt && this.bohr == bohr
    {
      frequencies, modes, atoms, unweighted, modeMatrix := None, None, None, None, None;
      sections := Sections(None, None, None);
      this.sqrt, this.bohr := sqrt, bohr;
    }

    /** The masses `_finalize` broadcasts, if `_parse_atoms` has run. */
    ghost function Masses(): seq<real>
      reads this, if atoms.Some? then {atoms.value.masses} else {}
    {
      if atoms.Some? then atoms.value.masses[..] else []
    }

    /**
     * `read(hessfile)`: the section loop over the whole file, then
     * `_finalize` once.  Sections the file does not contain keep what an
     * earlier `read` stored.
     */
    method Read(lines: seq<string>, conv: Conv) returns (e: Option<Error>)
      requires Valid()
      modifies this
      ensures var scan := Scan(lines, 0, old(sections), conv);
              (scan.Err? ==> e == Some(scan.error)) &&
              (scan.Ok? ==> Valid() && sections == scan.value && e == SectionsError(scan.value)) &&
              (scan.Ok? && e.None? ==> modes.Some? && unweighted.Some? &&
                                       UnweightedFrom(unweighted.value, modes.value, Masses(), sqrt))
    {
      var pos := 0;
      while pos < |lines|
        invariant pos <= |lines| && Valid()
        invariant Scan(lines, pos, sections, conv) == Scan(lines, 0, old(sections), conv)
        decreases |lines| - pos
      {
        var next;
        e, next := ReadLine(lines, pos, conv);
        if e.Some? {
          return;
        }
        pos := next;
      }
      e := Finalize();
    }

    /** One turn of `read`'s loop: the section that starts at line `pos`, if any. */
    method ReadLine(lines: seq<string>, pos: nat, conv: Conv) returns (e: Option<Error>, next: nat)
      requires pos < |lines| && Valid()
      modifies this`frequencies, this`modes, this`modeMatrix, this`atoms, this`sections
      ensures var st := Step(lines, pos, old(sections), conv);
              (e.Some? <==> st.Err?) && (e.Some? ==> e.value == st.error) &&
              (e.None? ==> Valid() && sections == st.value.0 && next == st.value.1)
    {
      if StartsWith(lines[pos], FrequenciesKey) {
        e, next := ParseFrequencies(lines, pos + 1, conv);
      } else if StartsWith(lines[pos], NormalModesKey) {
        e, next := ParseModes(lines, pos + 1, conv);
      } else if StartsWith(lines[pos], AtomsKey) {
        e, next := ParseAtomsSection(lines, pos + 1, conv);
      } else {
        e, next := None, pos + 1;
      }
    }

    /** `_parse_vibrational_frequencies`: the block after the header. */
    method ParseFrequencies(lines: seq<string>, pos: nat, conv: Conv) returns (e: Option<Error>, next: nat)
      requires Valid()
      modifies this`frequencies, this`sections
      ensures var b := BlockSpec(lines, pos, conv);
              (e.Some? <==> b.Err?) && (e.Some? ==> e.value == b.error) &&
              (e.None? ==> Valid() && sections == old(sections).(frequencies := Some(b.value.0)) && next == b.value.1)
    {
      var b;
      b, next := ParseBlock(lines, pos, conv);
      if b.Err? {
        return Some(b.error), next;
      }
      frequencies := Some(b.value);
      sections := sections.(frequencies := Some(BlockSpec(lines, pos, conv).value.0));
      e := None;
    }

    /** `_parse_normal_modes`: the block after the header, reshaped into modes. */
    method ParseModes(lines: seq<string>, pos: nat, conv: Conv) returns (e: Option<Error>, next: nat)
      requires Valid()
      modifies this`modes, this`modeMatrix, this`sections
      ensures var b := BlockSpec(lines, pos, conv);
              (e.Some? <==> b.Err? || ModesCheck(b.value.0).Some?) &&
              (e.Some? ==> e.value == if b.Err? then b.error else ModesCheck(b.value.0).value) &&
              (e.None? ==> Valid() && sections == old(sections).(modes := Some(b.value.0)) && next == b.value.1)
    {
      var b;
      b, next := ParseBlock(lines, pos, conv);
      if b.Err? {
        return Some(b.error), next;
      }
      var d := ParseNormalModes(b.value);
      if d.Err? {
        return Some(d.error), next;
      }
      ghost var v := BlockSpec(lines, pos, conv).value.0;
      assert Valid() && Holds(Matrix(b.value.m), v) && ModesFrom(d.value, b.value.m);
      assert Held(frequencies, Some(d.value), Some(b.value.m), atoms, sections.(modes := Some(v)), bohr);
      modes := Some(d.value);
      modeMatrix := Some(b.value.m);
      sections := sections.(modes := Some(v));
      e := None;
    }

    /** `_parse_atoms`: the atom count and atom lines after the header. */
    method ParseAtomsSection(lines: seq<string>, pos: nat, conv: Conv) returns (e: Option<Error>, next: nat)
      requires Valid()
      modifies this`atoms, this`sections
      ensures var a := AtomsSection(lines, pos, conv);
              (e.Some? <==> a.Err?) && (e.Some? ==> e.value == a.error) &&
              (e.None? ==> Valid() && sections == old(sections).(atoms := Some(a.value.0)) && next == a.value.1)
    {
      var a;
      a, next := ParseAtoms(lines, pos, conv, bohr);
      if a.Err? {
        return Some(a.error), next;
      }
      atoms := Some(a.value);
      sections := sections.(atoms := Some(AtomsSection(lines, pos, conv).value.0));
      e := None;
    }

    /** `_finalize`: sets the unweighted modes, or raises; nothing else changes. */
    method Finalize() returns (e: Option<Error>)
      requires Valid()
      modifies this`unweighted
      ensures e == SectionsError(sections)
      ensures e.None? ==> modes.Some? && unweighted.Some? && UnweightedFrom(unweighted.value, modes.value, Masses(), sqrt)
    {
      var r := UnweightModes(modes, if atoms.Some? then Some(atoms.value.masses) else None, sqrt);
      if r.Err? {
        return Some(r.error);
      }
      unweighted := Some(r.value);
      return None;
    }
  }
}
