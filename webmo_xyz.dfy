/**
 * webmo_to_canonical_xyz.py: reading a WebMO XYZ trajectory (blocks of
 * coordinate lines, each block optionally opened by a `!title` line) and
 * writing it back as a standard multi-frame XYZ file.
 *
 * The input file is the sequence of lines Python's line iterator yields (each
 * with its newline, except possibly the last); `xyzfile.readline()` is
 * `NextLine`. The conversions `int(...)` and `float(...)` come in a `Conv`, the
 * element-table lookup of an integer label as `elementSymbol`, and the
 * `{:14.6f}` rendering of a coordinate as `fixed`.
 */
module WebmoXyz {
  import opened Common

  datatype Point = Point(x: real, y: real, z: real)

  /** What `read_webmo_xyz` returns: one frame and one title per block, and the atom symbols. */
  datatype Trajectory = Trajectory(frames: seq<seq<Point>>, symbols: seq<string>, titles: seq<string>)

  /** The coordinate rows of a block read so far, their symbols, and the next unread line. */
  datatype Rows = Rows(coords: seq<Point>, symbols: seq<string>, next: nat)

  /** One block read on its own: its title, its coordinates and the symbols its labels name. */
  datatype Block = Block(title: string, coords: seq<Point>, symbols: seq<string>)

  const DefaultTitle: string := "Converted from WebMO"

  // ---------------------------------------------------------------------------
  // Reading
  // ---------------------------------------------------------------------------

  /** `xyzfile.readline()` with line `q` next: that line and the position after it, or `''` at the end. */
  function NextLine(lines: seq<string>, q: nat): (string, nat)
  {
    if q < |lines| then (lines[q], q + 1) else ("", q)
  }

  /** The title a block gets from the line that starts it. */
  function BlockTitle(line: string): string
  {
    if StartsWith(line, "!") then line[1..] else DefaultTitle
  }

  /** The first coordinate line of the block started by line `p`, and the next unread line. */
  function FirstCoordLine(lines: seq<string>, p: nat): (string, nat)
    requires p < |lines|
  {
    if StartsWith(lines[p], "!") then NextLine(lines, p + 1) else (lines[p], p + 1)
  }

  /** The symbol recorded for an atom label: an integer label is an element number
      looked up in the element tables, any other label is kept as it is. */
  function Symbol(atom: string, conv: Conv, elementSymbol: int -> string): (s: string)
    ensures conv.toInt(atom).Some? ==> s == elementSymbol(conv.toInt(atom).value)
    ensures conv.toInt(atom).None? ==> s == atom
  {
    match conv.toInt(atom)
    case Some(n) => elementSymbol(n)
    case None => atom
  }

  /** `np.array((x, y, z), dtype=np.float64)` on the three coordinate fields; `None` is its `ValueError`. */
  function ParsePoint(f: seq<string>, conv: Conv): Option<Point>
    requires |f| == 4
  {
    var x, y, z := conv.toReal(f[1]), conv.toReal(f[2]), conv.toReal(f[3]);
    if x.Some? && y.Some? && z.Some? then Some(Point(x.value, y.value, z.value)) else None
  }

  /** The lines Python's iterator yields are never empty, so `readline()` gives `''` exactly at the end of the file. */
  lemma ReadlineAtEnd(lines: seq<string>, q: nat)
    requires forall i :: 0 <= i < |lines| ==> lines[i] != []
    ensures NextLine(lines, q).0 == [] <==> q >= |lines|
    ensures q <= |lines| ==> NextLine(lines, q).1 <= |lines|
  {
  }

  /** A `!` line is the marker followed by the block's title; any other line leaves the default title. */
  lemma TitleLine(line: string)
    ensures StartsWith(line, "!") ==> "!" + BlockTitle(line) == line
    ensures !StartsWith(line, "!") ==> BlockTitle(line) == DefaultTitle
  {
    if StartsWith(line, "!") {
      assert line == line[..1] + line[1..];
    }
  }

  /**
   * Starting a block takes one line, or two after a title; the first
   * coordinate line is the last line taken, except after a title on the last
   * line of the file, where it is `readline()`'s `''`.
   */
  lemma FirstCoordLineOf(lines: seq<string>, p: nat)
    requires p < |lines|
    ensures var (c, q) := FirstCoordLine(lines, p);
            p < q <= |lines| &&
            (q == p + 2 <==> StartsWith(lines[p], "!") && p + 1 < |lines|) &&
            (q == p + 1 || q == p + 2) &&
            (c == lines[q - 1] || (c == "" && StartsWith(lines[p], "!") && q == |lines|))
  {
  }

  /** numpy makes the point exactly when each of the three coordinate fields converts, and it holds their values in order. */
  lemma ParsePointFields(f: seq<string>, conv: Conv)
    requires |f| == 4
    ensures ParsePoint(f, conv).Some? <==> forall i :: 1 <= i < 4 ==> conv.toReal(f[i]).Some?
    ensures ParsePoint(f, conv).Some? ==>
              var pt := ParsePoint(f, conv).value;
              [Some(pt.x), Some(pt.y), Some(pt.z)] == [conv.toReal(f[1]), conv.toReal(f[2]), conv.toReal(f[3])]
  {
    if forall i :: 1 <= i < 4 ==> conv.toReal(f[i]).Some? {
      assert conv.toReal(f[1]).Some? && conv.toReal(f[2]).Some? && conv.toReal(f[3]).Some?;
    }
  }

  /** The inner `while True` loop: the coordinate lines from `c` on (line `q` is the next unread
      one) up to a blank line or the end of the file, appended to `coords`. Labels become symbols
      only when `collect`, that is while no earlier block has produced any. */
  function CoordRows(lines: seq<string>, c: string, q: nat, collect: bool, conv: Conv, elementSymbol: int -> string,
                     coords: seq<Point>, symbols: seq<string>): (r: Result<Rows>)
    requires q <= |lines|
    ensures r.Ok? ==> q <= r.value.next <= |lines|
    decreases |lines| - q, if Strip(c) == [] then 0 else 1
  {
    if Strip(c) == [] then Ok(Rows(coords, symbols, q))
    else
      var f := Fields(c);
      if |f| != 4 then Err(ValueError)
      else
        var pt := ParsePoint(f, conv);
        if pt.None? then Err(ValueError)
        else
          var nx := NextLine(lines, q);
          CoordRows(lines, nx.0, nx.1, collect, conv, elementSymbol, coords + [pt.value],
                    if collect then symbols + [Symbol(f[0], conv, elementSymbol)] else symbols)
  }

  /** The outer `for line in xyzfile` loop from line `p` on, with the titles, frames and symbols
      gathered before it. */
  function Scan(lines: seq<string>, p: nat, conv: Conv, elementSymbol: int -> string,
                titles: seq<string>, frames: seq<seq<Point>>, allSymbols: seq<string>): Result<Trajectory>
    requires p <= |lines|
    decreases |lines| - p
  {
    if p == |lines| then Ok(Trajectory(frames, allSymbols, titles))
    else
      var first := FirstCoordLine(lines, p);
      var rows := CoordRows(lines, first.0, first.1, allSymbols == [], conv, elementSymbol, [], []);
      if rows.Err? then Err(rows.error)
      else
        Scan(lines, rows.value.next, conv, elementSymbol, titles + [BlockTitle(lines[p])], frames + [rows.value.coords],
             if rows.value.symbols != [] then rows.value.symbols else allSymbols)
  }

  /** numpy's `np.array(points)`: frames of different lengths do not make an array. */
  predicate SameLength(frames: seq<seq<Point>>)
  {
    forall i :: 0 <= i < |frames| ==> |frames[i]| == |frames[0]|
  }

  /** What `read_webmo_xyz` returns or raises for a file. */
  function ReadResult(lines: seq<string>, conv: Conv, elementSymbol: int -> string): Result<Trajectory>
  {
    var s := Scan(lines, 0, conv, elementSymbol, [], [], []);
    if s.Err? then s
    else if !SameLength(s.value.frames) then Err(ValueError)
    else s
  }

  /** `read_webmo_xyz(xyzfile)`. */
  method ReadWebmoXyz(lines: seq<string>, conv: Conv, elementSymbol: int -> string) returns (r: Result<Trajectory>)
    ensures r == ReadResult(lines, conv, elementSymbol)
  {
    var points: seq<seq<Point>> := [];
    var titles: seq<string> := [];
    var allSymbols: seq<string> := [];
    var p := 0;
    while p < |lines|
      invariant p <= |lines|
      invariant Scan(lines, p, conv, elementSymbol, titles, points, allSymbols) == Scan(lines, 0, conv, elementSymbol, [], [], [])
      decreases |lines| - p
    {
      ghost var p0, titles0 := p, titles;
      var line := lines[p];
      p := p + 1;
      var allCoords: seq<Point> := [];
      var symbols: seq<string> := [];
      var coordLine: string;
      if StartsWith(line, "!") {
        titles := titles + [line[1..]];
        coordLine, p := NextLine(lines, p).0, NextLine(lines, p).1;
      } else {
        titles := titles + [DefaultTitle];
        coordLine := line;
      }
      ghost var c0, q0 := coordLine, p;
      assert (c0, q0) == FirstCoordLine(lines, p0);
      ghost var spec := CoordRows(lines, c0, q0, allSymbols == [], conv, elementSymbol, [], []);
      while true
        invariant q0 <= p <= |lines|
        invariant CoordRows(lines, coordLine, p, allSymbols == [], conv, elementSymbol, allCoords, symbols) == spec
        decreases |lines| - p, if Strip(coordLine) == [] then 0 else 1
      {
        if Strip(coordLine) == [] {
          break;
        }
        var f := Fields(coordLine);
        if |f| != 4 {
          return Err(ValueError);
        }
        if allSymbols == [] {
          symbols := symbols + [Symbol(f[0], conv, elementSymbol)];
        }
        var pt := ParsePoint(f, conv);
        if pt.None? {
          return Err(ValueError);
        }
        allCoords := allCoords + [pt.value];
        coordLine, p := NextLine(lines, p).0, NextLine(lines, p).1;
      }
      assert spec == Ok(Rows(allCoords, symbols, p));
      if symbols != [] {
        allSymbols := symbols;
      }
      points := points + [allCoords];
    }
    if !SameLength(points) {
      return Err(ValueError);
    }
    return Ok(Trajectory(points, allSymbols, titles));
  }

  // ---------------------------------------------------------------------------
  // What a block reads
  // ---------------------------------------------------------------------------

  /** The `j`-th coordinate line a block reads when it starts at line `c` with line `q` next. */
  function LineAt(lines: seq<string>, c: string, q: nat, j: nat): string
  {
    if j == 0 then c else NextLine(lines, q + j - 1).0
  }

  /** `line` is an atom row holding the coordinates `pt`. */
  predicate RowOf(line: string, conv: Conv, pt: Point)
  {
    !IsBlank(line) && |Fields(line)| == 4 && ParsePoint(Fields(line), conv) == Some(pt)
  }

  /** The first field of a line, as `(atom, x, y, z) = line.split()` names it. */
  function AtomField(line: string): string
  {
    if Fields(line) == [] then "" else Fields(line)[0]
  }

  /** Read from line `c` (line `q` next), a block holds the rows `pts` and then a blank line or the
      end of the file, and `next` is the line after the terminating one. */
  ghost predicate RowsRead(lines: seq<string>, c: string, q: nat, conv: Conv, pts: seq<Point>, next: nat)
  {
    (forall j :: 0 <= j < |pts| ==> RowOf(LineAt(lines, c, q, j), conv, pts[j])) &&
    IsBlank(LineAt(lines, c, q, |pts|)) &&
    next == (if q + |pts| <= |lines| then q + |pts| else |lines|)
  }

  /** `syms` are the symbols of the labels of the first `n` lines read from `c` (line `q` next). */
  ghost predicate SymbolsRead(lines: seq<string>, c: string, q: nat, conv: Conv, elementSymbol: int -> string, n: nat, syms: seq<string>)
  {
    |syms| == n && forall j :: 0 <= j < n ==> syms[j] == Symbol(AtomField(LineAt(lines, c, q, j)), conv, elementSymbol)
  }

  /** The rows a block reads, and their symbols when `collect` (none otherwise). */
  ghost predicate ReadsRows(lines: seq<string>, c: string, q: nat, collect: bool, conv: Conv, elementSymbol: int -> string,
                            pts: seq<Point>, syms: seq<string>, next: nat)
  {
    RowsRead(lines, c, q, conv, pts, next) &&
    (if collect then SymbolsRead(lines, c, q, conv, elementSymbol, |pts|, syms) else syms == [])
  }

  lemma LineAtShift(lines: seq<string>, c: string, q: nat, j: nat)
    requires q <= |lines|
    ensures LineAt(lines, NextLine(lines, q).0, NextLine(lines, q).1, j) == LineAt(lines, c, q, j + 1)
  {
  }

  lemma RowsReadCons(lines: seq<string>, c: string, q: nat, conv: Conv, pt: Point, pts: seq<Point>, next: nat)
    requires q <= |lines| && RowOf(c, conv, pt)
    requires RowsRead(lines, NextLine(lines, q).0, NextLine(lines, q).1, conv, pts, next)
    ensures RowsRead(lines, c, q, conv, [pt] + pts, next)
  {
    var nx := NextLine(lines, q);
    var pts' := [pt] + pts;
    forall j | 0 <= j < |pts'|
      ensures RowOf(LineAt(lines, c, q, j), conv, pts'[j])
    {
      if j > 0 {
        LineAtShift(lines, c, q, j - 1);
        assert pts'[j] == pts[j - 1];
      }
    }
    LineAtShift(lines, c, q, |pts|);
    if q == |lines| {
      assert IsBlank(LineAt(lines, nx.0, nx.1, 0));
      assert pts == [];
    }
  }

  lemma SymbolsReadCons(lines: seq<string>, c: string, q: nat, conv: Conv, elementSymbol: int -> string, n: nat, syms: seq<string>)
    requires q <= |lines|
    requires SymbolsRead(lines, NextLine(lines, q).0, NextLine(lines, q).1, conv, elementSymbol, n, syms)
    ensures SymbolsRead(lines, c, q, conv, elementSymbol, n + 1, [Symbol(AtomField(c), conv, elementSymbol)] + syms)
  {
    var syms' := [Symbol(AtomField(c), conv, elementSymbol)] + syms;
    forall j | 0 <= j < n + 1
      ensures syms'[j] == Symbol(AtomField(LineAt(lines, c, q, j)), conv, elementSymbol)
    {
      if j > 0 {
        LineAtShift(lines, c, q, j - 1);
        assert syms'[j] == syms[j - 1];
      }
    }
  }

  /** The rows a block has already read stay in front of the rows it reads next. */
  function Prepend(coords: seq<Point>, symbols: seq<string>, r: Result<Rows>): Result<Rows>
  {
    if r.Err? then r else Ok(Rows(coords + r.value.coords, symbols + r.value.symbols, r.value.next))
  }

  lemma {:induction false} CoordRowsAcc(lines: seq<string>, c: string, q: nat, collect: bool, conv: Conv, elementSymbol: int -> string,
                                        coords: seq<Point>, symbols: seq<string>)
    requires q <= |lines|
    decreases |lines| - q, if Strip(c) == [] then 0 else 1
    ensures CoordRows(lines, c, q, collect, conv, elementSymbol, coords, symbols) ==
            Prepend(coords, symbols, CoordRows(lines, c, q, collect, conv, elementSymbol, [], []))
  {
    if Strip(c) == [] {
      assert coords + [] == coords && symbols + [] == symbols;
    } else if |Fields(c)| == 4 && ParsePoint(Fields(c), conv).Some? {
      var f := Fields(c);
      var pt := ParsePoint(f, conv).value;
      var nx := NextLine(lines, q);
      var s := if collect then [Symbol(f[0], conv, elementSymbol)] else [];
      CoordRowsAcc(lines, nx.0, nx.1, collect, conv, elementSymbol, coords + [pt], symbols + s);
      CoordRowsAcc(lines, nx.0, nx.1, collect, conv, elementSymbol, [pt], s);
      assert [] + [pt] == [pt] && [] + s == s;
      assert (if collect then symbols + [Symbol(f[0], conv, elementSymbol)] else symbols) == symbols + s;
      var rest := CoordRows(lines, nx.0, nx.1, collect, conv, elementSymbol, [], []);
      if rest.Ok? {
        AppendAssoc(coords, [pt], rest.value.coords);
        AppendAssoc(symbols, s, rest.value.symbols);
      }
    }
  }

  /** A block that reads without error consists of atom rows followed by a blank line or the end
      of the file; the rows give its coordinates and, when collecting, its symbols. */
  lemma {:induction false} CoordRowsOk(lines: seq<string>, c: string, q: nat, collect: bool, conv: Conv, elementSymbol: int -> string)
    requires q <= |lines|
    decreases |lines| - q, if Strip(c) == [] then 0 else 1
    ensures CoordRows(lines, c, q, collect, conv, elementSymbol, [], []).Ok? ==>
            ReadsRows(lines, c, q, collect, conv, elementSymbol,
                      CoordRows(lines, c, q, collect, conv, elementSymbol, [], []).value.coords,
                      CoordRows(lines, c, q, collect, conv, elementSymbol, [], []).value.symbols,
                      CoordRows(lines, c, q, collect, conv, elementSymbol, [], []).value.next)
  {
    StripSpec(c);
    if Strip(c) != [] && |Fields(c)| == 4 && ParsePoint(Fields(c), conv).Some? {
      var f := Fields(c);
      var pt := ParsePoint(f, conv).value;
      var nx := NextLine(lines, q);
      var s := if collect then [Symbol(f[0], conv, elementSymbol)] else [];
      var r := CoordRows(lines, c, q, collect, conv, elementSymbol, [], []);
      CoordRowsAcc(lines, nx.0, nx.1, collect, conv, elementSymbol, [pt], s);
      assert [] + [pt] == [pt];
      assert (if collect then [] + [Symbol(f[0], conv, elementSymbol)] else []) == s;
      var rest := CoordRows(lines, nx.0, nx.1, collect, conv, elementSymbol, [], []);
      assert r == Prepend([pt], s, rest);
      if rest.Ok? {
        CoordRowsOk(lines, nx.0, nx.1, collect, conv, elementSymbol);
        RowsReadCons(lines, c, q, conv, pt, rest.value.coords, rest.value.next);
        if collect {
          assert AtomField(c) == f[0];
          SymbolsReadCons(lines, c, q, conv, elementSymbol, |rest.value.coords|, rest.value.symbols);
        } else {
          assert rest.value.symbols == [];
        }
      }
    }
  }

  /** A block fails, with `ValueError`, when the first non-row line before a blank one is not blank:
      a coordinate line must split into four fields whose last three are numbers. */
  lemma {:induction false} CoordRowsFails(lines: seq<string>, c: string, q: nat, collect: bool, conv: Conv, elementSymbol: int -> string,
                                          coords: seq<Point>, symbols: seq<string>, n: nat)
    requires q <= |lines|
    requires forall j :: 0 <= j < n ==> !IsBlank(LineAt(lines, c, q, j)) && |Fields(LineAt(lines, c, q, j))| == 4 &&
                                         ParsePoint(Fields(LineAt(lines, c, q, j)), conv).Some?
    requires !IsBlank(LineAt(lines, c, q, n))
    requires |Fields(LineAt(lines, c, q, n))| != 4 || ParsePoint(Fields(LineAt(lines, c, q, n)), conv).None?
    ensures CoordRows(lines, c, q, collect, conv, elementSymbol, coords, symbols) == Err(ValueError)
    decreases n
  {
    StripSpec(c);
    if n > 0 {
      var f := Fields(c);
      assert LineAt(lines, c, q, 0) == c;
      var pt := ParsePoint(f, conv).value;
      var nx := NextLine(lines, q);
      forall j | 0 <= j <= n - 1
        ensures LineAt(lines, nx.0, nx.1, j) == LineAt(lines, c, q, j + 1)
      {
        LineAtShift(lines, c, q, j);
      }
      CoordRowsFails(lines, nx.0, nx.1, collect, conv, elementSymbol, coords + [pt],
                     if collect then symbols + [Symbol(AtomField(c), conv, elementSymbol)] else symbols, n - 1);
    }
  }

  /** A block's errors are all `ValueError`. */
  lemma {:induction false} CoordRowsErr(lines: seq<string>, c: string, q: nat, collect: bool, conv: Conv, elementSymbol: int -> string,
                                        coords: seq<Point>, symbols: seq<string>)
    requires q <= |lines|
    decreases |lines| - q, if Strip(c) == [] then 0 else 1
    ensures CoordRows(lines, c, q, collect, conv, elementSymbol, coords, symbols).Err? ==>
            CoordRows(lines, c, q, collect, conv, elementSymbol, coords, symbols).error == ValueError
  {
    if Strip(c) != [] && |Fields(c)| == 4 && ParsePoint(Fields(c), conv).Some? {
      var f := Fields(c);
      var nx := NextLine(lines, q);
      CoordRowsErr(lines, nx.0, nx.1, collect, conv, elementSymbol, coords + [ParsePoint(f, conv).value],
                   if collect then symbols + [Symbol(AtomField(c), conv, elementSymbol)] else symbols);
    }
  }

  /** Collecting symbols or not changes only the symbols a block returns. */
  lemma {:induction false} CoordRowsCollect(lines: seq<string>, c: string, q: nat, conv: Conv, elementSymbol: int -> string,
                                            coords: seq<Point>, symbols: seq<string>, symbols': seq<string>)
    requires q <= |lines|
    decreases |lines| - q, if Strip(c) == [] then 0 else 1
    ensures var a := CoordRows(lines, c, q, false, conv, elementSymbol, coords, symbols);
            var b := CoordRows(lines, c, q, true, conv, elementSymbol, coords, symbols');
            (a.Ok? <==> b.Ok?) && (a.Err? ==> a == b) && (a.Ok? ==> a.value == Rows(b.value.coords, symbols, b.value.next))
  {
    if Strip(c) != [] && |Fields(c)| == 4 && ParsePoint(Fields(c), conv).Some? {
      var f := Fields(c);
      var nx := NextLine(lines, q);
      CoordRowsCollect(lines, nx.0, nx.1, conv, elementSymbol, coords + [ParsePoint(f, conv).value],
                       symbols, symbols' + [Symbol(AtomField(c), conv, elementSymbol)]);
    }
  }

  // ---------------------------------------------------------------------------
  // The blocks of a file, each on its own
  // ---------------------------------------------------------------------------

  /** The blocks of the file from line `p` on, each read on its own with the symbols of its labels. */
  function Blocks(lines: seq<string>, p: nat, conv: Conv, elementSymbol: int -> string): Result<seq<Block>>
    requires p <= |lines|
    decreases |lines| - p
  {
    if p == |lines| then Ok([])
    else
      var first := FirstCoordLine(lines, p);
      var rows := CoordRows(lines, first.0, first.1, true, conv, elementSymbol, [], []);
      if rows.Err? then Err(rows.error)
      else
        var rest := Blocks(lines, rows.value.next, conv, elementSymbol);
        if rest.Err? then rest
        else Ok([Block(BlockTitle(lines[p]), rows.value.coords, rows.value.symbols)] + rest.value)
  }

  function Titles(bs: seq<Block>): (ts: seq<string>)
    ensures |ts| == |bs| && forall i :: 0 <= i < |bs| ==> ts[i] == bs[i].title
  {
    if bs == [] then [] else [bs[0].title] + Titles(bs[1..])
  }

  function Frames(bs: seq<Block>): (fs: seq<seq<Point>>)
    ensures |fs| == |bs| && forall i :: 0 <= i < |bs| ==> fs[i] == bs[i].coords
  {
    if bs == [] then [] else [bs[0].coords] + Frames(bs[1..])
  }

  /** The symbols of the first block that has any. */
  function FirstSymbols(bs: seq<Block>): seq<string>
  {
    if bs == [] then [] else if bs[0].symbols != [] then bs[0].symbols else FirstSymbols(bs[1..])
  }

  /** What the outer loop gathers, given the blocks still to read. */
  function Gather(b: Result<seq<Block>>, titles: seq<string>, frames: seq<seq<Point>>, allSymbols: seq<string>): Result<Trajectory>
  {
    if b.Err? then Err(b.error)
    else Ok(Trajectory(frames + Frames(b.value), if allSymbols != [] then allSymbols else FirstSymbols(b.value), titles + Titles(b.value)))
  }

  /** The loop reads block after block, keeping the symbols of the first block that produced any. */
  lemma {:induction false} ScanBlocks(lines: seq<string>, p: nat, conv: Conv, elementSymbol: int -> string,
                                      titles: seq<string>, frames: seq<seq<Point>>, allSymbols: seq<string>)
    requires p <= |lines|
    decreases |lines| - p
    ensures Scan(lines, p, conv, elementSymbol, titles, frames, allSymbols) ==
            Gather(Blocks(lines, p, conv, elementSymbol), titles, frames, allSymbols)
  {
    if p == |lines| {
      AppendEmpty(titles);
      AppendEmpty(frames);
    } else {
      var first := FirstCoordLine(lines, p);
      var a := CoordRows(lines, first.0, first.1, allSymbols == [], conv, elementSymbol, [], []);
      var b := CoordRows(lines, first.0, first.1, true, conv, elementSymbol, [], []);
      if allSymbols != [] {
        CoordRowsCollect(lines, first.0, first.1, conv, elementSymbol, [], [], []);
      }
      if a.Ok? {
        var t := BlockTitle(lines[p]);
        var all' := if a.value.symbols != [] then a.value.symbols else allSymbols;
        ScanBlocks(lines, a.value.next, conv, elementSymbol, titles + [t], frames + [a.value.coords], all');
        var rest := Blocks(lines, b.value.next, conv, elementSymbol);
        if rest.Ok? {
          var bs := [Block(t, b.value.coords, b.value.symbols)] + rest.value;
          var b0 := Block(t, b.value.coords, b.value.symbols);
          ConsTail(b0, rest.value);
          assert Titles(bs) == [t] + Titles(rest.value);
          assert Frames(bs) == [b.value.coords] + Frames(rest.value);
          AppendAssoc(titles, [t], Titles(rest.value));
          AppendAssoc(frames, [b.value.coords], Frames(rest.value));
        }
      }
    }
  }

  /** Each block of a file that reads without error: its title comes from the line that opens it,
      its coordinates and symbols from the rows that follow up to a blank line or the end, and the
      remaining blocks start after that line. */
  lemma BlockAt(lines: seq<string>, p: nat, conv: Conv, elementSymbol: int -> string)
    requires p < |lines| && Blocks(lines, p, conv, elementSymbol).Ok?
    ensures Blocks(lines, p, conv, elementSymbol).value != []
    ensures Blocks(lines, p, conv, elementSymbol).value[0].title ==
            if StartsWith(lines[p], "!") then lines[p][1..] else "Converted from WebMO"
    ensures exists next: nat :: (p < next <= |lines| &&
      ReadsRows(lines, if StartsWith(lines[p], "!") then NextLine(lines, p + 1).0 else lines[p],
                if StartsWith(lines[p], "!") then NextLine(lines, p + 1).1 else p + 1, true, conv, elementSymbol,
                Blocks(lines, p, conv, elementSymbol).value[0].coords,
                Blocks(lines, p, conv, elementSymbol).value[0].symbols, next) &&
      Blocks(lines, next, conv, elementSymbol) == Ok(Blocks(lines, p, conv, elementSymbol).value[1..]))
  {
    var first := FirstCoordLine(lines, p);
    var rows := CoordRows(lines, first.0, first.1, true, conv, elementSymbol, [], []);
    CoordRowsOk(lines, first.0, first.1, true, conv, elementSymbol);
    var bs := Blocks(lines, p, conv, elementSymbol).value;
    assert bs[1..] == Blocks(lines, rows.value.next, conv, elementSymbol).value;
  }

  /** Blocks read with their symbols have one symbol per atom. */
  lemma {:induction false} BlocksSymbolCount(lines: seq<string>, p: nat, conv: Conv, elementSymbol: int -> string)
    requires p <= |lines|
    decreases |lines| - p
    ensures Blocks(lines, p, conv, elementSymbol).Ok? ==>
            forall i :: 0 <= i < |Blocks(lines, p, conv, elementSymbol).value| ==>
              |Blocks(lines, p, conv, elementSymbol).value[i].symbols| == |Blocks(lines, p, conv, elementSymbol).value[i].coords|
  {
    if p < |lines| && Blocks(lines, p, conv, elementSymbol).Ok? {
      var first := FirstCoordLine(lines, p);
      var rows := CoordRows(lines, first.0, first.1, true, conv, elementSymbol, [], []);
      CoordRowsOk(lines, first.0, first.1, true, conv, elementSymbol);
      BlocksSymbolCount(lines, rows.value.next, conv, elementSymbol);
      var bs := Blocks(lines, p, conv, elementSymbol).value;
      assert bs[1..] == Blocks(lines, rows.value.next, conv, elementSymbol).value;
    }
  }

  /** With one symbol per atom and frames of one length, the first symbols found name every atom of a frame. */
  lemma {:induction false} FirstSymbolsCover(bs: seq<Block>)
    requires bs != []
    requires forall i :: 0 <= i < |bs| ==> |bs[i].symbols| == |bs[i].coords|
    requires forall i :: 0 <= i < |bs| ==> |bs[i].coords| == |bs[0].coords|
    ensures |FirstSymbols(bs)| == |bs[0].coords|
  {
    if bs[0].symbols == [] && |bs| > 1 {
      FirstSymbolsCover(bs[1..]);
    }
  }

  /** `read_webmo_xyz` on a file: one title and one frame per block in file order, the symbols of
      the first block that has atoms, and `ValueError` when a block is malformed or two frames
      differ in length. */
  lemma ReadBlocks(lines: seq<string>, conv: Conv, elementSymbol: int -> string)
    ensures var r := ReadResult(lines, conv, elementSymbol);
            var b := Blocks(lines, 0, conv, elementSymbol);
            (r.Ok? <==> b.Ok? && SameLength(Frames(b.value))) &&
            (r.Err? ==> r.error == ValueError) &&
            (r.Ok? ==> r.value == Trajectory(Frames(b.value), FirstSymbols(b.value), Titles(b.value)))
  {
    ScanBlocks(lines, 0, conv, elementSymbol, [], [], []);
    BlocksErr(lines, 0, conv, elementSymbol);
    var b := Blocks(lines, 0, conv, elementSymbol);
    if b.Ok? {
      assert [] + Frames(b.value) == Frames(b.value) && [] + Titles(b.value) == Titles(b.value);
    }
  }

  lemma {:induction false} BlocksErr(lines: seq<string>, p: nat, conv: Conv, elementSymbol: int -> string)
    requires p <= |lines|
    decreases |lines| - p
    ensures Blocks(lines, p, conv, elementSymbol).Err? ==> Blocks(lines, p, conv, elementSymbol).error == ValueError
  {
    if p < |lines| {
      var first := FirstCoordLine(lines, p);
      var rows := CoordRows(lines, first.0, first.1, true, conv, elementSymbol, [], []);
      CoordRowsErr(lines, first.0, first.1, true, conv, elementSymbol, [], []);
      if rows.Ok? {
        BlocksErr(lines, rows.value.next, conv, elementSymbol);
      }
    }
  }

  /** Every frame read has one title and a symbol for each of its atoms. */
  lemma ReadCovers(lines: seq<string>, conv: Conv, elementSymbol: int -> string)
    ensures var r := ReadResult(lines, conv, elementSymbol);
            r.Ok? ==> |r.value.titles| == |r.value.frames| && SameLength(r.value.frames) &&
                      (r.value.frames != [] ==> |r.value.symbols| == |r.value.frames[0]|)
  {
    ReadBlocks(lines, conv, elementSymbol);
    BlocksSymbolCount(lines, 0, conv, elementSymbol);
    var r := ReadResult(lines, conv, elementSymbol);
    if r.Ok? && r.value.frames != [] {
      var bs := Blocks(lines, 0, conv, elementSymbol).value;
      assert forall i :: 0 <= i < |bs| ==> |bs[i].coords| == |Frames(bs)[i]|;
      FirstSymbolsCover(bs);
    }
  }

  // ---------------------------------------------------------------------------
  // Writing
  // ---------------------------------------------------------------------------

  /** `'{:>3s}'.format(s)`: `s` right-aligned in a field at least three characters wide. */
  function RightAlign3(s: string): string
  {
    if |s| == 0 then "   " else if |s| == 1 then "  " + s else if |s| == 2 then " " + s else s
  }

  /** The field is three characters wide, or as wide as `s`; it ends with `s` and is padded on the
      left with spaces. */
  lemma RightAlign3Pads(s: string)
    ensures |RightAlign3(s)| == if |s| < 3 then 3 else |s|
    ensures RightAlign3(s)[|RightAlign3(s)| - |s|..] == s
    ensures forall i :: 0 <= i < |RightAlign3(s)| - |s| ==> RightAlign3(s)[i] == ' '
  {
  }

  /** One atom line, without its newline. */
  function AtomLine(symbol: string, pt: Point, fixed: real -> string): string
  {
    RightAlign3(symbol) + " " + fixed(pt.x) + " " + fixed(pt.y) + " " + fixed(pt.z)
  }

  /** The lines of the first `n` atoms of a frame. */
  function AtomLinesUpTo(frame: seq<Point>, symbols: seq<string>, fixed: real -> string, n: nat): seq<string>
    requires n <= |frame| && n <= |symbols|
  {
    if n == 0 then [] else AtomLinesUpTo(frame, symbols, fixed, n - 1) + [AtomLine(symbols[n - 1], frame[n - 1], fixed)]
  }

  /** The atom lines of a frame, as far as there are symbols for its atoms. */
  function AtomLines(frame: seq<Point>, symbols: seq<string>, fixed: real -> string): seq<string>
  {
    AtomLinesUpTo(frame, symbols, fixed, Min(|frame|, |symbols|))
  }

  lemma AtomLinesUpToSnoc(frame: seq<Point>, symbols: seq<string>, fixed: real -> string, n: nat)
    requires n < |frame| && n < |symbols|
    ensures AtomLinesUpTo(frame, symbols, fixed, n + 1) == AtomLinesUpTo(frame, symbols, fixed, n) + [AtomLine(symbols[n], frame[n], fixed)]
  {
  }

  /** Line `i` of a frame's atom lines is atom `i` with its symbol, right-aligned. */
  lemma {:induction false} AtomLinesAt(frame: seq<Point>, symbols: seq<string>, fixed: real -> string, n: nat, i: nat)
    requires n <= |frame| && n <= |symbols| && i < n
    ensures |AtomLinesUpTo(frame, symbols, fixed, n)| == n
    ensures AtomLinesUpTo(frame, symbols, fixed, n)[i] == RightAlign3(symbols[i]) + " " + fixed(frame[i].x) + " " + fixed(frame[i].y) + " " + fixed(frame[i].z)
  {
    if i < n - 1 {
      AtomLinesAt(frame, symbols, fixed, n - 1, i);
    } else {
      AtomLinesLength(frame, symbols, fixed, n - 1);
    }
  }

  lemma {:induction false} AtomLinesLength(frame: seq<Point>, symbols: seq<string>, fixed: real -> string, n: nat)
    requires n <= |frame| && n <= |symbols|
    ensures |AtomLinesUpTo(frame, symbols, fixed, n)| == n
  {
    if n > 0 {
      AtomLinesLength(frame, symbols, fixed, n - 1);
    }
  }

  /** The lines written for one frame: the atom count, the stripped title, one line per atom. */
  function FrameLines(nAtoms: nat, title: string, frame: seq<Point>, symbols: seq<string>, fixed: real -> string): seq<string>
  {
    [NatToString(nAtoms), Strip(title)] + AtomLines(frame, symbols, fixed)
  }

  /** How many (frame, title) pairs `zip(coords, titles)` yields. */
  function Pairs(frames: seq<seq<Point>>, titles: seq<string>): nat
  {
    Min(|frames|, |titles|)
  }

  /** The lines of each of the first `k` (frame, title) pairs. */
  function FramePieces(nAtoms: nat, frames: seq<seq<Point>>, symbols: seq<string>, titles: seq<string>, fixed: real -> string, k: nat): seq<seq<string>>
    requires k <= |frames| && k <= |titles|
  {
    if k == 0 then []
    else FramePieces(nAtoms, frames, symbols, titles, fixed, k - 1) + [FrameLines(nAtoms, titles[k - 1], frames[k - 1], symbols, fixed)]
  }

  /** The lines of the first `k` (frame, title) pairs, one pair after another. */
  function XyzLines(nAtoms: nat, frames: seq<seq<Point>>, symbols: seq<string>, titles: seq<string>, fixed: real -> string, k: nat): seq<string>
    requires k <= |frames| && k <= |titles|
  {
    Concat(FramePieces(nAtoms, frames, symbols, titles, fixed, k))
  }

  lemma {:induction false} FramePiecesAt(nAtoms: nat, frames: seq<seq<Point>>, symbols: seq<string>, titles: seq<string>, fixed: real -> string, k: nat, j: nat)
    requires k <= |frames| && k <= |titles| && j < k
    ensures |FramePieces(nAtoms, frames, symbols, titles, fixed, k)| == k
    ensures FramePieces(nAtoms, frames, symbols, titles, fixed, k)[j] == FrameLines(nAtoms, titles[j], frames[j], symbols, fixed)
  {
    if j < k - 1 {
      FramePiecesAt(nAtoms, frames, symbols, titles, fixed, k - 1, j);
    } else if k > 1 {
      FramePiecesAt(nAtoms, frames, symbols, titles, fixed, k - 1, 0);
    }
  }

  /** When `write_xyz` raises `IndexError`: `coords.shape[1]` of an empty array, or a frame with
      more atoms than there are symbols. */
  predicate WriteFails(frames: seq<seq<Point>>, symbols: seq<string>, titles: seq<string>)
  {
    frames == [] || (titles != [] && |symbols| < |frames[0]|)
  }

  lemma FrameLinesLength(nAtoms: nat, title: string, frame: seq<Point>, symbols: seq<string>, fixed: real -> string)
    requires |frame| <= |symbols|
    ensures |FrameLines(nAtoms, title, frame, symbols, fixed)| == |frame| + 2
  {
    AtomLinesLength(frame, symbols, fixed, |frame|);
  }

  /** The inner `for iatom in range(len(coord_set))` loop: one line per atom of `frame` after the
      lines `written`, stopping with `IndexError` at the first atom without a symbol. Every
      `outfile.write` call writes one line and its newline, so the output is kept as its lines. */
  method WriteAtoms(written: seq<string>, frame: seq<Point>, symbols: seq<string>, fixed: real -> string)
    returns (out: seq<string>, e: Option<Error>)
    ensures e.Some? <==> |symbols| < |frame|
    ensures e.Some? ==> e.value == IndexError
    ensures out == written + AtomLines(frame, symbols, fixed)
  {
    out := written;
    AppendEmpty(written);
    var iatom := 0;
    while iatom < |frame|
      invariant iatom <= |frame| && iatom <= |symbols|
      invariant out == written + AtomLinesUpTo(frame, symbols, fixed, iatom)
    {
      if iatom >= |symbols| {
        assert Min(|frame|, |symbols|) == iatom;
        return out, Some(IndexError);
      }
      var line := AtomLine(symbols[iatom], frame[iatom], fixed);
      AppendAssoc(written, AtomLinesUpTo(frame, symbols, fixed, iatom), [line]);
      AtomLinesUpToSnoc(frame, symbols, fixed, iatom);
      out := out + [line];
      iatom := iatom + 1;
    }
    assert Min(|frame|, |symbols|) == iatom;
    return out, None;
  }

  /** One pass of the `zip(coords, titles)` loop: the atom count, the stripped title and the atom
      lines of one frame, after the lines `written`. */
  method WriteFrame(written: seq<string>, nAtoms: nat, title: string, frame: seq<Point>,
                    symbols: seq<string>, fixed: real -> string)
    returns (out: seq<string>, e: Option<Error>)
    ensures e.Some? <==> |symbols| < |frame|
    ensures e.Some? ==> e.value == IndexError
    ensures out == written + FrameLines(nAtoms, title, frame, symbols, fixed)
  {
    var head := [NatToString(nAtoms), Strip(title)];
    out := written + [NatToString(nAtoms)];
    out := out + [Strip(title)];
    AppendAssoc(written, [NatToString(nAtoms)], [Strip(title)]);
    assert [NatToString(nAtoms)] + [Strip(title)] == head;
    out, e := WriteAtoms(out, frame, symbols, fixed);
    AppendAssoc(written, head, AtomLines(frame, symbols, fixed));
  }

  /** `write_xyz(outfile, coords, symbols, titles)`: the lines written (the file's text is
      `Terminated(out)`) and the exception raised, if any. `IndexError` comes either before
      anything is written or in the first frame, after its atoms that have symbols. */
  method WriteXyz(frames: seq<seq<Point>>, symbols: seq<string>, titles: seq<string>, fixed: real -> string)
    returns (out: seq<string>, e: Option<Error>)
    requires SameLength(frames)
    ensures e.Some? <==> WriteFails(frames, symbols, titles)
    ensures e.Some? ==> e.value == IndexError
    ensures frames == [] ==> out == []
    ensures e.Some? && frames != [] ==> out == FrameLines(|frames[0]|, titles[0], frames[0], symbols, fixed)
    ensures e.None? ==> out == XyzLines(|frames[0]|, frames, symbols, titles, fixed, Pairs(frames, titles))
  {
    if |frames| == 0 {
      return [], Some(IndexError);
    }
    out, e := WritePairs(frames, symbols, titles, fixed);
  }

  /** The `zip(coords, titles)` loop of `write_xyz`, once `n_atoms` is known. */
  method WritePairs(frames: seq<seq<Point>>, symbols: seq<string>, titles: seq<string>, fixed: real -> string)
    returns (out: seq<string>, e: Option<Error>)
    requires SameLength(frames) && frames != []
    ensures e.Some? <==> titles != [] && |symbols| < |frames[0]|
    ensures e.Some? ==> e.value == IndexError
    ensures e.Some? ==> out == FrameLines(|frames[0]|, titles[0], frames[0], symbols, fixed)
    ensures e.None? ==> out == XyzLines(|frames[0]|, frames, symbols, titles, fixed, Pairs(frames, titles))
  {
    var nAtoms := |frames[0]|;
    var m := Pairs(frames, titles);
    out := [];
    var k := 0;
    while k < m
      invariant k <= m
      invariant k > 0 ==> nAtoms <= |symbols|
      invariant out == XyzLines(nAtoms, frames, symbols, titles, fixed, k)
    {
      var err: Option<Error>;
      out, err := WriteFrame(out, nAtoms, titles[k], frames[k], symbols, fixed);
      if err.Some? {
        EmptyAppend(FrameLines(nAtoms, titles[0], frames[0], symbols, fixed));
        return out, err;
      }
      ConcatSnoc(FramePieces(nAtoms, frames, symbols, titles, fixed, k), FrameLines(nAtoms, titles[k], frames[k], symbols, fixed));
      k := k + 1;
    }
    return out, None;
  }

  /** Every pair written takes the atom count plus two lines. */
  lemma XyzLinesLength(frames: seq<seq<Point>>, symbols: seq<string>, titles: seq<string>, fixed: real -> string, k: nat)
    requires SameLength(frames) && frames != [] && |frames[0]| <= |symbols| && k <= Pairs(frames, titles)
    ensures |XyzLines(|frames[0]|, frames, symbols, titles, fixed, k)| == k * (|frames[0]| + 2)
  {
    FramePiecesWidth(frames, symbols, titles, fixed, k);
    ConcatUniform(FramePieces(|frames[0]|, frames, symbols, titles, fixed, k), |frames[0]| + 2);
  }

  lemma FramePiecesWidth(frames: seq<seq<Point>>, symbols: seq<string>, titles: seq<string>, fixed: real -> string, k: nat)
    requires SameLength(frames) && frames != [] && |frames[0]| <= |symbols| && k <= Pairs(frames, titles)
    ensures |FramePieces(|frames[0]|, frames, symbols, titles, fixed, k)| == k
    ensures forall i :: 0 <= i < k ==> |FramePieces(|frames[0]|, frames, symbols, titles, fixed, k)[i]| == |frames[0]| + 2
  {
    var n := |frames[0]|;
    var ps := FramePieces(n, frames, symbols, titles, fixed, k);
    if k > 0 {
      FramePiecesAt(n, frames, symbols, titles, fixed, k, 0);
    }
    forall i | 0 <= i < k
      ensures |ps[i]| == n + 2
    {
      FramePiecesAt(n, frames, symbols, titles, fixed, k, i);
      FrameLinesLength(n, titles[i], frames[i], symbols, fixed);
    }
  }

  /** The line at which pair `j` starts when each pair takes `nAtoms + 2` lines. */
  function Offset(j: nat, nAtoms: nat): nat
  {
    j * (nAtoms + 2)
  }

  /** Pair `j` is written, in order, at line `j * (n + 2)`: the atom count `n` in decimal (which
      reads back as `n`, by `NatToStringValue`), the stripped title, and one line per atom. */
  lemma XyzLinesFrame(frames: seq<seq<Point>>, symbols: seq<string>, titles: seq<string>, fixed: real -> string, k: nat, j: nat)
    requires SameLength(frames) && frames != [] && |frames[0]| <= |symbols| && k <= Pairs(frames, titles)
    requires j < k
    ensures Offset(j, |frames[0]|) + |frames[0]| + 2 <= |XyzLines(|frames[0]|, frames, symbols, titles, fixed, k)|
    ensures XyzLines(|frames[0]|, frames, symbols, titles, fixed, k)[Offset(j, |frames[0]|) .. Offset(j, |frames[0]|) + |frames[0]| + 2] ==
            FrameLines(|frames[0]|, titles[j], frames[j], symbols, fixed)
    ensures XyzLines(|frames[0]|, frames, symbols, titles, fixed, k)[Offset(j, |frames[0]|)] == NatToString(|frames[0]|)
    ensures XyzLines(|frames[0]|, frames, symbols, titles, fixed, k)[Offset(j, |frames[0]|) + 1] == Strip(titles[j])
  {
    var n := |frames[0]|;
    var ps := FramePieces(n, frames, symbols, titles, fixed, k);
    FramePiecesWidth(frames, symbols, titles, fixed, k);
    ConcatAt(ps, n + 2, j);
    FramePiecesAt(n, frames, symbols, titles, fixed, k, j);
    var ls := Concat(ps);
    var at := Offset(j, n);
    assert at + n + 2 <= |ls| && ls[at .. at + n + 2] == ps[j];
    var sl := ls[at .. at + n + 2];
    assert ls[at] == sl[0] && ls[at + 1] == sl[1];
  }

  /** What `read_webmo_xyz` returns can be written without `IndexError` whenever it holds a frame,
      and every frame is written. */
  lemma WriteAfterRead(lines: seq<string>, conv: Conv, elementSymbol: int -> string)
    requires ReadResult(lines, conv, elementSymbol).Ok?
    requires ReadResult(lines, conv, elementSymbol).value.frames != []
    ensures var t := ReadResult(lines, conv, elementSymbol).value;
            SameLength(t.frames) && !WriteFails(t.frames, t.symbols, t.titles) && Pairs(t.frames, t.titles) == |t.frames|
  {
    ReadCovers(lines, conv, elementSymbol);
  }
}
