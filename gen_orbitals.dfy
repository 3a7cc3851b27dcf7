/**
 * gen_orbitals.py without its subprocesses: the orbital list given on the
 * command line (`parse_orbital_range` and the range check after it), and
 * the text that is piped into `orca_plot`.
 */
module GenOrbitals {
  import opened Common

  // parse_orbital_range

  /** The orbitals `lo, lo + 1, ..., hi - 1` one item names, as `range(lo, hi)`. */
  datatype Span = Span(lo: int, hi: int)
  {
    function Set(): (r: set<int>)
      ensures forall x :: x in r <==> lo <= x < hi
    {
      RangeSet(lo, hi)
    }
  }

  /** `range(lo, hi)` as a set. */
  function RangeSet(lo: int, hi: int): (r: set<int>)
    ensures forall x :: x in r <==> lo <= x < hi
    decreases hi - lo
  {
    if lo >= hi then {} else {lo} + RangeSet(lo + 1, hi)
  }

  /**
   * The orbitals one command-line item names, after `item.strip()`:
   * `M-` is every orbital from M up to (not including) `nMos`, `M-N` every
   * orbital from M to N inclusive, anything else the single orbital it
   * spells.  An empty item fails on `item[-1]` (`IndexError`), text
   * `int(...)` rejects and an `M-N` item with more than one dash fail with
   * `ValueError`.
   */
  function OrbitalItem(item: string, nMos: int, conv: Conv): (r: Result<Span>)
    ensures r.Err? ==> (r.error == IndexError <==> Strip(item) == [])
    ensures r.Err? ==> r.error == IndexError || r.error == ValueError
  {
    var t := Strip(item);
    if t == [] then Err(IndexError)
    else if t[|t| - 1] == '-' then
      var m := conv.toInt(t[..|t| - 1]);
      if m.None? then Err(ValueError) else Ok(Span(m.value, nMos))
    else if '-' in t then
      var bounds := SplitOn(t, '-');
      if |bounds| != 2 then Err(ValueError)
      else
        var lo := conv.toInt(Strip(bounds[0]));
        var hi := conv.toInt(Strip(bounds[1]));
        if lo.None? || hi.None? then Err(ValueError) else Ok(Span(lo.value, hi.value + 1))
    else
      var k := conv.toInt(t);
      if k.None? then Err(ValueError) else Ok(Span(k.value, k.value + 1))
  }

  /** `M-` names every orbital from M to the last one. */
  lemma OpenRangeItem(item: string, nMos: int, conv: Conv, m: int)
    requires var t := Strip(item); t != [] && t[|t| - 1] == '-' && conv.toInt(t[..|t| - 1]) == Some(m)
    ensures OrbitalItem(item, nMos, conv).Ok?
    ensures forall x :: x in OrbitalItem(item, nMos, conv).value.Set() <==> m <= x < nMos
  {
  }

  /** `M-N` names the orbitals from M to N inclusive, and none when N < M. */
  lemma ClosedRangeItem(item: string, nMos: int, conv: Conv, lo: string, hi: string, m: int, n: int)
    requires Strip(item) == lo + "-" + hi && hi != [] && '-' !in lo && '-' !in hi
    requires conv.toInt(Strip(lo)) == Some(m) && conv.toInt(Strip(hi)) == Some(n)
    ensures OrbitalItem(item, nMos, conv).Ok?
    ensures forall x :: x in OrbitalItem(item, nMos, conv).value.Set() <==> m <= x <= n
    ensures n < m ==> OrbitalItem(item, nMos, conv).value.Set() == {}
  {
    var t := Strip(item);
    assert t[|t| - 1] == hi[|hi| - 1];
    assert t[|lo|] == '-';
    SplitOnAppend(lo, hi, '-');
    SplitOnNone(hi, '-');
    assert lo + "-" + hi == lo + ['-'] + hi;
  }

  /** An item without a dash names the one orbital it spells. */
  lemma SingleItem(item: string, nMos: int, conv: Conv, k: int)
    requires Strip(item) != [] && '-' !in Strip(item) && conv.toInt(Strip(item)) == Some(k)
    ensures OrbitalItem(item, nMos, conv).Ok? && OrbitalItem(item, nMos, conv).value.Set() == {k}
  {
    var t := Strip(item);
    assert t[|t| - 1] in t;
    var r := OrbitalItem(item, nMos, conv).value.Set();
    assert k in r;
    assert forall x :: x in r ==> x == k;
  }

  /** `OrbitalItem` for a fixed number of orbitals and conversion. */
  function ItemReader(nMos: int, conv: Conv): string -> Result<Span>
  {
    item => OrbitalItem(item, nMos, conv)
  }

  /** The set `nmos` after the loop has handled `items`, or the error of the first item that fails. */
  function Union(items: seq<string>, read: string -> Result<Span>): (r: Result<set<int>>)
  {
    if items == [] then Ok({})
    else
      var s := Union(items[..|items| - 1], read);
      if s.Err? then s
      else
        var t := read(items[|items| - 1]);
        if t.Err? then Err(t.error) else Ok(s.value + t.value.Set())
  }

  ghost predicate NamedBySome(x: int, items: seq<string>, read: string -> Result<Span>)
  {
    exists i :: 0 <= i < |items| && read(items[i]).Ok? && x in read(items[i]).value.Set()
  }

  /** The items parse exactly when each does, and then the set holds exactly the orbitals some item names. */
  lemma {:induction false} UnionMembers(items: seq<string>, read: string -> Result<Span>)
    ensures Union(items, read).Ok? <==> forall i :: 0 <= i < |items| ==> read(items[i]).Ok?
    ensures Union(items, read).Ok? ==>
              forall x :: x in Union(items, read).value <==> NamedBySome(x, items, read)
  {
    if items != [] {
      var init := items[..|items| - 1];
      UnionMembers(init, read);
      assert forall i :: 0 <= i < |init| ==> init[i] == items[i];
      if Union(items, read).Ok? {
        forall x
          ensures x in Union(items, read).value <==> NamedBySome(x, items, read)
        {
          if NamedBySome(x, items, read) {
            var i :| 0 <= i < |items| && read(items[i]).Ok? && x in read(items[i]).value.Set();
            if i < |init| {
              assert NamedBySome(x, init, read);
            }
          }
        }
      }
    }
  }

  /** The first item that fails decides the error. */
  lemma {:induction false} UnionError(items: seq<string>, read: string -> Result<Span>)
    requires Union(items, read).Err?
    ensures exists i :: 0 <= i < |items| && Union(items[..i], read).Ok? &&
                        read(items[i]) == Err(Union(items, read).error)
  {
    var init := items[..|items| - 1];
    if Union(init, read).Err? {
      UnionError(init, read);
      var i :| 0 <= i < |init| && Union(init[..i], read).Ok? &&
               read(init[i]) == Err(Union(init, read).error);
      assert init[..i] == items[..i];
    } else {
      assert items[..|items| - 1] == init;
    }
  }

  /** Item order does not matter: items given in two groups name the union of what each group names. */
  lemma {:induction false} UnionAppend(a: seq<string>, b: seq<string>, read: string -> Result<Span>)
    requires Union(a + b, read).Ok?
    ensures Union(a, read).Ok? && Union(b, read).Ok? && Union(b + a, read).Ok?
    ensures Union(a + b, read).value == Union(a, read).value + Union(b, read).value
                                          == Union(b + a, read).value
  {
    UnionMembers(a + b, read);
    UnionMembers(a, read);
    UnionMembers(b, read);
    UnionMembers(b + a, read);
    assert forall i :: 0 <= i < |a| ==> a[i] == (a + b)[i];
    assert forall i :: 0 <= i < |b| ==> b[i] == (a + b)[|a| + i] == (b + a)[i];
    assert forall i :: 0 <= i < |a| ==> a[i] == (b + a)[|b| + i];
    forall x
      ensures x in Union(a + b, read).value <==> x in Union(a, read).value + Union(b, read).value
      ensures x in Union(b + a, read).value <==> x in Union(a, read).value + Union(b, read).value
    {
      if NamedBySome(x, a + b, read) {
        var i :| 0 <= i < |a + b| && read((a + b)[i]).Ok? && x in read((a + b)[i]).value.Set();
        if i < |a| { assert NamedBySome(x, a, read); } else { assert NamedBySome(x, b, read); }
      }
      if NamedBySome(x, b + a, read) {
        var i :| 0 <= i < |b + a| && read((b + a)[i]).Ok? && x in read((b + a)[i]).value.Set();
        if i < |b| { assert NamedBySome(x, b, read); } else { assert NamedBySome(x, a, read); }
      }
      if NamedBySome(x, a, read) {
        var i :| 0 <= i < |a| && read(a[i]).Ok? && x in read(a[i]).value.Set();
        assert NamedBySome(x, a + b, read) by { assert (a + b)[i] == a[i]; }
        assert NamedBySome(x, b + a, read) by { assert (b + a)[|b| + i] == a[i]; }
      }
      if NamedBySome(x, b, read) {
        var i :| 0 <= i < |b| && read(b[i]).Ok? && x in read(b[i]).value.Set();
        assert NamedBySome(x, a + b, read) by { assert (a + b)[|a| + i] == b[i]; }
        assert NamedBySome(x, b + a, read) by { assert (b + a)[i] == b[i]; }
      }
    }
  }

  /** `list(range(n))`. */
  function Range(n: int): (r: seq<int>)
    ensures |r| == (if n <= 0 then 0 else n) && forall i :: 0 <= i < |r| ==> r[i] == i
  {
    if n <= 0 then [] else seq(n, i => i)
  }

  /** Every orbital, each once, in increasing order. */
  lemma RangeMembers(n: int)
    ensures StrictlyIncreasing(Range(n)) && forall x :: x in Range(n) <==> 0 <= x < n
  {
    forall x | 0 <= x < n
      ensures x in Range(n)
    {
      assert Range(n)[x] == x;
    }
  }

  /**
   * `parse_orbital_range(n_mos, mos)`: with no items every orbital, in
   * order; otherwise the loop collects the named orbitals in a set, which
   * is returned sorted.
   */
  method ParseOrbitalRange(nMos: int, items: seq<string>, conv: Conv) returns (r: Result<seq<int>>)
    ensures items == [] ==> r == Ok(Range(nMos))
    ensures items != [] ==> (r.Ok? <==> Union(items, ItemReader(nMos, conv)).Ok?)
    ensures items != [] && r.Err? ==> r.error == Union(items, ItemReader(nMos, conv)).error
    ensures items != [] && r.Ok? ==>
              StrictlyIncreasing(r.value) && forall x :: x in r.value <==> x in Union(items, ItemReader(nMos, conv)).value
  {
    if items == [] {
      return Ok(Range(nMos));
    }
    ghost var read := ItemReader(nMos, conv);
    var nmos: set<int> := {};
    var lo, hi := 0, 0;
    for i := 0 to |items|
      invariant Union(items[..i], read) == Ok(nmos)
      invariant lo <= hi && forall x :: x in nmos ==> lo <= x < hi
    {
      assert items[..i + 1][..i] == items[..i];
      var t := OrbitalItem(items[i], nMos, conv);
      assert t == read(items[i]);
      if t.Err? {
        UnionFails(items, i + 1, read);
        return Err(t.error);
      }
      nmos := nmos + t.value.Set();
      if t.value.lo < t.value.hi {
        lo, hi := Min(lo, t.value.lo), Max(hi, t.value.hi);
      }
    }
    assert items[..|items|] == items;
    var sorted := Sorted(nmos, lo, hi);
    return Ok(sorted);
  }

  /** Once an item fails, the items after it do not change the error. */
  lemma {:induction false} UnionFails(items: seq<string>, i: nat, read: string -> Result<Span>)
    requires i <= |items| && Union(items[..i], read).Err?
    ensures Union(items, read) == Union(items[..i], read)
    decreases |items| - i
  {
    if i < |items| {
      assert items[..i + 1][..i] == items[..i];
      UnionFails(items, i + 1, read);
    } else {
      assert items[..i] == items;
    }
  }

  /** `sorted(nmos)`: the elements of the set in increasing order, by a scan over bounds `[lo, hi)` that hold them all. */
  method Sorted(s: set<int>, lo: int, hi: int) returns (out: seq<int>)
    requires lo <= hi && forall x :: x in s ==> lo <= x < hi
    ensures StrictlyIncreasing(out) && forall x :: x in out <==> x in s
  {
    out := [];
    for v := lo to hi
      invariant StrictlyIncreasing(out)
      invariant forall i :: 0 <= i < |out| ==> out[i] < v
      invariant forall x :: x in out <==> x in s && x < v
    {
      if v in s {
        out := out + [v];
      }
    }
  }

  /** Lines 209-212: the script exits with status 1 at the first selected orbital outside `[0, nMos)`. */
  method FirstInvalid(mos: seq<int>, nMos: int) returns (bad: Option<nat>)
    ensures bad.None? <==> forall i :: 0 <= i < |mos| ==> 0 <= mos[i] < nMos
    ensures bad.Some? ==> bad.value < |mos| && !(0 <= mos[bad.value] < nMos) &&
                          forall i :: 0 <= i < bad.value ==> 0 <= mos[i] < nMos
  {
    for i := 0 to |mos|
      invariant forall j :: 0 <= j < i ==> 0 <= mos[j] < nMos
    {
      if mos[i] < 0 || mos[i] >= nMos {
        return Some(i);
      }
    }
    return None;
  }

  /** With no items every orbital is selected, so the check never fails. */
  lemma DefaultRangeValid(nMos: int)
    ensures forall i :: 0 <= i < |Range(nMos)| ==> 0 <= Range(nMos)[i] < nMos
  {
    forall i | 0 <= i < |Range(nMos)|
      ensures 0 <= Range(nMos)[i] < nMos
    {
      assert Range(nMos)[i] in Range(nMos);
    }
  }

  // Text piped into orca_plot

  const Terminator: string := "11\n"

  /** `run_orca_plot`: the text gets the menu's exit choice `11` unless it already ends with it. */
  function OrcaPlotInput(text: string): (r: string)
    ensures EndsWith(r, Terminator)
    ensures EndsWith(text, Terminator) ==> r == text
    ensures !EndsWith(text, Terminator) ==> r == text + "\n" + Terminator
  {
    if EndsWith(text, Terminator) then text else text + "\n11\n"
  }

  /** Adding the terminator twice changes nothing more. */
  lemma OrcaPlotInputIdempotent(text: string)
    ensures OrcaPlotInput(OrcaPlotInput(text)) == OrcaPlotInput(text)
  {
  }

  /** `get_n_orbitals` sends only the exit choice. */
  lemma EmptyInput()
    ensures OrcaPlotInput("") == "\n11\n"
  {
  }

  /**
   * `save_orbital_cube(orbital)`: menu choices 2 (orbital), 5 and 7 (cube
   * output), 4 (grid points) only when `n_points` is set and not zero,
   * then 10 (generate).
   */
  function CubeScript(orbital: int, nPoints: Option<int>): (r: string)
    ensures EndsWith(r, "10\n")
  {
    "2\n" + IntToString(orbital) + "\n5\n7\n" +
    (if nPoints.Some? && nPoints.value != 0 then "4\n" + IntToString(nPoints.value) + "\n" else "") +
    "10\n"
  }

  /** The menu choices of the cube script, one per line. */
  function CubeMenu(orbital: int, nPoints: Option<int>): seq<string>
  {
    ["2", IntToString(orbital), "5", "7"] +
    (if nPoints.Some? && nPoints.value != 0 then ["4", IntToString(nPoints.value)] else []) +
    ["10"]
  }

  /** The cube script is its menu choices, each on a line of its own. */
  lemma CubeScriptIsMenu(orbital: int, nPoints: Option<int>)
    ensures CubeScript(orbital, nPoints) == Terminated(CubeMenu(orbital, nPoints))
  {
    var o := IntToString(orbital);
    var head := ["2", o, "5", "7"];
    var pts := if nPoints.Some? && nPoints.value != 0 then ["4", IntToString(nPoints.value)] else [];
    var ptsText := if nPoints.Some? && nPoints.value != 0 then "4\n" + IntToString(nPoints.value) + "\n" else "";
    MenuHead(o);
    if pts != [] {
      MenuPair(head, "4", IntToString(nPoints.value));
    } else {
      assert head + pts == head;
    }
    assert Terminated(head + pts) == "2\n" + o + "\n5\n7\n" + ptsText;
    TerminatedSnoc(head + pts, "10");
  }

  lemma MenuHead(o: string)
    ensures Terminated(["2", o, "5", "7"]) == "2\n" + o + "\n5\n7\n"
  {
    TerminatedSnoc([], "2");
    TerminatedSnoc(["2"], o);
    TerminatedSnoc(["2", o], "5");
    TerminatedSnoc(["2", o, "5"], "7");
    assert [] + ["2"] == ["2"] && ["2"] + [o] == ["2", o] && ["2", o] + ["5"] == ["2", o, "5"];
    assert ["2", o, "5"] + ["7"] == ["2", o, "5", "7"];
  }

  lemma MenuPair(ls: seq<string>, a: string, b: string)
    ensures Terminated(ls + [a, b]) == Terminated(ls) + a + "\n" + b + "\n"
  {
    TerminatedSnoc(ls, a);
    TerminatedSnoc(ls + [a], b);
    assert ls + [a, b] == ls + [a] + [b];
  }

  /** The lines of the cube script: the orbital on the second, the grid size after `4` when given, and nothing after the last newline. */
  lemma CubeScriptLines(orbital: int, nPoints: Option<int>)
    ensures SplitOn(CubeScript(orbital, nPoints), '\n') == CubeMenu(orbital, nPoints) + [[]]
    ensures CubeMenu(orbital, nPoints)[1] == IntToString(orbital)
  {
    var ls := CubeMenu(orbital, nPoints);
    CubeScriptIsMenu(orbital, nPoints);
    IntDigits(orbital);
    if nPoints.Some? {
      IntDigits(nPoints.value);
    }
    assert forall i :: 0 <= i < |ls| ==> '\n' !in ls[i];
    SplitTerminated(ls);
  }

  lemma IntDigits(n: int)
    ensures '\n' !in IntToString(n)
  {
    var d := NatToString(if n < 0 then -n else n);
    assert forall j :: 0 <= j < |d| ==> '0' <= d[j] <= '9';
  }

  /** The cube script already ends its menu, so `run_orca_plot` appends the exit choice on a line of its own. */
  lemma CubeScriptSent(orbital: int, nPoints: Option<int>)
    ensures OrcaPlotInput(CubeScript(orbital, nPoints)) == CubeScript(orbital, nPoints) + "\n11\n"
  {
    var s := CubeScript(orbital, nPoints);
    assert s[|s| - 3..] == "10\n";
  }
}
