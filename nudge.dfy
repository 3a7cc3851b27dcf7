/**
 * The script body of nudge_structure.py after the `.hess` file is read:
 * choosing the modes to nudge along, adding the displacements to the
 * coordinates, and writing the XYZ file.
 *
 * The coordinates and unweighted modes are the arrays `OrcaHessian`
 * stores; the text-to-number conversions and the `{:f}` formatting of a
 * real are parameters.
 */
module Nudge {
  import opened Common
  import OrcaHessian

  /** One selected mode and the distance to displace along it (a pair of the script's `modes` and `displacements` lists). */
  datatype Nudge = Nudge(mode: int, disp: real)

  function Modes(sel: seq<Nudge>): (ms: seq<int>)
    ensures |ms| == |sel| && forall i :: 0 <= i < |sel| ==> ms[i] == sel[i].mode
  {
    seq(|sel|, i requires 0 <= i < |sel| => sel[i].mode)
  }

  // Default selection: every imaginary mode

  /** The default selection for frequencies `freqs`: the modes with a negative frequency, in increasing order, each by `d`. */
  ghost predicate ImaginarySelection(freqs: seq<real>, d: real, sel: seq<Nudge>)
  {
    StrictlyIncreasing(Modes(sel)) &&
    (forall i :: 0 <= i < |sel| ==> sel[i].disp == d) &&
    (forall m :: m in Modes(sel) <==> 0 <= m < |freqs| && freqs[m] < 0.0)
  }

  /** There is one default selection for given frequencies. */
  lemma ImaginarySelectionUnique(freqs: seq<real>, d: real, s: seq<Nudge>, t: seq<Nudge>)
    requires ImaginarySelection(freqs, d, s) && ImaginarySelection(freqs, d, t)
    ensures s == t
  {
    StrictlyIncreasingUnique(Modes(s), Modes(t));
    assert forall i :: 0 <= i < |s| ==> s[i] == Nudge(Modes(s)[i], d) == t[i];
  }

  /** The default selection is empty exactly when no frequency is negative. */
  lemma NoImaginaryMode(freqs: seq<real>, d: real, sel: seq<Nudge>)
    requires ImaginarySelection(freqs, d, sel)
    ensures sel == [] <==> forall m :: 0 <= m < |freqs| ==> freqs[m] >= 0.0
  {
    if sel == [] {
      forall m | 0 <= m < |freqs|
        ensures freqs[m] >= 0.0
      {
        assert m !in Modes(sel);
      }
    } else {
      assert Modes(sel)[0] in Modes(sel);
    }
  }

  /**
   * The numbers `if frequencies[imode] < 0` tests, one per `imode` in
   * `range(len(frequencies))`: the entries of a vector, or the rows of a
   * one-column matrix. Any other matrix row holds other than one number, and
   * its comparison has no truth value (`None`), unless there is no row at all.
   */
  ghost function TestedFrequencies(b: OrcaHessian.Block): Option<seq<real>>
    reads b.Objects()
  {
    match b
    case Vector(v) => Some(v[..])
    case Matrix(m) =>
      if m.Length1 == 1 then Some(seq(m.Length0, i requires 0 <= i < m.Length0 reads m => m[i, 0]))
      else if m.Length0 == 0 then Some([])
      else None
  }

  /** The loop over `range(len(frequencies))` that collects the modes with `frequencies[imode] < 0`. */
  method ImaginaryModes(freqs: OrcaHessian.Block, d: real) returns (r: Result<seq<Nudge>>)
    ensures r.Err? <==> TestedFrequencies(freqs).None?
    ensures r.Err? ==> r.error == ValueError
    ensures r.Ok? ==> ImaginarySelection(TestedFrequencies(freqs).value, d, r.value)
  {
    var n := if freqs.Vector? then freqs.v.Length else freqs.m.Length0;
    if freqs.Matrix? && freqs.m.Length1 != 1 && n > 0 {
      return Err(ValueError);
    }
    ghost var fs := TestedFrequencies(freqs).value;
    assert |fs| == n;
    var sel := [];
    for m := 0 to n
      invariant StrictlyIncreasing(Modes(sel))
      invariant forall i :: 0 <= i < |sel| ==> sel[i].disp == d && sel[i].mode < m
      invariant forall x :: x in Modes(sel) <==> 0 <= x < m && fs[x] < 0.0
    {
      var f := if freqs.Vector? then freqs.v[m] else freqs.m[m, 0];
      assert f == fs[m];
      if f < 0.0 {
        assert Modes(sel + [Nudge(m, d)]) == Modes(sel) + [m];
        sel := sel + [Nudge(m, d)];
      }
    }
    return Ok(sel);
  }

  /** A single-column frequency matrix selects as the vector of its column would. */
  lemma ColumnFrequencies(m: array2<real>, v: array<real>)
    requires m.Length1 == 1 && v.Length == m.Length0
    requires forall i :: 0 <= i < v.Length ==> v[i] == m[i, 0]
    ensures TestedFrequencies(OrcaHessian.Matrix(m)) == TestedFrequencies(OrcaHessian.Vector(v))
  {
    assert v[..] == seq(m.Length0, i requires 0 <= i < m.Length0 reads m => m[i, 0]);
  }

  // `-m` specifications

  /**
   * One `-m` argument as the script parses it: `modestr.split(':')` is
   * unpacked into exactly two parts, the mode number and the displacement,
   * and an empty displacement means the default `d`.  Any other number of
   * parts is the `ValueError` of the unpacking.
   */
  function ParseModeSpecAsWritten(spec: string, conv: Conv, d: real): (r: Result<Nudge>)
    ensures r.Err? ==> r.error == ValueError
    ensures r.Ok? ==> |SplitOn(spec, ':')| == 2 && conv.toInt(SplitOn(spec, ':')[0]) == Some(r.value.mode)
  {
    var parts := SplitOn(spec, ':');
    if |parts| != 2 then Err(ValueError)
    else ModeAndDisplacement(parts[0], parts[1], conv, d)
  }

  /** `int(imode)`, then `float(displacement)` unless the displacement text is empty. */
  function ModeAndDisplacement(modeText: string, dispText: string, conv: Conv, d: real): (r: Result<Nudge>)
    ensures r.Err? ==> r.error == ValueError
    ensures r.Ok? <==> conv.toInt(modeText).Some? && (dispText == [] || conv.toReal(dispText).Some?)
    ensures r.Ok? ==> r.value.mode == conv.toInt(modeText).value &&
                      r.value.disp == if dispText == [] then d else conv.toReal(dispText).value
  {
    var m := conv.toInt(modeText);
    if m.None? then Err(ValueError)
    else if dispText == [] then Ok(Nudge(m.value, d))
    else
      var x := conv.toReal(dispText);
      if x.None? then Err(ValueError) else Ok(Nudge(m.value, x.value))
  }

  /** The argument help promises that a mode "can be an integer": as written, a plain integer is rejected. */
  lemma PlainModeRejected(spec: string, conv: Conv, d: real)
    requires ':' !in spec
    ensures ParseModeSpecAsWritten(spec, conv, d) == Err(ValueError)
  {
    SplitOnNone(spec, ':');
  }

  /** The parse the help text describes: `N` selects mode N by the default distance, `N:d` as before. */
  function ParseModeSpec(spec: string, conv: Conv, d: real): (r: Result<Nudge>)
    ensures r.Err? ==> r.error == ValueError
  {
    var parts := SplitOn(spec, ':');
    if |parts| == 1 then ModeAndDisplacement(parts[0], [], conv, d)
    else if |parts| == 2 then ModeAndDisplacement(parts[0], parts[1], conv, d)
    else Err(ValueError)
  }

  /** A plain integer selects that mode by the default distance. */
  lemma PlainModeAccepted(spec: string, conv: Conv, d: real)
    requires ':' !in spec
    ensures ParseModeSpec(spec, conv, d).Ok? <==> conv.toInt(spec).Some?
    ensures conv.toInt(spec).Some? ==> ParseModeSpec(spec, conv, d) == Ok(Nudge(conv.toInt(spec).value, d))
  {
    SplitOnNone(spec, ':');
  }

  /** `N:d` is read as mode N and distance d, and `N:` as mode N by the default distance, in both parses. */
  lemma ColonSpec(modeText: string, dispText: string, conv: Conv, d: real)
    requires ':' !in modeText && ':' !in dispText
    ensures var spec := modeText + ":" + dispText;
            ParseModeSpec(spec, conv, d) == ParseModeSpecAsWritten(spec, conv, d) == ModeAndDisplacement(modeText, dispText, conv, d)
  {
    SplitOnAppend(modeText, dispText, ':');
    SplitOnNone(dispText, ':');
  }

  /** Both parses agree on every argument with a colon. */
  lemma ParsesAgreeWithColon(spec: string, conv: Conv, d: real)
    requires ':' in spec
    ensures ParseModeSpec(spec, conv, d) == ParseModeSpecAsWritten(spec, conv, d)
  {
    SplitOnSingle(spec, ':');
  }

  /**
   * Which parse the `-m` loop applies to each argument: the unpacking of
   * `modestr.split(':')` as the script is written, or the corrected parse
   * that also accepts a plain mode number, as the argument help describes.
   */
  datatype SpecParser = AsWritten | Corrected

  /** One `-m` argument under the chosen parse; the two parses differ only on arguments without a colon. */
  function ParseModeSpecWith(p: SpecParser, spec: string, conv: Conv, d: real): (r: Result<Nudge>)
    ensures r.Err? ==> r.error == ValueError
    ensures ':' in spec ==> r == ParseModeSpecAsWritten(spec, conv, d)
  {
    if p.AsWritten? then ParseModeSpecAsWritten(spec, conv, d)
    else
      if ':' in spec then ParsesAgreeWithColon(spec, conv, d); ParseModeSpec(spec, conv, d)
      else ParseModeSpec(spec, conv, d)
  }

  /** The loop over the `-m` arguments: every argument parsed in order, or the `ValueError` of the first that fails. */
  method ParseModeSpecs(p: SpecParser, specs: seq<string>, conv: Conv, d: real) returns (r: Result<seq<Nudge>>)
    ensures r.Ok? <==> forall i :: 0 <= i < |specs| ==> ParseModeSpecWith(p, specs[i], conv, d).Ok?
    ensures r.Err? ==> r.error == ValueError
    ensures r.Ok? ==> |r.value| == |specs| && forall i :: 0 <= i < |specs| ==> Ok(r.value[i]) == ParseModeSpecWith(p, specs[i], conv, d)
  {
    var sel := [];
    for i := 0 to |specs|
      invariant |sel| == i
      invariant forall j :: 0 <= j < i ==> Ok(sel[j]) == ParseModeSpecWith(p, specs[j], conv, d)
    {
      var n := ParseModeSpecWith(p, specs[i], conv, d);
      if n.Err? {
        return Err(n.error);
      }
      sel := sel + [n.value];
    }
    return Ok(sel);
  }

  /** What the selection step ends in: "Nothing to do" (exit status 0), or the modes to nudge along. */
  datatype Selection = NothingToDo | Selected(nudges: seq<Nudge>)

  /**
   * Lines 123-144: without `-m` (`specs` empty) the imaginary modes, and
   * "Nothing to do" if there are none; with `-m` the parsed arguments.
   * `freqs` is the `frequencies` attribute, `None` when the file had no
   * `$vibrational_frequencies` section.
   */
  method SelectModes(p: SpecParser, freqs: Option<OrcaHessian.Block>, specs: seq<string>, conv: Conv, d: real)
    returns (r: Result<Selection>)
    ensures specs == [] && freqs.None? ==> r == Err(AttributeError)
    ensures specs == [] && freqs.Some? ==>
              (r.Err? <==> TestedFrequencies(freqs.value).None?) && (r.Err? ==> r.error == ValueError) &&
              (r.Ok? ==> (r.value.NothingToDo? <==> forall m :: 0 <= m < |TestedFrequencies(freqs.value).value| ==>
                                                    TestedFrequencies(freqs.value).value[m] >= 0.0) &&
                         (r.value.Selected? ==> r.value.nudges != [] &&
                                                ImaginarySelection(TestedFrequencies(freqs.value).value, d, r.value.nudges)))
    ensures specs != [] ==>
              (r.Ok? <==> forall i :: 0 <= i < |specs| ==> ParseModeSpecWith(p, specs[i], conv, d).Ok?) &&
              (r.Err? ==> r.error == ValueError) &&
              (r.Ok? ==> r.value.Selected? && |r.value.nudges| == |specs| &&
                         forall i :: 0 <= i < |specs| ==> Ok(r.value.nudges[i]) == ParseModeSpecWith(p, specs[i], conv, d))
  {
    if specs == [] {
      if freqs.None? {
        return Err(AttributeError);
      }
      var sel := ImaginaryModes(freqs.value, d);
      if sel.Err? {
        return Err(sel.error);
      }
      NoImaginaryMode(TestedFrequencies(freqs.value).value, d, sel.value);
      if sel.value == [] {
        return Ok(NothingToDo);
      }
      return Ok(Selected(sel.value));
    }
    var s := ParseModeSpecs(p, specs, conv, d);
    if s.Err? {
      return Err(s.error);
    }
    return Ok(Selected(s.value));
  }

  /** As written, `-m` with any argument lacking a colon ends in ValueError; corrected, it does not on that account. */
  lemma PlainSpecsAsWritten(specs: seq<string>, i: nat, conv: Conv, d: real)
    requires i < |specs| && ':' !in specs[i]
    ensures !(forall j :: 0 <= j < |specs| ==> ParseModeSpecWith(AsWritten, specs[j], conv, d).Ok?)
    ensures ParseModeSpecWith(Corrected, specs[i], conv, d).Ok? <==> conv.toInt(specs[i]).Some?
  {
    PlainModeRejected(specs[i], conv, d);
    PlainModeAccepted(specs[i], conv, d);
  }

  // Displacement

  /** `coords + U` broadcasts back into `coords` (shape `rows` x 3) for `U` of shape `natom` x 3. */
  predicate Broadcasts(natom: nat, rows: nat)
  {
    natom == rows || natom == 1
  }

  /** The row of a mode array that broadcasting pairs with coordinate row `a`. */
  function ModeRow(natom: nat, a: nat): (r: nat)
    ensures natom == 1 ==> r == 0
    ensures natom != 1 ==> r == a
  {
    if natom == 1 then 0 else a
  }

  ghost predicate InRange(u: array3<real>, sel: seq<Nudge>)
  {
    forall i :: 0 <= i < |sel| ==> 0 <= sel[i].mode < u.Length0
  }

  /** `displacement * unweighted[imode]` at atom `a`, coordinate `k`. */
  function Nudged(u: array3<real>, n: Nudge, a: nat, k: nat): real
    reads u
    requires 0 <= n.mode < u.Length0 && (u.Length1 == 1 || a < u.Length1) && k < u.Length2
  {
    n.disp * u[n.mode, ModeRow(u.Length1, a), k]
  }

  /** The total shift of coordinate `k` of atom `a`: the sum of `dᵢ · uᵢ` over the selection. */
  function Offset(u: array3<real>, sel: seq<Nudge>, a: nat, k: nat): real
    reads u
    requires InRange(u, sel) && (u.Length1 == 1 || a < u.Length1) && k < u.Length2
  {
    if sel == [] then 0.0
    else Offset(u, sel[..|sel| - 1], a, k) + Nudged(u, sel[|sel| - 1], a, k)
  }

  /** Shifts add up: nudging along `s` and then along `t` is nudging along both. */
  lemma {:induction false} OffsetAppend(u: array3<real>, s: seq<Nudge>, t: seq<Nudge>, a: nat, k: nat)
    requires InRange(u, s) && InRange(u, t) && (u.Length1 == 1 || a < u.Length1) && k < u.Length2
    ensures InRange(u, s + t)
    ensures Offset(u, s + t, a, k) == Offset(u, s, a, k) + Offset(u, t, a, k)
  {
    assert InRange(u, s + t) by {
      assert forall i :: 0 <= i < |s + t| ==> (s + t)[i] == if i < |s| then s[i] else t[i - |s|];
    }
    if t != [] {
      var t' := t[..|t| - 1];
      assert (s + t)[..|s + t| - 1] == s + t';
      OffsetAppend(u, s, t', a, k);
    } else {
      assert s + t == s;
    }
  }

  /** The order in which modes are applied does not matter. */
  lemma OffsetCommutes(u: array3<real>, s: seq<Nudge>, t: seq<Nudge>, a: nat, k: nat)
    requires InRange(u, s) && InRange(u, t) && (u.Length1 == 1 || a < u.Length1) && k < u.Length2
    ensures InRange(u, s + t) && InRange(u, t + s)
    ensures Offset(u, s + t, a, k) == Offset(u, t + s, a, k)
  {
    OffsetAppend(u, s, t, a, k);
    OffsetAppend(u, t, s, a, k);
  }

  /** Modes nudged by zero leave the coordinates where they are. */
  lemma {:induction false} OffsetZero(u: array3<real>, sel: seq<Nudge>, a: nat, k: nat)
    requires InRange(u, sel) && (u.Length1 == 1 || a < u.Length1) && k < u.Length2
    requires forall i :: 0 <= i < |sel| ==> sel[i].disp == 0.0
    ensures Offset(u, sel, a, k) == 0.0
  {
    if sel != [] {
      OffsetZero(u, sel[..|sel| - 1], a, k);
    }
  }

  /**
   * Lines 150-154: `coords = np.copy(orcaparser.coords)` followed by
   * `coords += displacement * unweighted[imode]` for each selected mode.
   * The broadcast fails with `ValueError` unless the mode has one row per
   * atom or a single row.  Mode numbers index the mode array: the script
   * does not check them.
   */
  method Displace(coords: array2<real>, u: array3<real>, sel: seq<Nudge>) returns (r: Result<array2<real>>)
    requires InRange(u, sel) && coords.Length1 == 3 && u.Length2 == 3
    ensures r.Err? <==> sel != [] && !Broadcasts(u.Length1, coords.Length0)
    ensures r.Err? ==> r.error == ValueError
    ensures r.Ok? ==> fresh(r.value) && r.value.Length0 == coords.Length0 && r.value.Length1 == 3
    ensures r.Ok? && sel != [] ==>
              forall a, k :: 0 <= a < coords.Length0 && 0 <= k < 3 ==> r.value[a, k] == coords[a, k] + Offset(u, sel, a, k)
    ensures r.Ok? && sel == [] ==> forall a, k :: 0 <= a < coords.Length0 && 0 <= k < 3 ==> r.value[a, k] == coords[a, k]
  {
    var out := new real[coords.Length0, 3];
    forall a, k | 0 <= a < coords.Length0 && 0 <= k < 3 {
      out[a, k] := coords[a, k];
    }
    if sel == [] {
      return Ok(out);
    }
    if !Broadcasts(u.Length1, coords.Length0) {
      return Err(ValueError);
    }
    for i := 0 to |sel|
      invariant forall a, k :: 0 <= a < coords.Length0 && 0 <= k < 3 ==> out[a, k] == coords[a, k] + Offset(u, sel[..i], a, k)
    {
      AddMode(out, u, sel[i]);
      assert sel[..i + 1][..i] == sel[..i];
    }
    assert sel[..|sel|] == sel;
    return Ok(out);
  }

  /** One `coords += displacement * unweighted[imode]`. */
  method AddMode(out: array2<real>, u: array3<real>, n: Nudge)
    requires 0 <= n.mode < u.Length0 && out.Length1 == 3 && u.Length2 == 3 && Broadcasts(u.Length1, out.Length0)
    modifies out
    ensures forall a, k :: 0 <= a < out.Length0 && 0 <= k < 3 ==> out[a, k] == old(out[a, k]) + Nudged(u, n, a, k)
  {
    forall a, k | 0 <= a < out.Length0 && 0 <= k < 3 {
      out[a, k] := out[a, k] + Nudged(u, n, a, k);
    }
  }

  // XYZ output

  /** `'{:3s}'.format(s)`: `s` left-aligned in a field of at least three characters. */
  function Pad3(s: string): (r: string)
    ensures |r| == if |s| < 3 then 3 else |s|
    ensures r[..|s|] == s && forall i :: |s| <= i < |r| ==> r[i] == ' '
  {
    if |s| < 3 then s + seq(3 - |s|, _ => ' ') else s
  }

  /** The comment line of the XYZ file. */
  function Title(hessName: string, nmodes: nat): string
  {
    "  Generated from " + hessName + " by displacing " + NatToString(nmodes) + " modes"
  }

  /** One atom line: the padded label and the three coordinates formatted by `fmt` (`{:f}`). */
  function AtomXyzLine(sym: string, x: real, y: real, z: real, fmt: real -> string): string
  {
    Pad3(sym) + " " + fmt(x) + " " + fmt(y) + " " + fmt(z)
  }

  /** The lines of the XYZ file, without their newlines: atom count, title, one line per atom. */
  function XyzLines(hessName: string, nmodes: nat, labels: seq<string>, coords: array2<real>, fmt: real -> string): (ls: seq<string>)
    reads coords
    requires coords.Length0 == |labels| && coords.Length1 == 3
    ensures |ls| == |labels| + 2 && ls[0] == NatToString(|labels|) && ls[1] == Title(hessName, nmodes)
    ensures forall i :: 0 <= i < |labels| ==> ls[i + 2] == AtomXyzLine(labels[i], coords[i, 0], coords[i, 1], coords[i, 2], fmt)
  {
    [NatToString(|labels|), Title(hessName, nmodes)] +
    seq(|labels|, i requires 0 <= i < |labels| reads coords => AtomXyzLine(labels[i], coords[i, 0], coords[i, 1], coords[i, 2], fmt))
  }

  /**
   * Lines 156-161: the XYZ file the script writes, one `write` per line.
   * The atom count is the number of labels, and each label keeps its
   * coordinate row.
   */
  method WriteXyz(hessName: string, nmodes: nat, labels: seq<string>, coords: array2<real>, fmt: real -> string)
    returns (text: string)
    requires coords.Length0 == |labels| && coords.Length1 == 3
    ensures text == Terminated(XyzLines(hessName, nmodes, labels, coords, fmt))
  {
    ghost var ls := XyzLines(hessName, nmodes, labels, coords, fmt);
    text := NatToString(|labels|) + "\n";
    TerminatedPrefix(ls, 0);
    text := text + Title(hessName, nmodes) + "\n";
    TerminatedPrefix(ls, 1);
    for i := 0 to |labels|
      invariant text == Terminated(ls[..i + 2])
    {
      var line := AtomXyzLine(labels[i], coords[i, 0], coords[i, 1], coords[i, 2], fmt);
      assert line == ls[i + 2];
      TerminatedPrefix(ls, i + 2);
      text := text + line + "\n";
    }
    assert ls[..|labels| + 2] == ls;
  }

  /** The written file reads back, line by line, as the count, the title and one line per atom, and nothing after the last newline. */
  lemma XyzReadsBack(hessName: string, nmodes: nat, labels: seq<string>, coords: array2<real>, fmt: real -> string)
    requires coords.Length0 == |labels| && coords.Length1 == 3
    requires '\n' !in hessName && forall i :: 0 <= i < |labels| ==> '\n' !in labels[i]
    requires forall x :: '\n' !in fmt(x)
    ensures var ls := XyzLines(hessName, nmodes, labels, coords, fmt);
            SplitOn(Terminated(ls), '\n') == ls + [[]]
  {
    var ls := XyzLines(hessName, nmodes, labels, coords, fmt);
    forall i | 0 <= i < |ls|
      ensures '\n' !in ls[i]
    {
      if i == 0 {
        DigitsOnly(|labels|);
      } else if i == 1 {
        TitleOneLine(hessName, nmodes);
      } else {
        AtomLineOneLine(labels[i - 2], coords[i - 2, 0], coords[i - 2, 1], coords[i - 2, 2], fmt);
      }
    }
    SplitTerminated(ls);
  }

  /** The comment line is one line exactly when the `.hess` file name holds no newline. */
  lemma TitleOneLine(hessName: string, nmodes: nat)
    ensures '\n' in Title(hessName, nmodes) <==> '\n' in hessName
  {
    DigitsOnly(nmodes);
  }

  /** An atom line is one line exactly when neither its label nor a formatted coordinate holds a newline. */
  lemma AtomLineOneLine(sym: string, x: real, y: real, z: real, fmt: real -> string)
    ensures '\n' in AtomXyzLine(sym, x, y, z, fmt) <==> '\n' in sym || '\n' in fmt(x) || '\n' in fmt(y) || '\n' in fmt(z)
  {
    PadKeepsCharacters(sym);
    if '\n' in sym {
      var j :| 0 <= j < |sym| && sym[j] == '\n';
      assert Pad3(sym)[..|sym|][j] == '\n';
    }
  }

  lemma DigitsOnly(n: nat)
    ensures '\n' !in NatToString(n)
  {
    var r := NatToString(n);
    assert forall j :: 0 <= j < |r| ==> '0' <= r[j] <= '9';
  }

  lemma PadKeepsCharacters(s: string)
    ensures forall c :: c in Pad3(s) ==> c in s || c == ' '
  {
    var r := Pad3(s);
    forall c | c in r
      ensures c in s || c == ' '
    {
      var j :| 0 <= j < |r| && r[j] == c;
      if j < |s| {
        assert r[..|s|][j] == c;
      }
    }
  }

  /** The label of an atom line is its first whitespace field, so the label `_parse_atoms` read comes back unchanged. */
  lemma AtomLineLabel(sym: string, x: real, y: real, z: real, fmt: real -> string)
    requires sym != [] && forall i :: 0 <= i < |sym| ==> !IsSpace(sym[i])
    ensures Fields(AtomXyzLine(sym, x, y, z, fmt))[0] == sym
  {
    var line := AtomXyzLine(sym, x, y, z, fmt);
    assert line[..|sym|] == sym;
    assert IsSpace(line[|sym|]);
    WordOf(line, sym);
  }
}
