# orca-tools in Dafny

A model of the sequential logic of four of the orca-tools scripts, with proofs about it:

- **nudge_structure.py**
  - `OrcaHessian` reads an ORCA `.hess` file: the `$vibrational_frequencies`, `$normal_modes` and `$atoms` sections, the rank-1 and rank-2 data blocks they hold, the transpose of the normal-mode matrix into mode × atom × xyz form, and the mass-unweighting and renormalisation of the modes.
  - The script body picks the modes to nudge along, adds the displacements to the coordinates and writes an XYZ file.
  - Modules `OrcaHessian` (file `orca_hessian.dfy`) and `Nudge` (file `nudge.dfy`).
- **gen_orbitals.py**
  - The orbital list given on the command line (`M`, `M-N`, `M-`) and the range check after it.
  - The text piped into `orca_plot`: the `11` exit choice that ends every session, and the cube-file script.
  - Module `GenOrbitals`.
- **jmol_orbital_browser.py**
  - `get_jvxlfiles`: names of `.jvxl` files mapped to sorted entries with Jmol labels, under three labelling schemes.
  - The `JmolOrbitalControl` state: which isosurfaces are loaded and displayed, and the commands sent to Jmol by `load_mos`, `show_mos`, `hide_mos`, `selection_change` and `deselect_all`.
  - The ` \n` terminator of `jmol_send_pipe`.
  - Module `JmolOrbitalBrowser`.
- **webmo_to_canonical_xyz.py**
  - `read_webmo_xyz`: a WebMO trajectory split into titled blocks of atom rows.
  - `write_xyz`: the canonical XYZ frames.
  - Module `WebmoXyz`.

Module `Common` holds what the scripts share:
- the Python exception kinds, as an `Error` datatype, and a `Result` type;
- `str.split()` with no argument (`Fields`), `str.strip()`, and `str.split(sep)` (`SplitOn`);
- decimal formatting of integers (`{:d}`);
- the ordering of Python strings;
- the text-to-number conversions, as a `Conv` record of functions.

A file is read as a `seq<string>` of its lines, and a position in that sequence stands for the file iterator. The `.hess` reader never depends on whether a line keeps its newline: it strips every data line and tests only prefixes of header lines. The WebMO reader takes the lines as Python's iterator yields them, each with its newline (except possibly the last). So a title `line[1:]` keeps its newline there, and `readline()` gives `''` only at the end of the file. The writers build their output as lines without newlines, and the file's text is each line followed by `\n`.

Numbers read from text are `real`. The following are parameters of the model, not computed by it: `int(...)`/`float(...)` (`Conv`), `**0.5` (`sqrt`), `ANGSTROMS_PER_BOHR` (`bohr`), the `{:f}`/`{:14.6f}` formatting of a real, the element tables, and the regular expression of jmol_orbital_browser.py.

A Python exception is an `Err` result or an `Option<Error>`, with the exception's kind. Where a loop iterates over a Python `set`, the model lets it take the elements in any order. It returns the order it used as a ghost result, and the contract holds for every order.

## Model

| member | source | states |
|---|---|---|
| Common.FieldsSpec | webmo_to_canonical_xyz.py:32 | `split()` gives non-empty fields free of whitespace |
| Common.StripSpec | gen_orbitals.py:162 | `strip()` is empty exactly for blank text; otherwise it neither starts nor ends with whitespace |
| Common.SplitOn | gen_orbitals.py:167 | `split(sep)` gives at least one piece, and no piece contains the separator |
| Common.SplitOnJoin | gen_orbitals.py:167 | joining the pieces of `split(sep)` with `sep` gives back the text |
| Common.SplitOnNone | nudge_structure.py:137 | text without the separator splits into itself alone |
| Common.SplitOnAppend | gen_orbitals.py:167 | `a + sep + b`, with no `sep` in `a`, splits into `a` followed by the pieces of `b` |
| Common.SplitTerminated | webmo_to_canonical_xyz.py:58-62 | lines without newlines, each written with its `\n`, split back at `\n` into those lines plus a final empty piece |
| Common.NatToString | webmo_to_canonical_xyz.py:58 | `{:d}` of a natural number is a non-empty run of decimal digits, with no leading zero unless the number is 0 |
| Common.NatToStringValue | webmo_to_canonical_xyz.py:58 | the decimal text of `n` reads back as `n` |
| Common.NatToStringInjective | jmol_orbital_browser.py:119 | distinct numbers have distinct decimal texts |
| Common.StrLtTotal | jmol_orbital_browser.py:117 | Python's string order relates any two distinct strings one way or the other |
| Common.StrLtTransitive | jmol_orbital_browser.py:117 | Python's string order is transitive |
| Common.StrLtIrreflexive | jmol_orbital_browser.py:117 | no string is less than itself |
| Common.StrictlyIncreasingUnique | gen_orbitals.py:172 | two strictly increasing lists with the same members are equal |
| OrcaHessian.IntsSpec | nudge_structure.py:77 | `[int(dim) for dim in ...]` succeeds exactly when every field converts; item i is field i's value; otherwise ValueError |
| OrcaHessian.RealsSpec | nudge_structure.py:89 | `[float(field) for ...]` succeeds exactly when every field converts, item by item; otherwise ValueError |
| OrcaHessian.RowValuesFields | nudge_structure.py:89 | a matrix line gives the values of its fields after the row label, one per field, or ValueError when some field is not a number |
| OrcaHessian.CoordRowShape | nudge_structure.py:57 | assigning the coordinate values to a row of three succeeds with three values (copied in order) or one (broadcast to all three); any other count raises ValueError |
| OrcaHessian.AtomLine | nudge_structure.py:54-57 | an atom line gives IndexError with fewer than two fields; on success the label is field 0, the mass is field 1, and the coordinates are the remaining fields under the row-assignment rule |
| OrcaHessian.ReadLines | nudge_structure.py:81-82 | reading `n` lines with `next` yields `n` values and stays within the file |
| OrcaHessian.ReadLinesEach | nudge_structure.py:81-82 | value i of the `n` read comes from the i-th line after the cursor |
| OrcaHessian.ReadLinesFails | nudge_structure.py:81-82 | reading `n` lines fails exactly when the file ends first (StopIteration) or one of those lines fails to parse |
| OrcaHessian.ReadLinesErrorStays | nudge_structure.py:81-82 | once a read fails, reading further lines does not change the error |
| OrcaHessian.WriteRowSpec | nudge_structure.py:90 | `array[row, col:col+k] = fields` sets exactly cells `(row, col..col+k)` to the values, in order, and leaves every other cell alone |
| OrcaHessian.RowStep | nudge_structure.py:89-90 | a data row, when it fits, stays within the columns left to fill |
| OrcaHessian.ChunkRows | nudge_structure.py:86-91 | one column chunk consumes the label line and exactly `rows` data lines; the column advance is the last row's value count |
| OrcaHessian.ChunkRowsWrites | nudge_structure.py:87-90 | in one chunk, each row's values minus the label land in that row from the chunk's column on |
| OrcaHessian.ChunkRowsKeeps | nudge_structure.py:87-90 | a chunk changes no cell outside the rows it fills |
| OrcaHessian.ChunksStep | nudge_structure.py:84-91 | the `while col < shape[1]` loop handles one chunk and then continues from the advanced column and the line after it |
| OrcaHessian.ChunksKeeps | nudge_structure.py:84-91 | the column loop `Chunks` writes only cells inside the matrix's rows; every other cell keeps its value |
| OrcaHessian.ChunksNoRows | nudge_structure.py:85-91 | a matrix with columns but no rows raises UnboundLocalError at `len(fields)`, or StopIteration when the label line is missing |
| OrcaHessian.BlockSpec | nudge_structure.py:76-94 | a block that reads without error consumes at least its header line and never reads past the end of the file |
| OrcaHessian.VectorBlock | nudge_structure.py:80-82 | a rank-1 header `n` yields `n` entries, entry i being the second field of the i-th following line, and consumes exactly `n + 1` lines; it fails exactly when the file is too short or one of those lines fails (IndexError below two fields, ValueError when the field is not a number) |
| OrcaHessian.RankNotImplemented | nudge_structure.py:92-93 | a header of any rank other than 1 or 2 raises NotImplementedError, or ValueError when `np.empty` rejects a negative dimension |
| OrcaHessian.ParseBlock | nudge_structure.py:76-94 | `parse_block` fails exactly when the block specification does; on success its array holds the specified vector or the specified matrix cells |
| OrcaHessian.ParseVector | nudge_structure.py:80-82 | the rank-1 loop fills an array of length `n` with the values read, or returns the error of the first line that fails |
| OrcaHessian.FillMatrix | nudge_structure.py:83-91 | the rank-2 loop leaves the array agreeing with the chunk specification, or returns its error |
| OrcaHessian.FillChunk | nudge_structure.py:86-91 | the loop over rows of one chunk agrees with `ChunkRows` |
| OrcaHessian.StoreRow | nudge_structure.py:90 | the slice assignment updates the array as `WriteRow` specifies |
| OrcaHessian.AtomsSection | nudge_structure.py:47-57 | an `$atoms` section consumes the count line and one line per atom |
| OrcaHessian.AtomsSectionReads | nudge_structure.py:47-57 | the count line gives the number of atoms read, and atom i comes from the i-th line after it |
| OrcaHessian.ParseAtoms | nudge_structure.py:46-59 | `_parse_atoms` fails exactly when the section does; labels, masses and coordinates all have one entry per atom, taken from its line, with the coordinates multiplied by the Bohr factor |
| OrcaHessian.ReadAtoms | nudge_structure.py:53-59 | the loop over atoms stores each record's label, mass and scaled coordinates, or stops at the first failing line |
| OrcaHessian.StoreAtom | nudge_structure.py:55-57 | storing atom i extends the stored prefix of records by that atom |
| OrcaHessian.ScaleCoords | nudge_structure.py:59 | `coords *= ANGSTROMS_PER_BOHR` multiplies every coordinate by the factor |
| OrcaHessian.SliceLen | nudge_structure.py:41 | the row slice `[3a:3a+3]` of a matrix with `rows` rows has 3 rows when it fits and 0 when it starts past the end |
| OrcaHessian.ModesFitIff | nudge_structure.py:41 | the transpose succeeds exactly when there are no atoms, every atom has three rows, or the last atom's slice has a single row (which broadcasts) |
| OrcaHessian.SourceRow | nudge_structure.py:41 | coordinate k of atom a comes from matrix row `3a + k` when the slice is full, and from a row that exists whenever the slice broadcasts |
| OrcaHessian.ModesCheck | nudge_structure.py:34-41 | `_parse_normal_modes` succeeds exactly on a matrix whose rows fit the transpose |
| OrcaHessian.ParseNormalModes | nudge_structure.py:33-44 | a vector block raises IndexError (`shape[1]`); a matrix fails with ValueError unless its rows fit; on success `disp[m][a][k]` is matrix row `3a+k`, column m, for `ncols / 3` atoms |
| OrcaHessian.WeightedAtom | nudge_structure.py:67 | coordinate k of atom a of the weighted mode is that coordinate times the square root of the atom's own mass, or of the single mass when there is one (`masses[:, None]**0.5` broadcast) |
| OrcaHessian.SumSqDivide | nudge_structure.py:68-71 | dividing a mode by `n` divides its sum of squares by `n²` |
| OrcaHessian.DivideByNorm | nudge_structure.py:71 | dividing by a positive square root of the sum of squares gives sum of squares 1 |
| OrcaHessian.NormalisedUnitNorm | nudge_structure.py:67-71 | a weighted mode whose norm exceeds `1e-7` is renormalised to unit norm, given a correct square root |
| OrcaHessian.SmallModeUnnormalised | nudge_structure.py:70 | a weighted mode whose norm is at most `1e-7` is left as weighted |
| OrcaHessian.FinalizeError | nudge_structure.py:61-67 | `_finalize` succeeds exactly when there are normal modes and either no mode or a mass array that broadcasts over the atoms |
| OrcaHessian.UnweightModes | nudge_structure.py:61-73 | the loop over modes returns a new array, of the same shape, holding each mode weighted and renormalised as above, or the error `_finalize` raises |
| OrcaHessian.StoreMode | nudge_structure.py:67-71 | storing mode m sets exactly that mode's cells and leaves the other modes alone |
| OrcaHessian.Step | nudge_structure.py:16-24 | one step of the `for line in hessfile` loop moves the cursor forward and stays within the file |
| OrcaHessian.ScanSkipsOtherLines | nudge_structure.py:16-24 | lines that start none of the three section headers are skipped and change nothing |
| OrcaHessian.ScanKeepsUnnamed | nudge_structure.py:15-25 | in `read`'s loop (`Scan`), a section whose header starts none of the remaining lines keeps the value it had |
| OrcaHessian.Hessian.constructor | nudge_structure.py:12-13 | a new reader holds no section yet |
| OrcaHessian.Hessian.Read | nudge_structure.py:15-25 | `read` stores the sections the loop over the file specifies, or its error; after the file is consumed it calls `_finalize` once, and on success the unweighted modes are those of the stored modes and masses |
| OrcaHessian.Hessian.ReadLine | nudge_structure.py:16-24 | one line of the file dispatches on its header to the section parser, or is skipped, as `Step` specifies |
| OrcaHessian.Hessian.ParseFrequencies | nudge_structure.py:27-31 | `frequencies` becomes the block read, or the block's error is raised |
| OrcaHessian.Hessian.ParseModes | nudge_structure.py:33-44 | the normal modes become the transposed block, or the block's or the transpose's error is raised |
| OrcaHessian.Hessian.ParseAtomsSection | nudge_structure.py:46-59 | labels, masses and coordinates become those of the `$atoms` section, or its error is raised |
| OrcaHessian.Hessian.Finalize | nudge_structure.py:61-73 | `_finalize` fails as `FinalizeError` says, and otherwise stores the unweighted modes of the stored modes and masses |
| Nudge.ImaginaryModes | nudge_structure.py:126-131 | without `-m`, the modes chosen are exactly those whose tested frequency is negative, in increasing order, each with the default displacement; the tested frequencies are a vector's entries or a one-column matrix's rows, and any other matrix with a row raises ValueError at `if frequencies[imode] < 0` |
| Nudge.ColumnFrequencies | nudge_structure.py:126-127 | a one-column frequency matrix selects exactly as the vector of its column |
| Nudge.ImaginarySelectionUnique | nudge_structure.py:126-131 | the default selection is determined by the frequencies |
| Nudge.NoImaginaryMode | nudge_structure.py:132-134 | the default selection is empty exactly when no frequency is negative |
| Nudge.ParseModeSpecAsWritten | nudge_structure.py:137-144 | as written, a `-m` spec is accepted only when it has exactly one colon and an integer before it; every failure is ValueError |
| Nudge.PlainModeRejected | nudge_structure.py:137 | as written, a spec without a colon (`-m 3`) raises ValueError |
| Nudge.ParseModeSpec | nudge_structure.py:104-107 | the corrected spec parser fails only with ValueError |
| Nudge.PlainModeAccepted | nudge_structure.py:104-107 | corrected: a spec without a colon is an integer mode nudged by the default displacement |
| Nudge.ColonSpec | nudge_structure.py:137-142 | for `N:d` both parsers agree and give mode N with displacement d (the default when d is empty) |
| Nudge.ParsesAgreeWithColon | nudge_structure.py:137 | on specs with a colon the corrected parser behaves exactly as the code |
| Nudge.ParseModeSpecWith | nudge_structure.py:136-142 | one `-m` spec under the chosen parse, as written or corrected; both fail only with ValueError and agree on every spec with a colon |
| Nudge.ParseModeSpecs | nudge_structure.py:135-144 | the `-m` loop, under either parse, succeeds exactly when every spec parses, giving one pair per spec in order; otherwise ValueError |
| Nudge.SelectModes | nudge_structure.py:123-144 | without `-m` the imaginary modes, or "nothing to do" exactly when there are none (AttributeError when the file had no frequencies, ValueError on a frequency matrix with several columns); with `-m` the specs parsed under the chosen parse, so `-m 3` as written is ValueError |
| Nudge.PlainSpecsAsWritten | nudge_structure.py:135-137 | as written, `-m` with any spec lacking a colon fails; corrected, such a spec succeeds exactly when it is an integer |
| Nudge.OffsetAppend | nudge_structure.py:151-154 | the shift from nudging along `s` and then `t` is the sum of the two shifts |
| Nudge.OffsetCommutes | nudge_structure.py:151-154 | the order of the nudges does not matter |
| Nudge.OffsetZero | nudge_structure.py:151-154 | nudges by zero leave every coordinate where it is |
| Nudge.Displace | nudge_structure.py:150-154 | a new array equal to the original coordinates plus the sum of `dᵢ·u[modeᵢ]` over the selection, a one-row mode broadcasting its row to every atom; the input array is not changed; ValueError when a mode does not broadcast over the atoms |
| Nudge.AddMode | nudge_structure.py:154 | `coords += d * u[mode]` adds the nudge to every coordinate |
| Nudge.Pad3 | nudge_structure.py:161 | `{:3s}` keeps the label and pads it on the right with spaces to at least three characters |
| Nudge.PadKeepsCharacters | nudge_structure.py:161 | padding adds only spaces |
| Nudge.WriteXyz | nudge_structure.py:156-161 | the text written is those lines, each followed by a newline |
| Nudge.XyzReadsBack | nudge_structure.py:157-161 | split at newlines, the text gives back exactly those lines |
| Nudge.DigitsOnly | nudge_structure.py:158 | the atom count line holds no newline |
| Nudge.TitleOneLine | nudge_structure.py:160 | the comment line is a single line exactly when the `.hess` file name holds no newline |
| Nudge.AtomLineOneLine | nudge_structure.py:161 | an atom line (`AtomXyzLine`) is a single line exactly when neither its label nor a formatted coordinate holds a newline |
| Nudge.AtomLineLabel | nudge_structure.py:161 | the first field of an atom line is the atom's label, so a label read by `_parse_atoms` is written unchanged |
| GenOrbitals.Span.Set | gen_orbitals.py:165 | `range(lo, hi)` contains exactly the integers from `lo` up to `hi` |
| GenOrbitals.RangeSet | gen_orbitals.py:165 | `range(lo, hi)` as a set: exactly the integers from `lo` up to `hi` |
| GenOrbitals.OrbitalItem | gen_orbitals.py:161-170 | an item fails with IndexError exactly when it is blank (`item[-1]`); every other failure is ValueError |
| GenOrbitals.OpenRangeItem | gen_orbitals.py:163-165 | `M-` names every orbital from M up to `n_mos` |
| GenOrbitals.ClosedRangeItem | gen_orbitals.py:166-168 | `M-N` names the orbitals M to N inclusive, and none when N < M |
| GenOrbitals.SingleItem | gen_orbitals.py:169-170 | an item without a dash names exactly the orbital it spells |
| GenOrbitals.UnionMembers | gen_orbitals.py:158-170 | `Union`, the loop over items: the items parse exactly when each does, and the set then holds exactly the orbitals some item names |
| GenOrbitals.UnionError | gen_orbitals.py:161-170 | a failure is the error of the first failing item, all items before it parsing |
| GenOrbitals.UnionFails | gen_orbitals.py:161-170 | items after a failing one do not change the error |
| GenOrbitals.UnionAppend | gen_orbitals.py:158-172 | item order does not matter: two groups of items name the union of what each names, in either order |
| GenOrbitals.RangeMembers | gen_orbitals.py:155-156 | with no items the result is every orbital, once each, in increasing order |
| GenOrbitals.ParseOrbitalRange | gen_orbitals.py:149-172 | no items give `range(n_mos)`; otherwise the result is strictly increasing and holds exactly the union of the items, or the first failing item's error |
| GenOrbitals.Sorted | gen_orbitals.py:172 | `sorted(nmos)` is strictly increasing and holds exactly the set's members |
| GenOrbitals.FirstInvalid | gen_orbitals.py:209-212 | the check finds an index exactly when some orbital is outside `[0, n_mos)`, and reports the first such |
| GenOrbitals.DefaultRangeValid | gen_orbitals.py:208-212 | with no items the range check never fails |
| GenOrbitals.OrcaPlotInput | gen_orbitals.py:59-60 | the text sent always ends with `11\n`; text already ending so is unchanged, other text gets `\n11\n` |
| GenOrbitals.OrcaPlotInputIdempotent | gen_orbitals.py:59-60 | terminating twice changes nothing more |
| GenOrbitals.EmptyInput | gen_orbitals.py:88 | `get_n_orbitals` sends `\n11\n` |
| GenOrbitals.CubeScript | gen_orbitals.py:97-101 | the cube script ends with the generate choice `10\n` |
| GenOrbitals.CubeScriptIsMenu | gen_orbitals.py:98-101 | the cube script is the choices 2, the orbital, 5, 7, then 4 and the grid size only when `n_points` is set and non-zero, then 10, each on its own line |
| GenOrbitals.CubeScriptLines | gen_orbitals.py:98-101 | split at newlines the script gives back those choices, the orbital's number on the second line |
| GenOrbitals.CubeScriptSent | gen_orbitals.py:102 | the cube script does not end with `11\n`, so `\n11\n` is appended to it |
| JmolOrbitalBrowser.KeyLtIrreflexive | jmol_orbital_browser.py:117 | no key is less than itself in tuple order |
| JmolOrbitalBrowser.KeyLtTransitive | jmol_orbital_browser.py:117 | the tuple order of `(stem, MO, suffix)` keys is transitive |
| JmolOrbitalBrowser.KeyLtTotal | jmol_orbital_browser.py:117 | any two distinct keys are ordered one way or the other |
| JmolOrbitalBrowser.LeastExists | jmol_orbital_browser.py:117 | every non-empty set of keys has a least key |
| JmolOrbitalBrowser.SortKeys | jmol_orbital_browser.py:117 | `sorted(keys)` lists the keys in increasing order, each exactly once |
| JmolOrbitalBrowser.JvxlNames | jmol_orbital_browser.py:94-95 | the default file list is exactly the listed names ending in `.jvxl` |
| JmolOrbitalBrowser.FileMapSpec | jmol_orbital_browser.py:100-106 | `FileMap`, the loop building `jvxl_dict`: the map is built exactly when every name matches the pattern (ValueError otherwise); it has one entry per distinct key, holding the last name with that key |
| JmolOrbitalBrowser.FileMapOk | jmol_orbital_browser.py:100-103 | a name the pattern does not match raises ValueError, and only then |
| JmolOrbitalBrowser.FileMapKeys | jmol_orbital_browser.py:106 | the keys of the map are the keys of the names |
| JmolOrbitalBrowser.FileMapLast | jmol_orbital_browser.py:106 | a later name with the same key replaces the earlier one |
| JmolOrbitalBrowser.MoLabelInjective | jmol_orbital_browser.py:127 | `mo<n><suffix>` determines the orbital number and the suffix |
| JmolOrbitalBrowser.OsLabelInjective | jmol_orbital_browser.py:136 | `os<i>mo<n><suffix>` determines the stem number, the orbital number and the suffix |
| JmolOrbitalBrowser.EntryLabelsDistinct | jmol_orbital_browser.py:116-140 | `Entry`, one entry of the list: under each labelling scheme two distinct keys get distinct Jmol labels, when no suffix starts with a digit |
| JmolOrbitalBrowser.EntriesLabelsDistinct | jmol_orbital_browser.py:115-140 | all the entries of the list have distinct Jmol labels |
| JmolOrbitalBrowser.NumberStems | jmol_orbital_browser.py:133 | `stem_map` numbers every stem, each with its own number below the number of stems |
| JmolOrbitalBrowser.CollectKeys | jmol_orbital_browser.py:98-106 | the loop over names builds the map `FileMap` specifies, and the stems and suffixes of its keys |
| JmolOrbitalBrowser.LabelFiles | jmol_orbital_browser.py:115-140 | one entry per key, in increasing key order, each with its file and its label: `mo<n>`/`MO <n>` for one stem and one suffix, `mo<n><suffix>`/`MO <n><suffix>` for one stem, `os<i>mo<n><suffix>`/`<stem> MO <n><suffix>` otherwise, with distinct stem numbers |
| JmolOrbitalBrowser.JvxlFiles | jmol_orbital_browser.py:92-142 | `get_jvxlfiles` fails with ValueError exactly when some name has no key; otherwise it gives the sorted, labelled entries of the map's keys |
| JmolOrbitalBrowser.Command | jmol_orbital_browser.py:217-231 | every command sent is an `isosurface` command |
| JmolOrbitalBrowser.Commands | jmol_orbital_browser.py:215-233 | one command per index handled |
| JmolOrbitalBrowser.EnumeratesMembers | jmol_orbital_browser.py:215 | iterating over a set takes exactly its members |
| JmolOrbitalBrowser.EnumeratesDistinct | jmol_orbital_browser.py:215 | iterating over a set takes no member twice |
| JmolOrbitalBrowser.SendEach | jmol_orbital_browser.py:215-233 | the loop handles every index of the set once and sends their commands in that order |
| JmolOrbitalBrowser.PipeScript | jmol_orbital_browser.py:152-154 | a script sent on the pipe always ends with ` \n`; one already ending so is unchanged, others get ` \n` appended |
| JmolOrbitalBrowser.PipeScriptIdempotent | jmol_orbital_browser.py:153-154 | terminating twice changes nothing more |
| JmolOrbitalBrowser.SyncScriptUnchanged | jmol_orbital_browser.py:148 | `SYNC -<port> \n` is sent as it is |
| JmolOrbitalBrowser.JmolOrbitalControl.constructor | jmol_orbital_browser.py:60-77 | nothing is listed, loaded or displayed, so displayed ⊆ loaded holds |
| JmolOrbitalBrowser.JmolOrbitalControl.GetJvxlFiles | jmol_orbital_browser.py:92-142 | on success the list becomes the sorted, labelled entries; on ValueError it is unchanged |
| JmolOrbitalBrowser.JmolOrbitalControl.LoadMos | jmol_orbital_browser.py:214-221 | every index is loaded and displayed, one load command each, and displayed ⊆ loaded is kept |
| JmolOrbitalBrowser.JmolOrbitalControl.ShowMos | jmol_orbital_browser.py:223-227 | every index is displayed, one `on` command each; what is loaded does not change |
| JmolOrbitalBrowser.JmolOrbitalControl.HideMos | jmol_orbital_browser.py:229-233 | every index is hidden and removed from the displayed set, one `off` command each; KeyError exactly when some index is not displayed, raised at the first such index in iteration order after its command: every index before it was displayed, is hidden, and none is taken twice |
| JmolOrbitalBrowser.JmolOrbitalControl.SelectionChange | jmol_orbital_browser.py:235-248 | afterwards exactly the selection is displayed, it is all loaded, nothing loaded is unloaded, and the commands sent hide, load and show exactly the indices that need it |
| JmolOrbitalBrowser.JmolOrbitalControl.DeselectAll | jmol_orbital_browser.py:198-200 | every displayed isosurface is hidden, one command each, and nothing stays displayed |
| WebmoXyz.CoordRows | webmo_to_canonical_xyz.py:28-46 | the rows of a block that reads without error stay within the file |
| WebmoXyz.CoordRowsAcc | webmo_to_canonical_xyz.py:43-44 | rows already gathered are kept in front of the rows read |
| WebmoXyz.CoordRowsOk | webmo_to_canonical_xyz.py:28-46 | a block that reads without error is a run of atom rows ended by a blank line or the end of the file (`readline` gives `''`); row i gives point i and, while symbols are collected, symbol i, which is the element symbol of an integer label and the label itself otherwise |
| WebmoXyz.CoordRowsFails | webmo_to_canonical_xyz.py:29-43 | a non-blank line in a block that does not split into four fields with three numbers raises ValueError |
| WebmoXyz.CoordRowsErr | webmo_to_canonical_xyz.py:32-43 | every error inside a block is ValueError |
| WebmoXyz.CoordRowsCollect | webmo_to_canonical_xyz.py:34-41 | collecting symbols or not changes only the symbols a block returns |
| WebmoXyz.ReadlineAtEnd | webmo_to_canonical_xyz.py:22 | `readline()` (`NextLine`) gives `''` exactly at the end of the file, since no line the iterator yields is empty, and stays within the file |
| WebmoXyz.TitleLine | webmo_to_canonical_xyz.py:19-25 | a `!` line (`BlockTitle`) is the marker followed by the block's title; any other line gives the default title |
| WebmoXyz.FirstCoordLineOf | webmo_to_canonical_xyz.py:19-26 | starting a block (`FirstCoordLine`) takes one line, or two after a title; the first coordinate line is the last line taken, or `''` after a title on the last line |
| WebmoXyz.ParsePointFields | webmo_to_canonical_xyz.py:43 | `np.array((x, y, z), dtype=np.float64)` (`ParsePoint`) succeeds exactly when the three coordinate fields convert, and holds their values in order |
| WebmoXyz.ReadWebmoXyz | webmo_to_canonical_xyz.py:9-52 | the reading loop returns what the specification of the whole file returns |
| WebmoXyz.ScanBlocks | webmo_to_canonical_xyz.py:15-50 | `Scan`, the outer loop, reads the blocks `Blocks` lists one after another and keeps the symbols of the first block that produced any |
| WebmoXyz.BlockAt | webmo_to_canonical_xyz.py:19-47 | the first of `Blocks`: a `!` line opens a block titled by the rest of the line, whose first row is the next line; any other line is itself the first row of a block titled `Converted from WebMO`; the next block starts after the line that ended this one |
| WebmoXyz.BlocksSymbolCount | webmo_to_canonical_xyz.py:34-41 | a block read with symbols has one symbol per atom |
| WebmoXyz.FirstSymbolsCover | webmo_to_canonical_xyz.py:48-49 | with one symbol per atom and frames of one length, the symbols kept name every atom of a frame |
| WebmoXyz.BlocksErr | webmo_to_canonical_xyz.py:32-43 | a file's blocks fail only with ValueError |
| WebmoXyz.ReadBlocks | webmo_to_canonical_xyz.py:9-52 | one title and one frame per block, in file order, and the symbols of the first block with atoms; ValueError when a block is malformed or frames differ in length |
| WebmoXyz.ReadCovers | webmo_to_canonical_xyz.py:48-52 | a file read without error has one title per frame, frames of one length, and a symbol for every atom |
| WebmoXyz.RightAlign3Pads | webmo_to_canonical_xyz.py:62 | `{:>3s}` right-aligns the symbol with spaces in a field at least three wide |
| WebmoXyz.AtomLinesUpToSnoc | webmo_to_canonical_xyz.py:61-62 | one more atom adds one more line at the end |
| WebmoXyz.AtomLinesAt | webmo_to_canonical_xyz.py:61-62 | line i of a frame is atom i's aligned symbol and three coordinates |
| WebmoXyz.AtomLinesLength | webmo_to_canonical_xyz.py:61-62 | a frame has one line per atom written |
| WebmoXyz.FramePiecesAt | webmo_to_canonical_xyz.py:57-62 | piece j of the output is the lines of pair j |
| WebmoXyz.FrameLinesLength | webmo_to_canonical_xyz.py:58-62 | a frame takes its atom count plus two lines |
| WebmoXyz.WriteAtoms | webmo_to_canonical_xyz.py:61-62 | the atom loop writes one line per atom that has a symbol, and raises IndexError exactly when the frame has more atoms than symbols |
| WebmoXyz.WriteFrame | webmo_to_canonical_xyz.py:57-62 | one pass writes the atom count, the stripped title and the atom lines |
| WebmoXyz.WriteXyz | webmo_to_canonical_xyz.py:54-62 | `write_xyz` writes the frames of the (frame, title) pairs, up to the shorter list; IndexError exactly on an empty array (`shape[1]`) or too few symbols, in the latter case after the first frame's lines that could be written |
| WebmoXyz.WritePairs | webmo_to_canonical_xyz.py:57-62 | the `zip` loop writes pair after pair, or stops in the first with IndexError |
| WebmoXyz.XyzLinesLength | webmo_to_canonical_xyz.py:57-62 | k pairs take `k * (n + 2)` lines |
| WebmoXyz.XyzLinesFrame | webmo_to_canonical_xyz.py:57-62 | pair j sits at line `j * (n + 2)`: the atom count, which reads back as n, the stripped title, and one line per atom |
| WebmoXyz.WriteAfterRead | webmo_to_canonical_xyz.py:71-79 | what the reader returns, when it holds a frame, is written without IndexError, every frame with its title |

## Left out

- xyz_rmsd.py: floating-point RMSD over `np.loadtxt` input. Its alignment branch calls MDAnalysis's `qcprot`, whose code is not part of this model.
- Processes, pipes and sockets are left out: `run_orca_plot`'s `Popen`/`communicate`, `get_n_orbitals`'s and `save_orbital_cube`'s scan of the output, `JmolCmdLineInterface`, `cube_to_jvxl`, `run_jmol`, `jmol_send_socket`, `get_free_port` and `shutdown`. The commands that would go over the Jmol socket are appended to the `sent` log of `JmolOrbitalControl`.
- The Tk window: `ScrolledList`, `build_window`, `mainloop`.
- Floating point: reals are exact, and `float()`/`int()` of text, `**0.5`, `ANGSTROMS_PER_BOHR` and the `{:f}`/`{:14.6f}` formatting are parameters. `masses` is a float32 array in the source and reals here.
- OrcaHessian.NormalisedUnitNorm: unit norm is proved under the hypothesis that the square-root parameter is exact.
- The regular expressions (`re_jvxl_file`, `re_norbs`, `re_outputfile`) and `MatchCapturer`. The jvxl pattern is the `extract` parameter.
- elements.py is not part of this model. `element_number_to_symbol(element_label_to_number(...))` is the `elementSymbol` parameter.
- The file system and command line: `open`, `os.listdir` (the listing is the `entries` parameter), `os.unlink`, `find_xyzfile`, argparse, `sys.exit`, `vprint`, the `-l` frequency listing, the "Nothing to do" message of nudge_structure.py (only the `NothingToDo` outcome is modelled), its "Displacing mode …" message per nudge, the "output file required" exit and the Jmol script written by gen_orbitals.py.
- Nudge.Displace and Nudge.AddMode: indices into the mode array are a precondition, because the script does not check them, and numpy would also accept negative ones.
- JmolOrbitalBrowser.JmolOrbitalControl.LoadMos, and likewise ShowMos, HideMos, SelectionChange and DeselectAll: list positions in range are a precondition. The GUI only passes positions of its own list.
- JmolOrbitalBrowser.JmolOrbitalControl.constructor: `jvxl_files` starts as the empty list, not `None`.
- JmolOrbitalBrowser.EntryLabelsDistinct: label distinctness assumes no suffix starts with a digit, which the greedy `(\d+)` of the pattern guarantees but the abstract extractor does not.
- Python's set iteration order is left open. The methods return, as a ghost result, the order they used.
- OrcaHessian.FillMatrix: `np.empty` cells that no row writes hold unspecified values, so the contract speaks only of the cells written.
- numpy shape rules appear only where a branch depends on them: broadcasting a slice, `shape[1]` of a 1-D array, negative dimensions. `np.array` of frames of different lengths is taken to raise ValueError, as current numpy does.
- WebmoXyz.WriteXyz: returns the lines written; the file's text is `Terminated` of them. It requires frames of one length, which is what a numpy array of frames is.
- Nudge.WriteXyz: returns the file's text rather than writing it.
- Nudge.ImaginaryModes: a frequency matrix whose rows are empty is taken to raise ValueError at `if frequencies[imode] < 0`, as numpy 2.2 and later do; older numpy took an empty row as false.
- Nudge.ParseModeSpecs and Nudge.SelectModes take the parse as a parameter. With `AsWritten` they model lines 136-137 as the script has them. With `Corrected` they give the behaviour the help text describes, as listed under Findings.

## Findings

| source | as written | input that shows it | evidently intended | confidence | as-written member | corrected member |
|---|---|---|---|---|---|---|
| nudge_structure.py:137 | `imode, displacement = modestr.split(':')` needs exactly one colon | `-m 3`: `'3'.split(':')` has one piece, so the unpacking raises ValueError | the help text (lines 104-107) says a mode "Can be an integer", nudged by the default displacement | not executed | Nudge.ParseModeSpecAsWritten, Nudge.PlainModeRejected, Nudge.PlainSpecsAsWritten | Nudge.ParseModeSpec, Nudge.PlainModeAccepted, Nudge.ParseModeSpecs, Nudge.SelectModes |
