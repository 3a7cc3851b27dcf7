/**
 * jmol_orbital_browser.py without its window and its Jmol process: the
 * list of orbital files with their Jmol labels (`get_jvxlfiles`) and the
 * controller of which isosurfaces are loaded and shown
 * (`JmolOrbitalControl`).
 *
 * The file-name pattern `re_jvxl_file` is a parameter that returns the
 * (stem, orbital number, suffix) of a name it matches.  The socket is
 * replaced by a log of the commands that would be sent over it.  Python
 * iterates over a set in an order of its own; the loops over sets here
 * pick their elements in any order, and report the order they used.
 */
module JmolOrbitalBrowser {
  import opened Common

  /** The key of one orbital file: the file-name stem, the orbital number and the text after it (`a`, `b`, ...). */
  datatype Key = Key(stem: string, mo: nat, suffix: string)

  /** `JVXLInfo`: the file, the isosurface ID Jmol knows it by, and the line shown in the list. */
  datatype JvxlInfo = JvxlInfo(filename: string, jmolLabel: string, listEntry: string)

  // ---------------------------------------------------------------------
  // Order of keys: Python's comparison of `(stem, mo, suffix)` tuples

  predicate KeyLt(a: Key, b: Key)
  {
    StrLt(a.stem, b.stem) || (a.stem == b.stem && (a.mo < b.mo || (a.mo == b.mo && StrLt(a.suffix, b.suffix))))
  }

  lemma KeyLtIrreflexive(a: Key)
    ensures !KeyLt(a, a)
  {
    StrLtIrreflexive(a.stem);
    StrLtIrreflexive(a.suffix);
  }

  lemma KeyLtTransitive(a: Key, b: Key, c: Key)
    requires KeyLt(a, b) && KeyLt(b, c)
    ensures KeyLt(a, c)
  {
    StrLtIrreflexive(a.stem);
    StrLtIrreflexive(b.stem);
    if StrLt(a.stem, b.stem) && StrLt(b.stem, c.stem) {
      StrLtTransitive(a.stem, b.stem, c.stem);
    }
    if a.stem == b.stem == c.stem && a.mo == b.mo == c.mo {
      StrLtTransitive(a.suffix, b.suffix, c.suffix);
    }
  }

  /** Any two distinct keys are ordered one way or the other. */
  lemma KeyLtTotal(a: Key, b: Key)
    ensures a == b || KeyLt(a, b) || KeyLt(b, a)
  {
    StrLtTotal(a.stem, b.stem);
    StrLtTotal(a.suffix, b.suffix);
  }

  predicate KeysSorted(ks: seq<Key>)
  {
    forall i, j :: 0 <= i < j < |ks| ==> KeyLt(ks[i], ks[j])
  }

  /** `k` is the smallest key of `ks`. */
  predicate Least(k: Key, ks: set<Key>)
  {
    k in ks && forall j :: j in ks && j != k ==> KeyLt(k, j)
  }

  /** Every non-empty set of keys has a smallest key. */
  lemma {:induction false} LeastExists(ks: set<Key>)
    requires ks != {}
    ensures exists k :: Least(k, ks)
    decreases |ks|
  {
    var x :| x in ks;
    if ks != {x} {
      LeastExists(ks - {x});
      var m :| Least(m, ks - {x});
      KeyLtTotal(x, m);
      if KeyLt(x, m) {
        forall j | j in ks && j != x
          ensures KeyLt(x, j)
        {
          if j != m { KeyLtTransitive(x, m, j); }
        }
        assert Least(x, ks);
      } else {
        assert Least(m, ks);
      }
    } else {
      assert Least(x, ks);
    }
  }

  /** `sorted(keys)`: the keys in increasing order, each once, by repeatedly taking the smallest one left. */
  method SortKeys(ks: set<Key>) returns (s: seq<Key>)
    ensures KeysSorted(s) && |s| == |ks|
    ensures forall k :: k in s <==> k in ks
  {
    s := [];
    var rest := ks;
    while rest != {}
      invariant rest <= ks
      invariant KeysSorted(s) && |s| + |rest| == |ks|
      invariant forall k :: k in s <==> k in ks && k !in rest
      invariant forall i, k :: 0 <= i < |s| && k in rest ==> KeyLt(s[i], k)
      decreases |rest|
    {
      LeastExists(rest);
      var k :| Least(k, rest);
      s := s + [k];
      rest := rest - {k};
    }
  }

  // ---------------------------------------------------------------------
  // get_jvxlfiles: the specification

  /** `[f for f in os.listdir() if f.endswith('.jvxl')]`: the listed names with that ending, in listing order. */
  function JvxlNames(entries: seq<string>): (r: seq<string>)
    ensures forall f :: f in r <==> f in entries && EndsWith(f, ".jvxl")
  {
    if entries == [] then []
    else
      var rest := JvxlNames(entries[..|entries| - 1]);
      var f := entries[|entries| - 1];
      assert entries == entries[..|entries| - 1] + [f];
      if EndsWith(f, ".jvxl") then rest + [f] else rest
  }

  /**
   * `jvxl_dict` after the loop over `names`: each key maps to the last
   * name that has it; a name the pattern does not match raises ValueError.
   */
  function FileMap(names: seq<string>, extract: string -> Option<Key>): (r: Result<map<Key, string>>)
  {
    if names == [] then Ok(map[])
    else
      var m := FileMap(names[..|names| - 1], extract);
      var k := extract(names[|names| - 1]);
      if m.Err? then m
      else if k.None? then Err(ValueError)
      else Ok(m.value[k.value := names[|names| - 1]])
  }

  /** Name j is the last of `names` that the pattern gives key `k`. */
  ghost predicate LastWithKey(names: seq<string>, extract: string -> Option<Key>, k: Key, j: nat)
  {
    j < |names| && extract(names[j]) == Some(k) &&
    forall j' :: j < j' < |names| ==> extract(names[j']) != Some(k)
  }

  /**
   * The map is built exactly when every name matches, and then it has one
   * entry per distinct key, holding the last name with that key.
   */
  lemma FileMapSpec(names: seq<string>, extract: string -> Option<Key>)
    ensures FileMap(names, extract).Ok? <==> forall j :: 0 <= j < |names| ==> extract(names[j]).Some?
    ensures FileMap(names, extract).Err? ==> FileMap(names, extract).error == ValueError
    ensures FileMap(names, extract).Ok? ==>
              var m := FileMap(names, extract).value;
              (forall k :: k in m <==> exists j :: 0 <= j < |names| && extract(names[j]) == Some(k)) &&
              (forall j: nat, k :: LastWithKey(names, extract, k, j) ==> k in m && m[k] == names[j])
  {
    FileMapOk(names, extract);
    if FileMap(names, extract).Ok? {
      FileMapKeys(names, extract);
      FileMapLast(names, extract);
    }
  }

  /** The map is built exactly when every name matches; otherwise the error is ValueError. */
  lemma {:induction false} FileMapOk(names: seq<string>, extract: string -> Option<Key>)
    ensures FileMap(names, extract).Ok? <==> forall j :: 0 <= j < |names| ==> extract(names[j]).Some?
    ensures FileMap(names, extract).Err? ==> FileMap(names, extract).error == ValueError
  {
    if names != [] {
      var init := names[..|names| - 1];
      FileMapOk(init, extract);
      assert forall j :: 0 <= j < |init| ==> init[j] == names[j];
    }
  }

  /** The keys of the map are the keys of the names. */
  lemma {:induction false} FileMapKeys(names: seq<string>, extract: string -> Option<Key>)
    requires FileMap(names, extract).Ok?
    ensures forall k :: k in FileMap(names, extract).value <==> exists j :: 0 <= j < |names| && extract(names[j]) == Some(k)
  {
    if names != [] {
      var init := names[..|names| - 1];
      var last := |names| - 1;
      FileMapKeys(init, extract);
      var m := FileMap(names, extract).value;
      var k := extract(names[last]).value;
      forall x
        ensures x in m <==> exists j :: 0 <= j < |names| && extract(names[j]) == Some(x)
      {
        if x in m && x != k {
          var j :| 0 <= j < |init| && extract(init[j]) == Some(x);
          assert extract(names[j]) == Some(x);
        }
        if exists j :: 0 <= j < |names| && extract(names[j]) == Some(x) {
          var j :| 0 <= j < |names| && extract(names[j]) == Some(x);
          if j < last {
            assert extract(init[j]) == Some(x);
          }
        }
      }
    }
  }

  /** Each key holds the last name that has it. */
  lemma {:induction false} FileMapLast(names: seq<string>, extract: string -> Option<Key>)
    requires FileMap(names, extract).Ok?
    ensures forall j: nat, k :: LastWithKey(names, extract, k, j) ==>
              k in FileMap(names, extract).value && FileMap(names, extract).value[k] == names[j]
  {
    if names != [] {
      var init := names[..|names| - 1];
      var last := |names| - 1;
      FileMapLast(init, extract);
      var m := FileMap(names, extract).value;
      forall j: nat, x | LastWithKey(names, extract, x, j)
        ensures x in m && m[x] == names[j]
      {
        if j < last {
          assert LastWithKey(init, extract, x, j);
        }
      }
    }
  }

  /** The stems of a set of keys (`stems` in the source). */
  function StemsOf(ks: set<Key>): set<string>
  {
    set k | k in ks :: k.stem
  }

  /** The suffixes of a set of keys (`suffixes` in the source). */
  function SuffixesOf(ks: set<Key>): set<string>
  {
    set k | k in ks :: k.suffix
  }

  /** `stem_map`: every stem gets its own number below the number of stems. */
  ghost predicate StemNumbering(index: map<string, nat>, stems: set<string>)
  {
    index.Keys == stems &&
    (forall s :: s in index ==> index[s] < |stems|) &&
    (forall s, t :: s in index && t in index && s != t ==> index[s] != index[t])
  }

  /**
   * The entry of key `k` for file `file` under the three labelling
   * schemes: one stem and one suffix, one stem and several suffixes, and
   * several stems (the stem's number then prefixes the label).
   */
  function Entry(k: Key, file: string, oneStem: bool, oneSuffix: bool, stemIndex: map<string, nat>): (r: JvxlInfo)
    requires !oneStem ==> k.stem in stemIndex
    ensures r.filename == file
  {
    var n := NatToString(k.mo);
    if oneStem && oneSuffix then JvxlInfo(file, "mo" + n, "MO " + n)
    else if oneStem then JvxlInfo(file, "mo" + n + k.suffix, "MO " + n + k.suffix)
    else JvxlInfo(file, "os" + NatToString(stemIndex[k.stem]) + "mo" + n + k.suffix, k.stem + " MO " + n + k.suffix)
  }

  /** The entries of the keys in `keys`, in order. */
  ghost predicate EntriesOf(infos: seq<JvxlInfo>, keys: seq<Key>, m: map<Key, string>, stemIndex: map<string, nat>)
  {
    var oneStem := |StemsOf(m.Keys)| == 1;
    var oneSuffix := |SuffixesOf(m.Keys)| == 1;
    |infos| == |keys| &&
    forall i :: 0 <= i < |keys| ==>
      keys[i] in m && (!oneStem ==> keys[i].stem in stemIndex) &&
      infos[i] == Entry(keys[i], m[keys[i]], oneStem, oneSuffix, stemIndex)
  }

  // ---------------------------------------------------------------------
  // Jmol labels are distinct

  predicate IsDigit(c: char)
  {
    '0' <= c <= '9'
  }

  /** Text that does not start with a decimal digit.  The pattern's greedy `(\d+)` leaves every suffix so. */
  predicate NoLeadingDigit(s: string)
  {
    s == [] || !IsDigit(s[0])
  }

  predicate AllDigits(s: string)
  {
    forall i :: 0 <= i < |s| ==> IsDigit(s[i])
  }

  /** A run of digits followed by text that does not start with one is read back unambiguously. */
  lemma DigitsSplit(d1: string, r1: string, d2: string, r2: string)
    requires AllDigits(d1) && AllDigits(d2) && NoLeadingDigit(r1) && NoLeadingDigit(r2)
    requires d1 + r1 == d2 + r2
    ensures d1 == d2 && r1 == r2
  {
    var s := d1 + r1;
    assert forall i :: 0 <= i < |d1| ==> IsDigit(s[i]);
    assert forall i :: 0 <= i < |d2| ==> IsDigit(s[i]);
    assert |d1| < |s| ==> !IsDigit(s[|d1|]);
    assert |d2| < |s| ==> !IsDigit(s[|d2|]);
    if |d1| != |d2| {
      assert false;
    }
    assert d1 == s[..|d1|] == d2;
    assert r1 == s[|d1|..] == r2;
  }

  lemma NatDigits(n: nat)
    ensures AllDigits(NatToString(n))
  {
  }

  lemma DropPrefix(p: string, t: string)
    ensures (p + t)[|p|..] == t
  {
  }

  /** `mo<digits><suffix>` determines the digits and the suffix. */
  lemma MoSplit(n1: string, s1: string, n2: string, s2: string)
    requires AllDigits(n1) && AllDigits(n2) && NoLeadingDigit(s1) && NoLeadingDigit(s2)
    requires "mo" + n1 + s1 == "mo" + n2 + s2
    ensures n1 == n2 && s1 == s2
  {
    assert "mo" + n1 + s1 == "mo" + (n1 + s1);
    assert "mo" + n2 + s2 == "mo" + (n2 + s2);
    DropPrefix("mo", n1 + s1);
    DropPrefix("mo", n2 + s2);
    DigitsSplit(n1, s1, n2, s2);
  }

  /** `mo<n><suffix>` determines the orbital number and the suffix. */
  lemma MoLabelInjective(m1: nat, s1: string, m2: nat, s2: string)
    requires NoLeadingDigit(s1) && NoLeadingDigit(s2)
    requires "mo" + NatToString(m1) + s1 == "mo" + NatToString(m2) + s2
    ensures m1 == m2 && s1 == s2
  {
    NatDigits(m1);
    NatDigits(m2);
    MoSplit(NatToString(m1), s1, NatToString(m2), s2);
    NatToStringInjective(m1, m2);
  }

  /** `os<digits>mo<digits><suffix>` determines both runs of digits and the suffix. */
  lemma OsSplit(d1: string, n1: string, s1: string, d2: string, n2: string, s2: string)
    requires AllDigits(d1) && AllDigits(d2) && AllDigits(n1) && AllDigits(n2)
    requires NoLeadingDigit(s1) && NoLeadingDigit(s2)
    requires "os" + d1 + "mo" + n1 + s1 == "os" + d2 + "mo" + n2 + s2
    ensures d1 == d2 && n1 == n2 && s1 == s2
  {
    var t1, t2 := "mo" + n1 + s1, "mo" + n2 + s2;
    assert "os" + d1 + "mo" + n1 + s1 == "os" + (d1 + t1);
    assert "os" + d2 + "mo" + n2 + s2 == "os" + (d2 + t2);
    DropPrefix("os", d1 + t1);
    DropPrefix("os", d2 + t2);
    assert NoLeadingDigit(t1) && NoLeadingDigit(t2);
    DigitsSplit(d1, t1, d2, t2);
    MoSplit(n1, s1, n2, s2);
  }

  /** `os<i>mo<n><suffix>` determines the stem number, the orbital number and the suffix. */
  lemma OsLabelInjective(i1: nat, m1: nat, s1: string, i2: nat, m2: nat, s2: string)
    requires NoLeadingDigit(s1) && NoLeadingDigit(s2)
    requires "os" + NatToString(i1) + "mo" + NatToString(m1) + s1 == "os" + NatToString(i2) + "mo" + NatToString(m2) + s2
    ensures i1 == i2 && m1 == m2 && s1 == s2
  {
    NatDigits(i1);
    NatDigits(i2);
    NatDigits(m1);
    NatDigits(m2);
    OsSplit(NatToString(i1), NatToString(m1), s1, NatToString(i2), NatToString(m2), s2);
    NatToStringInjective(i1, i2);
    NatToStringInjective(m1, m2);
  }

  /** Two keys of one map get distinct Jmol labels, whichever scheme applies, when no suffix starts with a digit. */
  lemma EntryLabelsDistinct(a: Key, b: Key, m: map<Key, string>, stemIndex: map<string, nat>)
    requires a in m && b in m && a != b
    requires NoLeadingDigit(a.suffix) && NoLeadingDigit(b.suffix)
    requires |StemsOf(m.Keys)| != 1 ==> StemNumbering(stemIndex, StemsOf(m.Keys))
    ensures var oneStem := |StemsOf(m.Keys)| == 1;
            var oneSuffix := |SuffixesOf(m.Keys)| == 1;
            Entry(a, m[a], oneStem, oneSuffix, stemIndex).jmolLabel != Entry(b, m[b], oneStem, oneSuffix, stemIndex).jmolLabel
  {
    var stems, sufs := StemsOf(m.Keys), SuffixesOf(m.Keys);
    assert a.stem in stems && b.stem in stems;
    assert a.suffix in sufs && b.suffix in sufs;
    var la := Entry(a, m[a], |stems| == 1, |sufs| == 1, stemIndex).jmolLabel;
    var lb := Entry(b, m[b], |stems| == 1, |sufs| == 1, stemIndex).jmolLabel;
    if |stems| == 1 {
      OneElement(stems, a.stem, b.stem);
      if |sufs| == 1 {
        OneElement(sufs, a.suffix, b.suffix);
        if la == lb {
          assert la == "mo" + NatToString(a.mo) + "" && lb == "mo" + NatToString(b.mo) + "";
          MoLabelInjective(a.mo, "", b.mo, "");
        }
      } else if la == lb {
        MoLabelInjective(a.mo, a.suffix, b.mo, b.suffix);
      }
    } else if la == lb {
      OsLabelInjective(stemIndex[a.stem], a.mo, a.suffix, stemIndex[b.stem], b.mo, b.suffix);
    }
  }

  /** Under the labelling of `EntriesOf`, entries of distinct sorted keys have distinct Jmol labels. */
  lemma EntriesLabelsDistinct(infos: seq<JvxlInfo>, keys: seq<Key>, m: map<Key, string>, stemIndex: map<string, nat>)
    requires KeysSorted(keys) && EntriesOf(infos, keys, m, stemIndex)
    requires |StemsOf(m.Keys)| != 1 ==> StemNumbering(stemIndex, StemsOf(m.Keys))
    requires forall k :: k in m ==> NoLeadingDigit(k.suffix)
    ensures forall i, j :: 0 <= i < j < |infos| ==> infos[i].jmolLabel != infos[j].jmolLabel
  {
    forall i, j | 0 <= i < j < |infos|
      ensures infos[i].jmolLabel != infos[j].jmolLabel
    {
      KeyLtIrreflexive(keys[i]);
      EntryLabelsDistinct(keys[i], keys[j], m, stemIndex);
    }
  }

  lemma OneElement<T>(s: set<T>, x: T, y: T)
    requires |s| == 1 && x in s && y in s
    ensures x == y
  {
    var z :| z in s;
    assert |s - {z}| == 0;
    assert x !in s - {z} && y !in s - {z};
  }

  // ---------------------------------------------------------------------
  // get_jvxlfiles: the method

  /**
   * `enumerate(stems)` into `stem_map`: the stems are numbered 0, 1, ...
   * in the set's iteration order, which is Python's own.
   */
  method NumberStems(stems: set<string>) returns (index: map<string, nat>)
    ensures StemNumbering(index, stems)
  {
    index := map[];
    var rest := stems;
    var i: nat := 0;
    while rest != {}
      invariant rest <= stems && index.Keys == stems - rest && i + |rest| == |stems|
      invariant forall s :: s in index ==> index[s] < i
      invariant forall s, t :: s in index && t in index && s != t ==> index[s] != index[t]
      decreases |rest|
    {
      var s :| s in rest;
      index := index[s := i];
      rest := rest - {s};
      i := i + 1;
    }
    assert index.Keys == stems;
  }

  /**
   * The loop of `get_jvxlfiles` that builds the map of keys to names and
   * the sets of stems and suffixes; a name the regex does not match
   * raises ValueError.
   */
  method CollectKeys(names: seq<string>, extract: string -> Option<Key>)
      returns (r: Result<map<Key, string>>, stems: set<string>, suffixes: set<string>)
    ensures r == FileMap(names, extract)
    ensures r.Ok? ==> stems == StemsOf(r.value.Keys) && suffixes == SuffixesOf(r.value.Keys)
  {
    var dict: map<Key, string> := map[];
    stems, suffixes := {}, {};
    for j := 0 to |names|
      invariant FileMap(names[..j], extract) == Ok(dict)
      invariant stems == StemsOf(dict.Keys) && suffixes == SuffixesOf(dict.Keys)
    {
      assert names[..j + 1][..j] == names[..j];
      var k := extract(names[j]);
      if k.None? {
        FileMapOk(names, extract);
        return Err(ValueError), stems, suffixes;
      }
      stems := stems + {k.value.stem};
      suffixes := suffixes + {k.value.suffix};
      dict := dict[k.value := names[j]];
    }
    assert names[..|names|] == names;
    r := Ok(dict);
  }

  /**
   * The rest of `get_jvxlfiles`: the keys in sorted order, the stem
   * numbering (several stems only) and one entry per key.  The labels are
   * distinct when no suffix starts with a digit.
   */
  method LabelFiles(dict: map<Key, string>, stems: set<string>, suffixes: set<string>)
      returns (infos: seq<JvxlInfo>, keys: seq<Key>, stemIndex: map<string, nat>)
    requires stems == StemsOf(dict.Keys) && suffixes == SuffixesOf(dict.Keys)
    ensures KeysSorted(keys) && (forall k :: k in keys <==> k in dict)
    ensures |stems| != 1 ==> StemNumbering(stemIndex, stems)
    ensures EntriesOf(infos, keys, dict, stemIndex)
    ensures (forall k :: k in dict ==> NoLeadingDigit(k.suffix)) ==>
              forall i, j :: 0 <= i < j < |infos| ==> infos[i].jmolLabel != infos[j].jmolLabel
  {
    keys := SortKeys(dict.Keys);
    var oneStem, oneSuffix := |stems| == 1, |suffixes| == 1;
    stemIndex := map[];
    if !oneStem {
      stemIndex := NumberStems(stems);
    }
    infos := [];
    for i := 0 to |keys|
      invariant EntriesOf(infos, keys[..i], dict, stemIndex)
    {
      infos := infos + [Entry(keys[i], dict[keys[i]], oneStem, oneSuffix, stemIndex)];
    }
    assert keys[..|keys|] == keys;
    if forall k :: k in dict ==> NoLeadingDigit(k.suffix) {
      EntriesLabelsDistinct(infos, keys, dict, stemIndex);
    }
  }

  /**
   * `get_jvxlfiles(filenames)` up to the assignment of `self.jvxl_files`:
   * the names given, or the `.jvxl` names of the directory listing
   * `entries` when none are given.  It fails with ValueError exactly when
   * some name has no key.
   */
  method JvxlFiles(filenames: seq<string>, entries: seq<string>, extract: string -> Option<Key>)
      returns (r: Result<seq<JvxlInfo>>, keys: seq<Key>, stemIndex: map<string, nat>)
    ensures var names := if filenames == [] then JvxlNames(entries) else filenames;
            (r.Err? <==> exists j :: 0 <= j < |names| && extract(names[j]).None?) &&
            (r.Err? ==> r.error == ValueError)
    ensures var names := if filenames == [] then JvxlNames(entries) else filenames;
            r.Ok? ==>
               FileMap(names, extract).Ok? &&
               var m := FileMap(names, extract).value;
               KeysSorted(keys) && (forall k :: k in keys <==> k in m) &&
               (|StemsOf(m.Keys)| != 1 ==> StemNumbering(stemIndex, StemsOf(m.Keys))) &&
               EntriesOf(r.value, keys, m, stemIndex) &&
               ((forall k :: k in m ==> NoLeadingDigit(k.suffix)) ==>
                  forall i, j :: 0 <= i < j < |r.value| ==> r.value[i].jmolLabel != r.value[j].jmolLabel)
  {
    var names := if filenames == [] then JvxlNames(entries) else filenames;
    FileMapOk(names, extract);
    var dict, stems, suffixes := CollectKeys(names, extract);
    if dict.Err? {
      return Err(dict.error), [], map[];
    }
    var infos;
    infos, keys, stemIndex := LabelFiles(dict.value, stems, suffixes);
    r := Ok(infos);
  }

  // ---------------------------------------------------------------------
  // The commands sent to Jmol

  datatype Action = Load | Show | Hide

  /** `isosurface ID <label> <file>`, `isosurface <label> on` and `isosurface <label> off`. */
  function Command(a: Action, info: JvxlInfo): (c: string)
    ensures StartsWith(c, "isosurface ")
  {
    match a
    case Load => "isosurface ID " + info.jmolLabel + " " + info.filename
    case Show => "isosurface " + info.jmolLabel + " on"
    case Hide => "isosurface " + info.jmolLabel + " off"
  }

  /** The next element of a set in Python's iteration order, which the model leaves open. */
  method Pick(s: set<int>) returns (x: int)
    requires s != {}
    ensures x in s
  {
    if forall y :: y !in s {
      assert false;
    }
    x :| x in s;
  }

  predicate IndicesIn(indices: set<int>, files: seq<JvxlInfo>)
  {
    forall i :: i in indices ==> 0 <= i < |files|
  }

  /** Every position in `order` is a position of `files`. */
  predicate Within(order: seq<int>, files: seq<JvxlInfo>)
  {
    forall i :: 0 <= i < |order| ==> 0 <= order[i] < |files|
  }

  /** The commands for the entries `order` names, in that order. */
  function Commands(a: Action, files: seq<JvxlInfo>, order: seq<int>): (cs: seq<string>)
    requires Within(order, files)
    ensures |cs| == |order|
  {
    if order == [] then []
    else Commands(a, files, order[..|order| - 1]) + [Command(a, files[order[|order| - 1]])]
  }

  /** `order` lists the elements of `s`, each once. */
  ghost predicate Enumerates(order: seq<int>, s: set<int>)
  {
    multiset(order) == multiset(s)
  }

  /** An enumeration has exactly the elements of the set. */
  lemma EnumeratesMembers(order: seq<int>, s: set<int>)
    requires Enumerates(order, s)
    ensures forall x :: x in order <==> x in s
  {
    assert forall x :: x in order <==> x in multiset(order);
  }

  /** An enumeration has no repeats. */
  lemma EnumeratesDistinct(order: seq<int>, s: set<int>)
    requires Enumerates(order, s)
    ensures forall i, j :: 0 <= i < j < |order| ==> order[i] != order[j]
  {
    forall i, j | 0 <= i < j < |order|
      ensures order[i] != order[j]
    {
      assert order == order[..j] + order[j..];
      assert order[..j][i] == order[i] && order[j..][0] == order[j];
      assert multiset(order)[order[i]] == multiset(order[..j])[order[i]] + multiset(order[j..])[order[i]];
    }
  }

  /**
   * One more index `x` of those not yet handled, handled after the others:
   * the enumeration, the bounds and the commands sent grow by that index.
   */
  lemma Step(a: Action, files: seq<JvxlInfo>, sent: seq<string>, order: seq<int>,
             indices: set<int>, done: set<int>, rest: set<int>, x: int)
    requires IndicesIn(indices, files) && done <= indices && rest == indices - done && x in rest
    requires Enumerates(order, done) && Within(order, files)
    ensures done + {x} <= indices && rest - {x} == indices - (done + {x}) && |rest - {x}| < |rest|
    ensures Enumerates(order + [x], done + {x}) && Within(order + [x], files)
    ensures sent + Commands(a, files, order + [x]) == sent + Commands(a, files, order) + [Command(a, files[x])]
  {
    assert (order + [x])[..|order|] == order;
    assert multiset(done + {x}) == multiset(done) + multiset{x};
  }

  /**
   * `for index in indices:` sending one command per index: the indices in
   * the set's iteration order, and the commands in that order.
   */
  method SendEach(a: Action, files: seq<JvxlInfo>, indices: set<int>) returns (order: seq<int>, cmds: seq<string>)
    requires IndicesIn(indices, files)
    ensures Enumerates(order, indices) && Within(order, files) && cmds == Commands(a, files, order)
  {
    order, cmds := [], [];
    var rest := indices;
    ghost var done: set<int> := {};
    while rest != {}
      invariant done <= indices && rest == indices - done
      invariant Enumerates(order, done) && Within(order, files)
      invariant cmds == Commands(a, files, order)
      decreases |rest|
    {
      var index := Pick(rest);
      Step(a, files, [], order, indices, done, rest, index);
      cmds := cmds + [Command(a, files[index])];
      order := order + [index];
      done := done + {index};
      rest := rest - {index};
    }
    assert done == indices;
  }

  /** `jmol_send_pipe`: a script gets the terminator ` \n` unless it already ends with it. */
  function PipeScript(script: string): (r: string)
    ensures EndsWith(r, " \n")
    ensures EndsWith(script, " \n") ==> r == script
    ensures !EndsWith(script, " \n") ==> r == script + " \n"
  {
    if EndsWith(script, " \n") then script else script + " \n"
  }

  /** Terminating twice changes nothing more. */
  lemma PipeScriptIdempotent(script: string)
    ensures PipeScript(PipeScript(script)) == PipeScript(script)
  {
  }

  /** `run_jmol`'s `SYNC -<port> \n` is sent as it is. */
  lemma SyncScriptUnchanged(port: nat)
    ensures var s := "SYNC -" + NatToString(port) + " \n"; PipeScript(s) == s
  {
    var s := "SYNC -" + NatToString(port) + " \n";
    assert s[|s| - 2..] == " \n";
  }

  // ---------------------------------------------------------------------
  // JmolOrbitalControl

  class JmolOrbitalControl {
    /** `jvxl_files`: the entries of the orbital list. */
    var jvxlFiles: seq<JvxlInfo>
    /** `jvxl_loaded` and `jvxl_displayed`: list positions. */
    var loaded: set<int>
    var displayed: set<int>
    /** The commands sent over the socket, oldest first. */
    var sent: seq<string>

    /** Only loaded isosurfaces are displayed. */
    ghost predicate Valid()
      reads this
    {
      displayed <= loaded
    }

    /** `JmolOrbitalControl()`: nothing listed, loaded or displayed yet. */
    constructor ()
      ensures jvxlFiles == [] && loaded == {} && displayed == {} && sent == []
      ensures Valid()
    {
      jvxlFiles, loaded, displayed, sent := [], {}, {}, [];
    }

    /** `get_jvxlfiles`: on success the list is replaced; on ValueError nothing changes. */
    method GetJvxlFiles(filenames: seq<string>, entries: seq<string>, extract: string -> Option<Key>)
        returns (e: Option<Error>, ghost keys: seq<Key>, ghost stemIndex: map<string, nat>)
      modifies this`jvxlFiles
      ensures var names := if filenames == [] then JvxlNames(entries) else filenames;
              (e.Some? <==> exists j :: 0 <= j < |names| && extract(names[j]).None?) &&
              (e.Some? ==> e.value == ValueError && jvxlFiles == old(jvxlFiles)) &&
              (e.None? ==>
                 FileMap(names, extract).Ok? &&
                 var m := FileMap(names, extract).value;
                 KeysSorted(keys) && (forall k :: k in keys <==> k in m) &&
                 (|StemsOf(m.Keys)| != 1 ==> StemNumbering(stemIndex, StemsOf(m.Keys))) &&
                 EntriesOf(jvxlFiles, keys, m, stemIndex))
    {
      var r;
      r, keys, stemIndex := JvxlFiles(filenames, entries, extract);
      if r.Err? {
        return Some(r.error), keys, stemIndex;
      }
      jvxlFiles := r.value;
      e := None;
    }

    /**
     * `load_mos`: each index's file is loaded and shown (`isosurface ID ...`).
     * The set additions do not depend on the commands, so they are made
     * once, after the commands have been sent.
     */
    method LoadMos(indices: set<int>) returns (ghost order: seq<int>)
      requires IndicesIn(indices, jvxlFiles)
      modifies this`loaded, this`displayed, this`sent
      ensures loaded == old(loaded) + indices && displayed == old(displayed) + indices
      ensures Enumerates(order, indices) && Within(order, jvxlFiles) && sent == old(sent) + Commands(Load, jvxlFiles, order)
      ensures old(Valid()) ==> Valid()
    {
      var cmds;
      order, cmds := SendEach(Load, jvxlFiles, indices);
      sent := sent + cmds;
      loaded := loaded + indices;
      displayed := displayed + indices;
    }

    /** `show_mos`: each index is shown (`isosurface ... on`); what is loaded does not change. */
    method ShowMos(indices: set<int>) returns (ghost order: seq<int>)
      requires IndicesIn(indices, jvxlFiles)
      modifies this`displayed, this`sent
      ensures displayed == old(displayed) + indices
      ensures Enumerates(order, indices) && Within(order, jvxlFiles) && sent == old(sent) + Commands(Show, jvxlFiles, order)
      ensures old(Valid()) && indices <= loaded ==> Valid()
    {
      var cmds;
      order, cmds := SendEach(Show, jvxlFiles, indices);
      sent := sent + cmds;
      displayed := displayed + indices;
    }

    /**
     * `hide_mos`: each index is hidden (`isosurface ... off`) and removed
     * from `displayed`.  `set.remove` raises KeyError at the first index
     * that is not displayed, after its command was sent; the indices
     * handled before it stay hidden.
     */
    method HideMos(indices: set<int>) returns (e: Option<Error>, ghost order: seq<int>)
      requires IndicesIn(indices, jvxlFiles)
      modifies this`displayed, this`sent
      ensures e.None? <==> indices <= old(displayed)
      ensures e.Some? ==> e.value == KeyError
      ensures Within(order, jvxlFiles) && forall x :: x in order ==> x in indices
      ensures sent == old(sent) + Commands(Hide, jvxlFiles, order)
      ensures e.None? ==> Enumerates(order, indices) && displayed == old(displayed) - indices
      ensures e.Some? ==> order != [] && order[|order| - 1] !in old(displayed) &&
                          forall x :: x in displayed <==> x in old(displayed) && x !in order
      ensures e.Some? ==> (forall i :: 0 <= i < |order| - 1 ==> order[i] in old(displayed)) &&
                          forall i, j :: 0 <= i < j < |order| ==> order[i] != order[j]
      ensures old(Valid()) ==> Valid()
    {
      var shown, out := displayed, sent;
      order := [];
      var rest := indices;
      ghost var done: set<int> := {};
      while rest != {}
        invariant done <= indices && rest == indices - done
        invariant Enumerates(order, done) && Within(order, jvxlFiles)
        invariant done <= old(displayed) && shown == old(displayed) - done
        invariant out == old(sent) + Commands(Hide, jvxlFiles, order)
        decreases |rest|
      {
        var index := Pick(rest);
        Step(Hide, jvxlFiles, old(sent), order, indices, done, rest, index);
        out := out + [Command(Hide, jvxlFiles[index])];
        ghost var before := order;
        order := order + [index];
        if index !in shown {
          EnumeratesMembers(order, done + {index});
          EnumeratesDistinct(order, done + {index});
          EnumeratesMembers(before, done);
          assert forall i :: 0 <= i < |order| - 1 ==> order[i] == before[i];
          displayed, sent := shown, out;
          return Some(KeyError), order;
        }
        shown := shown - {index};
        done := done + {index};
        rest := rest - {index};
      }
      assert done == indices;
      EnumeratesMembers(order, indices);
      displayed, sent := shown, out;
      e := None;
    }

    /**
     * `selection_change(indices)`: hide what is displayed and no longer
     * selected, load what is selected and not yet loaded, then show what is
     * selected and still hidden.  Afterwards exactly the selection is
     * displayed, and everything selected is loaded.
     */
    method SelectionChange(selected: set<int>) returns (ghost hidden: seq<int>, ghost newlyLoaded: seq<int>, ghost shown: seq<int>)
      requires IndicesIn(selected + displayed, jvxlFiles)
      modifies this`loaded, this`displayed, this`sent
      ensures displayed == selected && loaded == old(loaded) + selected && Valid()
      ensures Enumerates(hidden, old(displayed) - selected)
      ensures Enumerates(newlyLoaded, selected - old(loaded))
      ensures Enumerates(shown, (selected * old(loaded)) - old(displayed))
      ensures Within(hidden, jvxlFiles) && Within(newlyLoaded, jvxlFiles) && Within(shown, jvxlFiles)
      ensures sent == old(sent) + Commands(Hide, jvxlFiles, hidden) + Commands(Load, jvxlFiles, newlyLoaded)
                                + Commands(Show, jvxlFiles, shown)
    {
      var e;
      e, hidden := HideMos(displayed - selected);
      assert e.None?;
      newlyLoaded := LoadMos(selected - loaded);
      shown := ShowMos(selected - displayed);
    }

    /** `deselect_all`: every displayed isosurface is hidden; nothing stays displayed. */
    method DeselectAll() returns (ghost hidden: seq<int>)
      requires IndicesIn(displayed, jvxlFiles)
      modifies this`displayed, this`sent
      ensures displayed == {} && Enumerates(hidden, old(displayed)) && Within(hidden, jvxlFiles)
      ensures sent == old(sent) + Commands(Hide, jvxlFiles, hidden)
      ensures old(Valid()) ==> Valid()
    {
      var e;
      e, hidden := HideMos(displayed);
    }
  }
}
