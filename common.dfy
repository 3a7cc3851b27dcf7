/**
 * Values and text helpers shared by the models of the four scripts:
 * optional values, results carrying the kind of Python exception the
 * scripts would raise, Python's whitespace `str.split()`, `str.strip()`,
 * `str.split(sep)`, prefix/suffix tests and decimal formatting of integers.
 *
 * Conversions from text to numbers (`int(...)`, `float(...)`) are not
 * modelled: they are given to the operations that need them as a `Conv`
 * record of partial functions.
 */
module Common {

  datatype Option<+T> = None | Some(value: T)

  /** The Python exception a script would raise at the point the model stops. */
  datatype Error =
    | StopIteration      // `next(...)` on an exhausted line iterator
    | ValueError         // failed number conversion, bad unpacking, bad numpy shape
    | IndexError         // a missing field or an index past the end
    | KeyError           // `set.remove` of an absent element
    | NotImplementedError
    | UnboundLocalError  // a loop variable read after a loop that never ran
    | AttributeError     // an attribute read before any section assigned it

  datatype Result<+T> = Ok(value: T) | Err(error: Error)

  /** Text-to-number conversion as Python's `int(...)` and `float(...)` do it;
      `None` is the `ValueError` they raise. */
  datatype Conv = Conv(toInt: string -> Option<int>, toReal: string -> Option<real>)

  function Min(a: int, b: int): int { if a < b then a else b }
  function Max(a: int, b: int): int { if a < b then b else a }

  /** Characters for which Python's `str.isspace()` holds. */
  predicate IsSpace(c: char)
  {
    ('\t' <= c <= '\r') || ('\U{1c}' <= c <= ' ') || c == '\U{85}' || c == '\U{a0}' ||
    c == '\U{1680}' || ('\U{2000}' <= c <= '\U{200a}') || c == '\U{2028}' || c == '\U{2029}' ||
    c == '\U{202f}' || c == '\U{205f}' || c == '\U{3000}'
  }

  predicate IsBlank(s: string)
  {
    forall i :: 0 <= i < |s| ==> IsSpace(s[i])
  }

  predicate StartsWith(s: string, prefix: string)
  {
    |prefix| <= |s| && s[..|prefix|] == prefix
  }

  predicate EndsWith(s: string, suffix: string)
  {
    |suffix| <= |s| && s[|s| - |suffix|..] == suffix
  }

  /** The longest prefix of `s` without whitespace. */
  function Word(s: string): (w: string)
    ensures |w| <= |s|
    ensures s != [] && !IsSpace(s[0]) ==> |w| >= 1
  {
    if s == [] || IsSpace(s[0]) then [] else [s[0]] + Word(s[1..])
  }

  lemma {:induction false} WordSpec(s: string)
    ensures var w := Word(s);
            w == s[..|w|] && (forall i :: 0 <= i < |w| ==> !IsSpace(w[i])) && (|w| < |s| ==> IsSpace(s[|w|]))
  {
    if s != [] && !IsSpace(s[0]) {
      WordSpec(s[1..]);
    }
  }

  /** Python's `s.split()`: the maximal runs of non-whitespace characters, in order. */
  function Fields(s: string): (r: seq<string>)
    decreases |s|
  {
    if s == [] then []
    else if IsSpace(s[0]) then Fields(s[1..])
    else var w := Word(s); [w] + Fields(s[|w|..])
  }

  /** Every field is a non-empty run without whitespace. */
  lemma {:induction false} FieldsSpec(s: string)
    ensures forall i :: 0 <= i < |Fields(s)| ==> Fields(s)[i] != [] && forall j :: 0 <= j < |Fields(s)[i]| ==> !IsSpace(Fields(s)[i][j])
    decreases |s|
  {
    if s == [] {
    } else if IsSpace(s[0]) {
      FieldsSpec(s[1..]);
    } else {
      var w := Word(s);
      WordSpec(s);
      FieldsSpec(s[|w|..]);
      assert Fields(s) == [w] + Fields(s[|w|..]);
    }
  }

  function TrimLeft(s: string): (r: string)
    ensures |r| <= |s|
  {
    if s != [] && IsSpace(s[0]) then TrimLeft(s[1..]) else s
  }

  function TrimRight(s: string): (r: string)
    ensures |r| <= |s|
  {
    if s != [] && IsSpace(s[|s| - 1]) then TrimRight(s[..|s| - 1]) else s
  }

  lemma {:induction false} TrimLeftSpec(s: string)
    ensures var r := TrimLeft(s);
            r == s[|s| - |r|..] && (r != [] ==> !IsSpace(r[0])) && IsBlank(s[..|s| - |r|])
  {
    if s != [] && IsSpace(s[0]) {
      TrimLeftSpec(s[1..]);
      var r := TrimLeft(s);
      assert s[..|s| - |r|] == [s[0]] + s[1..][..|s| - 1 - |r|];
    }
  }

  lemma {:induction false} TrimRightSpec(s: string)
    ensures var r := TrimRight(s);
            r == s[..|r|] && (r != [] ==> !IsSpace(r[|r| - 1])) && IsBlank(s[|r|..])
  {
    if s != [] && IsSpace(s[|s| - 1]) {
      var s' := s[..|s| - 1];
      TrimRightSpec(s');
      var r := TrimRight(s);
      assert s[|r|..] == s'[|r|..] + [s[|s| - 1]];
    }
  }

  /** Python's `s.strip()`. */
  function Strip(s: string): string
  {
    TrimRight(TrimLeft(s))
  }

  /** `s.strip()` is the middle of `s` between two blank runs, and is empty exactly when `s` is blank. */
  lemma StripSpec(s: string)
    ensures Strip(s) == [] <==> IsBlank(s)
    ensures Strip(s) != [] ==> !IsSpace(Strip(s)[0]) && !IsSpace(Strip(s)[|Strip(s)| - 1])
  {
    var l := TrimLeft(s);
    TrimLeftSpec(s);
    TrimRightSpec(l);
    var r := TrimRight(l);
    if r == [] {
      assert IsBlank(l[0..]);
      assert s == s[..|s| - |l|] + l;
    } else {
      assert r[0] == l[0];
      assert !IsBlank(s) by { assert s[|s| - |l|] == l[0]; }
    }
  }

  /** Python's `s.split(sep)` for a one-character separator: every piece, empty ones included. */
  function SplitOn(s: string, sep: char): (r: seq<string>)
    ensures |r| >= 1
    ensures forall i :: 0 <= i < |r| ==> sep !in r[i]
    decreases |s|
  {
    if s == [] then [[]]
    else if s[0] == sep then [[]] + SplitOn(s[1..], sep)
    else var rest := SplitOn(s[1..], sep); [[s[0]] + rest[0]] + rest[1..]
  }

  /** The pieces joined back with the separator, Python's `sep.join(pieces)`. */
  function Join(pieces: seq<string>, sep: char): string
  {
    if |pieces| == 0 then []
    else if |pieces| == 1 then pieces[0]
    else pieces[0] + [sep] + Join(pieces[1..], sep)
  }

  /** Splitting loses nothing: joining the pieces gives the text back. */
  lemma {:induction false} SplitOnJoin(s: string, sep: char)
    ensures Join(SplitOn(s, sep), sep) == s
    decreases |s|
  {
    if s == [] {
    } else if s[0] == sep {
      SplitOnJoin(s[1..], sep);
      var rest := SplitOn(s[1..], sep);
      assert SplitOn(s, sep) == [[]] + rest;
      assert ([[]] + rest)[1..] == rest;
    } else {
      SplitOnJoin(s[1..], sep);
      var rest := SplitOn(s[1..], sep);
      var r := [[s[0]] + rest[0]] + rest[1..];
      assert SplitOn(s, sep) == r;
      if |rest| == 1 {
        assert Join(r, sep) == [s[0]] + rest[0];
      } else {
        assert r[1..] == rest[1..];
        assert Join(rest, sep) == rest[0] + [sep] + Join(rest[1..], sep);
        assert Join(r, sep) == [s[0]] + rest[0] + [sep] + Join(rest[1..], sep);
      }
      assert s == [s[0]] + s[1..];
    }
  }

  /** Text without the separator is one piece. */
  lemma {:induction false} SplitOnNone(s: string, sep: char)
    requires sep !in s
    ensures SplitOn(s, sep) == [s]
    decreases |s|
  {
    if s != [] {
      assert sep !in s[1..] by { assert forall i :: 0 <= i < |s| - 1 ==> s[1..][i] == s[i + 1]; }
      SplitOnNone(s[1..], sep);
      assert s == [s[0]] + s[1..];
    }
  }

  /** Text that splits into one piece is that piece, and so has no separator. */
  lemma SplitOnSingle(s: string, sep: char)
    ensures |SplitOn(s, sep)| == 1 ==> SplitOn(s, sep) == [s]
  {
    SplitOnJoin(s, sep);
  }

  /** A first piece `a` followed by the separator splits off as `a`. */
  lemma {:induction false} SplitOnAppend(a: string, b: string, sep: char)
    requires sep !in a
    ensures SplitOn(a + [sep] + b, sep) == [a] + SplitOn(b, sep)
    decreases |a|
  {
    var s := a + [sep] + b;
    if a == [] {
      assert s[1..] == b;
    } else {
      assert sep !in a[1..] by { assert forall i :: 0 <= i < |a| - 1 ==> a[1..][i] == a[i + 1]; }
      SplitOnAppend(a[1..], b, sep);
      assert s[1..] == a[1..] + [sep] + b;
      assert [a[0]] + a[1..] == a;
    }
  }

  lemma AppendAssoc<T>(a: seq<T>, b: seq<T>, c: seq<T>)
    ensures a + b + c == a + (b + c)
  {
  }

  lemma AppendEmpty<T>(s: seq<T>)
    ensures s + [] == s
  {
  }

  lemma EmptyAppend<T>(s: seq<T>)
    ensures [] + s == s
  {
  }

  lemma PrefixOfAppend<T>(a: seq<T>, b: seq<T>, n: nat)
    requires n <= |a|
    ensures (a + b)[..n] == a[..n]
  {
  }

  /** A slice of a prefix is a slice of the whole. */
  lemma SliceOfPrefix<T>(s: seq<T>, t: seq<T>, i: nat, j: nat)
    requires i <= j <= |s| && s[..j] == t
    ensures s[i..j] == t[i..]
  {
  }

  lemma SuffixOfAppend<T>(a: seq<T>, b: seq<T>)
    ensures (a + b)[|a|..] == b
  {
  }

  /** The pieces `ps`, one after another. */
  function Concat<T>(ps: seq<seq<T>>): seq<T>
  {
    if ps == [] then [] else Concat(ps[..|ps| - 1]) + ps[|ps| - 1]
  }

  lemma ConcatSnoc<T>(ps: seq<seq<T>>, p: seq<T>)
    ensures Concat(ps + [p]) == Concat(ps) + p
  {
    assert (ps + [p])[..|ps|] == ps;
  }

  /** Pieces of one width `w` concatenate to `|ps| * w` elements. */
  lemma {:induction false} ConcatUniform<T>(ps: seq<seq<T>>, w: nat)
    requires forall i :: 0 <= i < |ps| ==> |ps[i]| == w
    ensures |Concat(ps)| == |ps| * w
  {
    if ps != [] {
      var init := ps[..|ps| - 1];
      ConcatUniform(init, w);
      assert |ps| * w == |init| * w + w;
    }
  }

  lemma MulMono(a: nat, b: nat, w: nat)
    requires a <= b
    ensures a * w <= b * w
  {
  }

  /** With pieces of one width `w`, piece `j` starts at element `j * w`. */
  lemma {:induction false} ConcatAt<T>(ps: seq<seq<T>>, w: nat, j: nat)
    requires forall i :: 0 <= i < |ps| ==> |ps[i]| == w
    requires j < |ps|
    ensures j * w + w <= |Concat(ps)|
    ensures Concat(ps)[j * w .. j * w + w] == ps[j]
  {
    var init := ps[..|ps| - 1];
    var last := ps[|ps| - 1];
    ConcatUniform(init, w);
    assert Concat(ps) == Concat(init) + last;
    assert j * w + w == (j + 1) * w;
    if j == |ps| - 1 {
      SuffixOfAppend(Concat(init), last);
    } else {
      ConcatAt(init, w, j);
      MulMono(j + 1, |init|, w);
      assert Concat(ps)[j * w .. j * w + w] == Concat(init)[j * w .. j * w + w];
    }
  }

  lemma ConsTail<T>(x: T, s: seq<T>)
    ensures ([x] + s)[0] == x && ([x] + s)[1..] == s
  {
  }

  /** The text of lines each followed by a newline, as a file written line by line. */
  function Terminated(ls: seq<string>): string
  {
    if ls == [] then [] else Terminated(ls[..|ls| - 1]) + ls[|ls| - 1] + "\n"
  }

  /** Writing one more line appends it and its newline. */
  lemma TerminatedSnoc(ls: seq<string>, x: string)
    ensures Terminated(ls + [x]) == Terminated(ls) + x + "\n"
  {
    assert (ls + [x])[..|ls|] == ls;
  }

  /** Writing one more line appends it and its newline. */
  lemma TerminatedPrefix(ls: seq<string>, n: nat)
    requires n < |ls|
    ensures Terminated(ls[..n + 1]) == Terminated(ls[..n]) + ls[n] + "\n"
  {
    assert ls[..n + 1][..n] == ls[..n];
  }

  /** Written lines read back by `text.split('\n')`: the same lines and an empty last piece. */
  lemma {:induction false} SplitTerminated(ls: seq<string>)
    requires forall i :: 0 <= i < |ls| ==> '\n' !in ls[i]
    ensures SplitOn(Terminated(ls), '\n') == ls + [[]]
  {
    if ls != [] {
      TerminatedFirst(ls);
      SplitTerminated(ls[1..]);
      SplitOnAppend(ls[0], Terminated(ls[1..]), '\n');
      assert ls == [ls[0]] + ls[1..];
    }
  }

  lemma {:induction false} TerminatedFirst(ls: seq<string>)
    requires ls != []
    ensures Terminated(ls) == ls[0] + "\n" + Terminated(ls[1..])
  {
    if |ls| > 1 {
      var init := ls[..|ls| - 1];
      TerminatedFirst(init);
      assert init[1..] == ls[1..][..|ls| - 2];
      assert init[0] == ls[0];
    } else {
      assert ls[1..] == [];
    }
  }

  /** A run without whitespace that is followed by whitespace or the end is the first word. */
  lemma {:induction false} WordOf(s: string, w: string)
    requires |w| <= |s| && w == s[..|w|]
    requires forall i :: 0 <= i < |w| ==> !IsSpace(w[i])
    requires |w| < |s| ==> IsSpace(s[|w|])
    ensures Word(s) == w
  {
    if w != [] {
      WordOf(s[1..], w[1..]);
    }
  }

  predicate StrictlyIncreasing(s: seq<int>)
  {
    forall i, j :: 0 <= i < j < |s| ==> s[i] < s[j]
  }

  lemma NonEmptyWithin(s: seq<int>, t: seq<int>)
    requires s != [] && forall x :: x in s ==> x in t
    ensures t != []
  {
    var x := s[0];
    assert x in s;
    assert x in t;
  }

  lemma FirstIsLeast(s: seq<int>, x: int)
    requires StrictlyIncreasing(s) && x in s
    ensures s[0] <= x
  {
    var j :| 0 <= j < |s| && s[j] == x;
    assert j > 0 ==> s[0] < s[j];
  }

  lemma HeadTail<T>(s: seq<T>)
    requires s != []
    ensures s == [s[0]] + s[1..]
  {
  }

  lemma StrictlyIncreasingTail(s: seq<int>)
    requires s != [] && StrictlyIncreasing(s)
    ensures StrictlyIncreasing(s[1..])
    ensures forall x :: x in s[1..] ==> x in s && s[0] < x
  {
    forall x | x in s[1..]
      ensures x in s && s[0] < x
    {
      var j :| 0 <= j < |s| - 1 && s[1..][j] == x;
      assert s[j + 1] == x;
    }
  }

  /** Two strictly increasing sequences with the same elements and the same head have tails with the same elements. */
  lemma TailsSameMembers(s: seq<int>, t: seq<int>)
    requires s != [] && t != [] && StrictlyIncreasing(s) && StrictlyIncreasing(t) && s[0] == t[0]
    requires forall x :: x in s <==> x in t
    ensures forall x :: x in s[1..] <==> x in t[1..]
  {
    StrictlyIncreasingTail(s);
    StrictlyIncreasingTail(t);
    HeadTail(s);
    HeadTail(t);
    forall x
      ensures x in s[1..] <==> x in t[1..]
    {
      assert x in s <==> x == s[0] || x in s[1..];
      assert x in t <==> x == t[0] || x in t[1..];
    }
  }

  /** A strictly increasing sequence is determined by its elements. */
  lemma {:induction false} StrictlyIncreasingUnique(s: seq<int>, t: seq<int>)
    requires StrictlyIncreasing(s) && StrictlyIncreasing(t)
    requires forall x :: x in s <==> x in t
    ensures s == t
    decreases |s|
  {
    if s != [] { NonEmptyWithin(s, t); }
    if t != [] { NonEmptyWithin(t, s); }
    if s != [] {
      FirstIsLeast(t, s[0]);
      FirstIsLeast(s, t[0]);
      TailsSameMembers(s, t);
      StrictlyIncreasingTail(s);
      StrictlyIncreasingTail(t);
      StrictlyIncreasingUnique(s[1..], t[1..]);
      HeadTail(s);
      HeadTail(t);
    }
  }

  function DigitChar(d: nat): char
    requires d < 10
  {
    ('0' as int + d) as char
  }

  /** Python's `'{:d}'.format(n)` for a natural number. */
  function NatToString(n: nat): (r: string)
    ensures |r| >= 1
    ensures forall i :: 0 <= i < |r| ==> '0' <= r[i] <= '9'
    ensures r[0] == '0' ==> n == 0
  {
    if n < 10 then [DigitChar(n)] else NatToString(n / 10) + [DigitChar(n % 10)]
  }

  /** Python's `'{:d}'.format(n)` and `str(n)` for any integer. */
  function IntToString(n: int): (r: string)
    ensures |r| >= 1
  {
    if n < 0 then "-" + NatToString(-n) else NatToString(n)
  }

  function DigitValue(c: char): nat
    requires '0' <= c <= '9'
  {
    (c as int - '0' as int) as nat
  }

  /** The value of a string of decimal digits. */
  function DecimalValue(s: string): nat
    requires forall i :: 0 <= i < |s| ==> '0' <= s[i] <= '9'
  {
    if s == [] then 0 else 10 * DecimalValue(s[..|s| - 1]) + DigitValue(s[|s| - 1])
  }

  /** Decimal formatting is read back to the same number, so distinct numbers get distinct text. */
  lemma {:induction false} NatToStringValue(n: nat)
    ensures DecimalValue(NatToString(n)) == n
  {
    if n >= 10 {
      NatToStringValue(n / 10);
      var r := NatToString(n);
      assert r[..|r| - 1] == NatToString(n / 10);
      assert DigitValue(r[|r| - 1]) == n % 10;
    }
  }

  lemma NatToStringInjective(m: nat, n: nat)
    ensures NatToString(m) == NatToString(n) ==> m == n
  {
    NatToStringValue(m);
    NatToStringValue(n);
  }

  /** Lexicographic order on strings by code point, as Python compares `str`. */
  predicate StrLt(a: string, b: string)
  {
    if a == [] then b != []
    else if b == [] then false
    else if a[0] != b[0] then a[0] < b[0]
    else StrLt(a[1..], b[1..])
  }

  lemma {:induction false} StrLtIrreflexive(a: string)
    ensures !StrLt(a, a)
  {
    if a != [] { StrLtIrreflexive(a[1..]); }
  }

  lemma {:induction false} StrLtTransitive(a: string, b: string, c: string)
    requires StrLt(a, b) && StrLt(b, c)
    ensures StrLt(a, c)
  {
    if a != [] && b != [] && c != [] && a[0] == b[0] && b[0] == c[0] {
      StrLtTransitive(a[1..], b[1..], c[1..]);
    }
  }

  lemma {:induction false} StrLtTotal(a: string, b: string)
    ensures a == b || StrLt(a, b) || StrLt(b, a)
  {
    if a != [] && b != [] && a[0] == b[0] {
      StrLtTotal(a[1..], b[1..]);
      if a[1..] == b[1..] {
        assert a == [a[0]] + a[1..] && b == [b[0]] + b[1..];
      }
    }
  }
}
