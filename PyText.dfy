/** The Python `str` operations that the judge relies on, with CPython's
    semantics: `isspace`, `strip`, `split(sep)`, `sep.join`, `split()`,
    `replace`, `isdigit`/`int` on ASCII digits and `upper` on ASCII letters. */
module PyText {

  datatype Option<T> = None | Some(value: T)

  /** `str.isspace` on one character (CPython's whitespace table). */
  predicate IsSpace(c: char) {
    var n := c as int;
    (9 <= n <= 13) || (28 <= n <= 32) || n == 0x85 || n == 0xA0 || n == 0x1680
    || (0x2000 <= n <= 0x200A) || n == 0x2028 || n == 0x2029 || n == 0x202F
    || n == 0x205F || n == 0x3000
  }

  predicate NoSpace(s: string) {
    forall i :: 0 <= i < |s| ==> !IsSpace(s[i])
  }

  predicate AllSpace(s: string) {
    forall i :: 0 <= i < |s| ==> IsSpace(s[i])
  }

  /** A string that `strip` leaves alone. */
  predicate Stripped(s: string) {
    s == [] || (!IsSpace(s[0]) && !IsSpace(s[|s| - 1]))
  }

  // ---------------------------------------------------------------------------
  // strip

  /** `s.lstrip()`. What it keeps is stated by `LStripSpec`. */
  function LStrip(s: string): (r: string)
    ensures |r| <= |s|
    ensures r == [] || !IsSpace(r[0])
  {
    if s != [] && IsSpace(s[0]) then LStrip(s[1..]) else s
  }

  /** `lstrip` drops exactly the leading whitespace: the result is a suffix
      and everything before it is whitespace. */
  lemma {:induction false} LStripSpec(s: string)
    ensures LStrip(s) == s[|s| - |LStrip(s)|..]
    ensures AllSpace(s[..|s| - |LStrip(s)|])
  {
    if s != [] && IsSpace(s[0]) {
      var r := LStrip(s[1..]);
      LStripSpec(s[1..]);
      assert s[1..][|s| - 1 - |r|..] == s[|s| - |r|..];
      assert s[..|s| - |r|] == [s[0]] + s[1..][..|s| - 1 - |r|];
    }
  }

  /** `s.rstrip()`. What it keeps is stated by `RStripSpec`. */
  function RStrip(s: string): (r: string)
    ensures |r| <= |s|
    ensures r == [] || !IsSpace(r[|r| - 1])
  {
    if s != [] && IsSpace(s[|s| - 1]) then RStrip(s[..|s| - 1]) else s
  }

  /** `rstrip` drops exactly the trailing whitespace: the result is a prefix
      and everything after it is whitespace. */
  lemma {:induction false} RStripSpec(s: string)
    ensures RStrip(s) == s[..|RStrip(s)|]
    ensures AllSpace(s[|RStrip(s)|..])
  {
    if s != [] && IsSpace(s[|s| - 1]) {
      var r := RStrip(s[..|s| - 1]);
      RStripSpec(s[..|s| - 1]);
      assert s[..|s| - 1][..|r|] == s[..|r|];
      assert s[|r|..] == s[..|s| - 1][|r|..] + [s[|s| - 1]];
    }
  }

  /** `s.strip()`: never starts or ends with whitespace. */
  function Strip(s: string): (r: string)
    ensures Stripped(r)
  {
    var r := RStrip(LStrip(s));
    assert r != [] ==> r[0] == LStrip(s)[0] by {
      if r != [] { RStripSpec(LStrip(s)); }
    }
    r
  }

  /** `strip` keeps the infix of `s` between its leading and its trailing
      whitespace. */
  lemma StripSpec(s: string)
    ensures exists i :: 0 <= i <= i + |Strip(s)| <= |s| && Strip(s) == s[i..i + |Strip(s)|]
                        && AllSpace(s[..i]) && AllSpace(s[i + |Strip(s)|..])
  {
    var l := LStrip(s);
    var r := RStrip(l);
    LStripSpec(s);
    RStripSpec(l);
    var i := |s| - |l|;
    assert r == s[i..i + |r|];
    assert s[i + |r|..] == l[|r|..];
  }

  /** Stripping is idempotent, so every field the parser strips is a fixed
      point of `strip`. */
  lemma StripStripped(s: string)
    requires Stripped(s)
    ensures Strip(s) == s
  {
    assert LStrip(s) == s;
    assert RStrip(s) == s;
  }

  lemma StripIdempotent(s: string)
    ensures Strip(Strip(s)) == Strip(s)
  {
    StripStripped(Strip(s));
  }

  // ---------------------------------------------------------------------------
  // find, split(sep), join, replace

  /** `sep` occurs in `s` starting at index `k`. */
  predicate OccursAt(s: string, sep: string, k: int) {
    0 <= k && k + |sep| <= |s| && s[k..k + |sep|] == sep
  }

  lemma OccursShift(s: string, sep: string)
    requires s != []
    ensures forall k :: 1 <= k ==> (OccursAt(s, sep, k) <==> OccursAt(s[1..], sep, k - 1))
  {
    forall k | 1 <= k
      ensures OccursAt(s, sep, k) <==> OccursAt(s[1..], sep, k - 1)
    {
      if k + |sep| <= |s| {
        var a, b := s[k..k + |sep|], s[1..][k - 1..k - 1 + |sep|];
        assert |a| == |b|;
        forall m | 0 <= m < |a| ensures a[m] == b[m] {
          assert a[m] == s[k + m];
          assert b[m] == s[1..][k - 1 + m];
        }
        assert a == b;
      }
    }
  }

  /** `s.find(sep)`, with `None` for Python's -1: the first occurrence. */
  function Find(s: string, sep: string): (r: Option<nat>)
    requires sep != []
    ensures r.Some? ==> OccursAt(s, sep, r.value)
    ensures r.Some? ==> forall k :: 0 <= k < r.value ==> !OccursAt(s, sep, k)
    ensures r.None? ==> forall k :: !OccursAt(s, sep, k)
    decreases |s|
  {
    if |s| < |sep| then None
    else if s[..|sep|] == sep then Some(0)
    else
      OccursShift(s, sep);
      match Find(s[1..], sep)
      case None => None
      case Some(j) => Some(j + 1)
  }

  /** `s.split(sep)` for a non-empty separator: never an empty list, and
      `"".split(sep) == [""]`. */
  function Split(s: string, sep: string): (r: seq<string>)
    requires sep != []
    ensures |r| >= 1
    ensures forall j, k :: 0 <= j < |r| ==> !OccursAt(r[j], sep, k)
    decreases |s|
  {
    match Find(s, sep)
    case None => [s]
    case Some(i) =>
      var head := s[..i];
      assert forall k :: !OccursAt(head, sep, k) by {
        forall k | OccursAt(head, sep, k) ensures false {
          assert s[k..k + |sep|] == head[k..k + |sep|];
          assert OccursAt(s, sep, k);
        }
      }
      [head] + Split(s[i + |sep|..], sep)
  }

  /** `sep.join(parts)`. */
  function Join(parts: seq<string>, sep: string): string
  {
    if parts == [] then ""
    else if |parts| == 1 then parts[0]
    else parts[0] + sep + Join(parts[1..], sep)
  }

  /** Splitting and joining back with the same separator gives the text back. */
  lemma {:induction false} JoinSplit(s: string, sep: string)
    requires sep != []
    ensures Join(Split(s, sep), sep) == s
    decreases |s|
  {
    var f := Find(s, sep);
    if f.Some? {
      var i := f.value;
      var rest := s[i + |sep|..];
      var tail := Split(rest, sep);
      JoinSplit(rest, sep);
      var parts := Split(s, sep);
      assert parts == [s[..i]] + tail;
      assert |parts| > 1 && parts[0] == s[..i] && parts[1..] == tail;
      calc {
        Join(parts, sep);
        s[..i] + sep + Join(tail, sep);
        s[..i] + sep + rest;
        { assert s[i..i + |sep|] == sep; }
        s;
      }
    }
  }

  /** A joined text holds character `c` only where a part or the separator does. */
  lemma {:induction false} JoinAvoids(parts: seq<string>, sep: string, c: char)
    requires c !in sep
    requires forall j :: 0 <= j < |parts| ==> c !in parts[j]
    ensures c !in Join(parts, sep)
  {
    if |parts| > 1 {
      JoinAvoids(parts[1..], sep, c);
    }
  }

  lemma NoCharNoOccurrence(s: string, c: char)
    ensures c !in s <==> forall k :: !OccursAt(s, [c], k)
  {
    if c in s {
      var k :| 0 <= k < |s| && s[k] == c;
      assert s[k..k + 1] == [c];
      assert OccursAt(s, [c], k);
    } else {
      forall k | 0 <= k < |s| ensures !OccursAt(s, [c], k) {
        assert s[k..k + 1][0] == s[k];
      }
    }
  }

  /** `s.replace(pattern, with)`: CPython's replace is join-of-split. */
  function Replace(s: string, pattern: string, with: string): string
    requires pattern != []
  {
    Join(Split(s, pattern), with)
  }

  /** `s.replace("\r\n", "\n").replace("\r", "\n")`. */
  function NormalizeNewlines(s: string): string
  {
    Replace(Replace(s, "\r\n", "\n"), "\r", "\n")
  }

  /** After normalisation no carriage return is left. */
  lemma NormalizeRemovesCr(s: string)
    ensures '\r' !in NormalizeNewlines(s)
  {
    var t := Replace(s, "\r\n", "\n");
    var parts := Split(t, "\r");
    forall j | 0 <= j < |parts| ensures '\r' !in parts[j] {
      NoCharNoOccurrence(parts[j], '\r');
    }
    JoinAvoids(parts, "\n", '\r');
  }

  /** A text without carriage returns is left unchanged by normalisation. */
  lemma NormalizeKeepsCrFree(s: string)
    requires '\r' !in s
    ensures NormalizeNewlines(s) == s
  {
    assert Find(s, "\r\n").None? by {
      forall k | 0 <= k && k + 2 <= |s| ensures !OccursAt(s, "\r\n", k) {
        assert s[k..k + 2][0] == s[k];
      }
    }
    assert Replace(s, "\r\n", "\n") == s;
    NoCharNoOccurrence(s, '\r');
    assert Find(s, "\r").None?;
  }

  // ---------------------------------------------------------------------------
  // split() on whitespace

  /** Length of the leading run of non-whitespace characters. */
  function WordEnd(s: string): (n: nat)
    ensures n <= |s| && NoSpace(s[..n])
    ensures n == |s| || IsSpace(s[n])
  {
    if s == [] || IsSpace(s[0]) then 0
    else
      var n := 1 + WordEnd(s[1..]);
      assert s[..n] == [s[0]] + s[1..][..n - 1];
      n
  }

  /** `s.split()`: the maximal runs of non-whitespace characters. */
  function Words(s: string): (r: seq<string>)
    ensures forall i :: 0 <= i < |r| ==> r[i] != [] && NoSpace(r[i])
    decreases |s|
  {
    var t := LStrip(s);
    if t == [] then []
    else
      var n := WordEnd(t);
      [t[..n]] + Words(t[n..])
  }

  lemma WordsEmpty(s: string)
    ensures Words(s) == [] <==> AllSpace(s)
  {
    var t := LStrip(s);
    LStripSpec(s);
    if t != [] {
      assert s[|s| - |t|] == t[0];
    } else {
      assert s[..|s|] == s;
    }
  }

  /** In a stripped string, whatever follows a whitespace character is not
      all whitespace. */
  lemma SpaceBeforeEnd(s: string, n: nat, k: nat)
    requires Stripped(s) && n <= k < |s| && IsSpace(s[k])
    ensures n < |s| - 1 && !AllSpace(s[n..])
  {
    var rest := s[n..];
    assert rest[|rest| - 1] == s[|s| - 1];
  }

  /** A stripped line splits into at most one word exactly when it holds no
      whitespace at all. */
  lemma AtMostOneWord(s: string)
    requires Stripped(s)
    ensures |Words(s)| <= 1 <==> NoSpace(s)
  {
    if s != [] {
      assert LStrip(s) == s;
      var n := WordEnd(s);
      if NoSpace(s) {
        assert n == |s|;
      } else {
        forall i | 0 <= i < n ensures !IsSpace(s[i]) {
          assert s[..n][i] == s[i];
        }
        var k :| 0 <= k < |s| && IsSpace(s[k]);
        SpaceBeforeEnd(s, n, k);
      }
      WordsEmpty(s[n..]);
    }
  }

  // ---------------------------------------------------------------------------
  // isdigit and int

  predicate IsDigit(c: char) {
    '0' as int <= c as int <= '9' as int
  }

  /** `s.isdigit()` over ASCII digits: non-empty and digits only. */
  predicate IsDigits(s: string) {
    |s| > 0 && forall i :: 0 <= i < |s| ==> IsDigit(s[i])
  }

  /** The most digits `int()` converts from a decimal string: CPython's
      default `sys.get_int_max_str_digits()`; a longer string, leading zeros
      included, makes `int()` raise `ValueError`. */
  const MaxStrDigits := 4300

  /** The value of a string of ASCII digits (leading zeros allowed), which
      `int(s)` returns when `|s| <= MaxStrDigits`. */
  function DigitsValue(s: string): nat
    requires forall i :: 0 <= i < |s| ==> IsDigit(s[i])
  {
    if s == [] then 0
    else
      var last := s[|s| - 1];
      assert IsDigit(last);
      10 * DigitsValue(s[..|s| - 1]) + (last as int - '0' as int)
  }

  // ---------------------------------------------------------------------------
  // upper

  function UpperChar(c: char): char {
    if 'a' <= c <= 'z' then (c as int - 32) as char else c
  }

  /** `s.upper()` on ASCII letters. */
  function Upper(s: string): (r: string)
    ensures |r| == |s|
    ensures forall i :: 0 <= i < |r| ==> !('a' <= r[i] <= 'z')
  {
    seq(|s|, i requires 0 <= i < |s| => UpperChar(s[i]))
  }
}
