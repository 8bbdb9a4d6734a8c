/** The string operations the original code relies on, with Python's
    semantics: `str.split(sep)`, `str.split()`, `str.find`, `str.strip`,
    slicing with negative indices, `str.isalpha`, the first match of the
    regular expression `\d+`, decimal formatting of integers and the
    lexicographic `<` between strings.  Character classes follow Python
    on ASCII only: letters are `A`-`Z` and `a`-`z`, digits `0`-`9`, and
    whitespace is the space, `\t`, `\n`, `\v`, `\f`, `\r` and the four
    separators `\x1c`-`\x1f`; every other character, ASCII or not, is none
    of these. */
module Text {
  import opened Wrappers

  predicate IsAlpha(c: char) { ('A' <= c <= 'Z') || ('a' <= c <= 'z') }
  predicate IsDigit(c: char) { '0' <= c <= '9' }
  predicate IsSpace(c: char) {
    c == ' ' || c == '\t' || c == '\n' || c == '\r' || c == '\U{000B}' || c == '\U{000C}'
    || ('\U{001C}' <= c <= '\U{001F}')
  }

  // ---------------------------------------------------------------------
  // Filtering letters: the loop `for char in s: if char.isalpha(): ...`

  /** The letters of `s`, in order. */
  function Letters(s: string): (r: string)
    ensures |r| <= |s|
    ensures forall i :: 0 <= i < |r| ==> IsAlpha(r[i])
    ensures forall c :: c in r <==> c in s && IsAlpha(c)
  {
    if s == [] then []
    else if IsAlpha(s[0]) then [s[0]] + Letters(s[1..])
    else Letters(s[1..])
  }

  /** Filtering distributes over concatenation, so a name's type code can
      be read piecewise. */
  lemma {:induction false} LettersAppend(a: string, b: string)
    ensures Letters(a + b) == Letters(a) + Letters(b)
  {
    if a == [] {
      assert a + b == b;
    } else {
      assert (a + b)[1..] == a[1..] + b;
      LettersAppend(a[1..], b);
    }
  }

  // ---------------------------------------------------------------------
  // `str.split(sep)` for a one-character separator, and its inverse `join`

  function Join(parts: seq<string>, sep: char): (s: string)
    requires |parts| >= 1
    ensures |s| == |parts| - 1 + SumLengths(parts)
  {
    if |parts| == 1 then parts[0] else parts[0] + [sep] + Join(parts[1..], sep)
  }

  function SumLengths(parts: seq<string>): nat {
    if parts == [] then 0 else |parts[0]| + SumLengths(parts[1..])
  }

  /** Python's `s.split(sep)`: never empty, no part holds the separator,
      and joining the parts with the separator gives `s` back. */
  function Split(s: string, sep: char): (parts: seq<string>)
    ensures |parts| >= 1
    ensures forall i :: 0 <= i < |parts| ==> sep !in parts[i]
    ensures Join(parts, sep) == s
  {
    if s == [] then [[]]
    else
      var rest := Split(s[1..], sep);
      if s[0] == sep then
        assert Join([[]] + rest, sep) == [] + [sep] + Join(rest, sep);
        [[]] + rest
      else
        var parts := [[s[0]] + rest[0]] + rest[1..];
        JoinHead(rest, sep, s[0]);
        parts
  }

  lemma JoinHead(rest: seq<string>, sep: char, c: char)
    requires |rest| >= 1
    ensures Join([[c] + rest[0]] + rest[1..], sep) == [c] + Join(rest, sep)
  {
    var parts := [[c] + rest[0]] + rest[1..];
    if |rest| > 1 {
      assert parts[1..] == rest[1..];
    }
  }

  /** The number of parts is one more than the number of separators. */
  lemma {:induction false} SplitCount(s: string, sep: char)
    ensures |Split(s, sep)| == Count(s, sep) + 1
  {
    if s != [] {
      SplitCount(s[1..], sep);
    }
  }

  function Count(s: string, c: char): nat {
    if s == [] then 0 else (if s[0] == c then 1 else 0) + Count(s[1..], c)
  }

  /** Splitting what was joined gives the parts back, provided no part
      contains the separator. */
  lemma {:induction false} SplitJoin(parts: seq<string>, sep: char)
    requires |parts| >= 1
    requires forall i :: 0 <= i < |parts| ==> sep !in parts[i]
    ensures Split(Join(parts, sep), sep) == parts
  {
    if |parts| == 1 {
      SplitNoSep(parts[0], sep);
    } else {
      SplitJoin(parts[1..], sep);
      SplitPrefix(parts[0], Join(parts[1..], sep), sep);
      assert [parts[0]] + parts[1..] == parts;
    }
  }

  lemma {:induction false} SplitNoSep(s: string, sep: char)
    requires sep !in s
    ensures Split(s, sep) == [s]
  {
    if s != [] {
      SplitNoSep(s[1..], sep);
      assert [s[0]] + s[1..] == s;
    }
  }

  lemma {:induction false} SplitPrefix(a: string, b: string, sep: char)
    requires sep !in a
    ensures Split(a + [sep] + b, sep) == [a] + Split(b, sep)
  {
    if a == [] {
      assert a + [sep] + b == [sep] + b;
      assert ([sep] + b)[1..] == b;
    } else {
      assert (a + [sep] + b)[1..] == a[1..] + [sep] + b;
      SplitPrefix(a[1..], b, sep);
      assert [a[0]] + a[1..] == a;
    }
  }

  /** Python's two-target unpacking `x, y = s.split(sep)`: a ValueError
      unless there are exactly two parts. */
  function SplitTwo(s: string, sep: char): (r: Result<(string, string)>)
    ensures r.Ok? <==> Count(s, sep) == 1
    ensures r.Err? ==> r.error == ValueError
    ensures r.Ok? ==> r.value.0 + [sep] + r.value.1 == s
    ensures r.Ok? ==> sep !in r.value.0 && sep !in r.value.1
  {
    var parts := Split(s, sep);
    SplitCount(s, sep);
    if |parts| == 2 then
      assert Join(parts, sep) == parts[0] + [sep] + parts[1];
      Ok((parts[0], parts[1]))
    else Err(ValueError)
  }

  // ---------------------------------------------------------------------
  // `str.split()` without argument: maximal runs of non-space characters

  function Word(s: string): (w: string)
    ensures |w| <= |s| && w == s[..|w|]
    ensures forall i :: 0 <= i < |w| ==> !IsSpace(w[i])
    ensures |w| < |s| ==> IsSpace(s[|w|])
  {
    if s == [] || IsSpace(s[0]) then [] else [s[0]] + Word(s[1..])
  }

  function Tokens(s: string): (ts: seq<string>)
    ensures forall i :: 0 <= i < |ts| ==> ts[i] != [] && forall k :: 0 <= k < |ts[i]| ==> !IsSpace(ts[i][k])
    ensures (forall k :: 0 <= k < |s| ==> IsSpace(s[k])) ==> ts == []
    decreases |s|
  {
    if s == [] then []
    else if IsSpace(s[0]) then Tokens(s[1..])
    else
      var w := Word(s);
      [w] + Tokens(s[|w|..])
  }

  // ---------------------------------------------------------------------
  // `str.strip()`

  function StripLeft(s: string): (r: string)
    ensures |r| <= |s|
    ensures r == [] || !IsSpace(r[0])
  {
    if s != [] && IsSpace(s[0]) then StripLeft(s[1..]) else s
  }

  function StripRight(s: string): (r: string)
    ensures |r| <= |s| && r == s[..|r|]
    ensures r == [] || !IsSpace(r[|r| - 1])
  {
    if s != [] && IsSpace(s[|s| - 1]) then StripRight(s[..|s| - 1]) else s
  }

  function Strip(s: string): (r: string)
    ensures r == [] || (!IsSpace(r[0]) && !IsSpace(r[|r| - 1]))
    ensures |r| <= |s|
  {
    StripRight(StripLeft(s))
  }

  // ---------------------------------------------------------------------
  // `str.find(c)` and Python slicing

  /** The index of the first `c` in `s`, or -1. */
  function Find(s: string, c: char): (i: int)
    ensures -1 <= i < |s|
    ensures i == -1 <==> c !in s
    ensures i >= 0 ==> s[i] == c && c !in s[..i]
  {
    if s == [] then -1
    else if s[0] == c then 0
    else
      var k := Find(s[1..], c);
      assert s[1..] == s[..|s|][1..];
      if k == -1 then -1 else
        assert s[..k + 1] == [s[0]] + s[1..][..k];
        k + 1
  }

  /** A slice bound as Python normalises it: negative counts from the end,
      then clamped into 0..|s|. */
  function SliceBound(n: nat, i: int): (b: nat)
    ensures b <= n
    ensures 0 <= i <= n ==> b == i
    ensures -(n as int) <= i < 0 ==> b == n + i
  {
    if i < 0 then (if n + i < 0 then 0 else n + i) else if i > n then n else i
  }

  /** Python's `s[i:j]`. */
  function Slice(s: string, i: int, j: int): (r: string)
    ensures |r| <= |s|
    ensures 0 <= i <= j <= |s| ==> r == s[i..j]
  {
    var a := SliceBound(|s|, i);
    var b := SliceBound(|s|, j);
    if a < b then s[a..b] else []
  }

  /** Python's `s[i:]`. */
  function SliceFrom(s: string, i: int): (r: string)
    ensures |r| <= |s|
    ensures 0 <= i <= |s| ==> r == s[i..]
  {
    s[SliceBound(|s|, i)..]
  }

  // ---------------------------------------------------------------------
  // `s.split(sep)[1]` for a separator of several characters

  /** The index of the first occurrence of `sep` in `s`. */
  function FindSub(s: string, sep: string): (r: Option<nat>)
    requires sep != []
    ensures r.Some? ==> r.value + |sep| <= |s| && s[r.value..r.value + |sep|] == sep
    decreases |s|
  {
    if |s| < |sep| then None
    else if s[..|sep|] == sep then Some(0)
    else
      match FindSub(s[1..], sep)
      case None => None
      case Some(k) =>
        assert s[k + 1..k + 1 + |sep|] == s[1..][k..k + |sep|];
        Some(k + 1)
  }

  /** A string without the first character of `sep` holds no `sep`. */
  lemma {:induction false} FindSubAbsent(s: string, sep: string)
    requires sep != [] && sep[0] !in s
    ensures FindSub(s, sep) == None
    decreases |s|
  {
    if |s| >= |sep| {
      assert s[..|sep|][0] == s[0];
      FindSubAbsent(s[1..], sep);
    }
  }

  /** Python's `s.split(sep)[1]`: the text between the first occurrence of
      `sep` and the next one (or the end), an IndexError when `sep` does
      not occur. */
  function SecondPiece(s: string, sep: string): (r: Result<string>)
    requires sep != []
    ensures r.Err? ==> r.error == IndexError
  {
    match FindSub(s, sep)
    case None => Err(IndexError)
    case Some(i) =>
      var rest := s[i + |sep|..];
      match FindSub(rest, sep)
      case None => Ok(rest)
      case Some(j) => Ok(rest[..j])
  }

  /** The piece after a leading separator is the rest when the separator
      does not come back. */
  lemma SecondPieceAfterPrefix(sep: string, t: string)
    requires sep != [] && sep[0] !in t
    ensures SecondPiece(sep + t, sep) == Ok(t)
  {
    assert (sep + t)[..|sep|] == sep;
    assert (sep + t)[|sep|..] == t;
    FindSubAbsent(t, sep);
  }

  /** A string that does not hold the first character of `sep` has no
      second piece. */
  lemma SecondPieceMissing(s: string, sep: string)
    requires sep != [] && sep[0] !in s
    ensures SecondPiece(s, sep) == Err(IndexError)
  {
    FindSubAbsent(s, sep);
  }

  // ---------------------------------------------------------------------
  // `re.findall("\d+", s)[0]`: the first maximal run of digits

  function Digits(s: string): (w: string)
    ensures |w| <= |s| && w == s[..|w|]
    ensures forall i :: 0 <= i < |w| ==> IsDigit(w[i])
    ensures |w| < |s| ==> !IsDigit(s[|w|])
  {
    if s == [] || !IsDigit(s[0]) then [] else [s[0]] + Digits(s[1..])
  }

  /** The first digit run, or an IndexError when `s` has no digit. */
  function FirstDigitRun(s: string): (r: Result<string>)
    ensures r.Ok? <==> exists i :: 0 <= i < |s| && IsDigit(s[i])
    ensures r.Err? ==> r.error == IndexError
    ensures r.Ok? ==> r.value != [] && forall i :: 0 <= i < |r.value| ==> IsDigit(r.value[i])
  {
    if s == [] then Err(IndexError)
    else if IsDigit(s[0]) then Ok(Digits(s))
    else
      var r := FirstDigitRun(s[1..]);
      assert forall i :: 0 < i < |s| ==> s[i] == s[1..][i - 1];
      r
  }

  // ---------------------------------------------------------------------
  // Decimal formatting (`str(n)`, `"{}".format(n)`) and its inverse

  function DigitChar(d: nat): (c: char)
    requires d < 10
    ensures IsDigit(c)
  {
    "0123456789"[d]
  }

  function DigitValue(c: char): (d: nat)
    requires IsDigit(c)
    ensures d < 10
  {
    (c as int - '0' as int) as nat
  }

  function NatToString(n: nat): (s: string)
    ensures s != [] && forall i :: 0 <= i < |s| ==> IsDigit(s[i])
  {
    if n < 10 then [DigitChar(n)] else NatToString(n / 10) + [DigitChar(n % 10)]
  }

  function IntToString(n: int): (s: string)
    ensures s != []
  {
    if n < 0 then "-" + NatToString(-n) else NatToString(n)
  }

  /** Reads a string of decimal digits back as a number. */
  function ParseDigits(s: string): (n: nat)
    requires forall i :: 0 <= i < |s| ==> IsDigit(s[i])
  {
    if s == [] then 0 else ParseDigits(s[..|s| - 1]) * 10 + DigitValue(s[|s| - 1])
  }

  /** Formatting a number and reading it back is the identity, so the
      formatted names of distinct numbers are distinct. */
  lemma {:induction false} ParseNatToString(n: nat)
    ensures ParseDigits(NatToString(n)) == n
  {
    var s := NatToString(n);
    if n >= 10 {
      ParseNatToString(n / 10);
      assert s[..|s| - 1] == NatToString(n / 10);
    }
  }

  lemma NatToStringInjective(m: nat, n: nat)
    requires NatToString(m) == NatToString(n)
    ensures m == n
  {
    ParseNatToString(m);
    ParseNatToString(n);
  }

  /** A prefix followed by a formatted number determines the number. */
  lemma PrefixedNumberInjective(p: string, m: nat, n: nat)
    requires p + NatToString(m) == p + NatToString(n)
    ensures m == n
  {
    assert NatToString(m) == (p + NatToString(m))[|p|..];
    assert NatToString(n) == (p + NatToString(n))[|p|..];
    NatToStringInjective(m, n);
  }

  // ---------------------------------------------------------------------
  // Python's `<` between strings: lexicographic by code point

  predicate LexLess(a: string, b: string)
    decreases |a|
  {
    if a == [] then b != []
    else if b == [] then false
    else if a[0] != b[0] then a[0] < b[0]
    else LexLess(a[1..], b[1..])
  }

  lemma {:induction false} LexLessIrreflexive(a: string)
    ensures !LexLess(a, a)
  {
    if a != [] {
      LexLessIrreflexive(a[1..]);
    }
  }
}
