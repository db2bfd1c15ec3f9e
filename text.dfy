/** The JavaScript string built-ins the pages and handlers use: ASCII
    `toLowerCase`, `includes`, `split` on one character, `trim`, `parseInt`
    without a radix and the text of an integer in a template literal.
    `Upper` and `Join` are not used by the code: they state that the search
    ignores case and what `split` inverts. */
module Text {
  import opened Js

  /** `c.toLowerCase()` on ASCII letters; every other character is kept. */
  function LowerChar(c: char): char {
    if 'A' <= c <= 'Z' then (c as int + 32) as char else c
  }

  /** `c.toUpperCase()` on ASCII letters; every other character is kept. */
  function UpperChar(c: char): char {
    if 'a' <= c <= 'z' then (c as int - 32) as char else c
  }

  /** `s.toLowerCase()`: no ASCII capital is left, and only ASCII capitals
      change, each to its small letter. */
  function Lower(s: string): (r: string)
    ensures |r| == |s|
    ensures forall i :: 0 <= i < |r| ==> !('A' <= r[i] <= 'Z')
    ensures forall i :: 0 <= i < |r| ==> r[i] == s[i] || ('A' <= s[i] <= 'Z' && r[i] as int == s[i] as int + 32)
  {
    seq(|s|, i requires 0 <= i < |s| => LowerChar(s[i]))
  }

  function Upper(s: string): string {
    seq(|s|, i requires 0 <= i < |s| => UpperChar(s[i]))
  }

  /** Lower-casing forgets how the letters of `s` were cased. */
  lemma {:induction false} LowerForgetsCase(s: string)
    ensures Lower(Upper(s)) == Lower(s)
    ensures Lower(Lower(s)) == Lower(s)
  {
    forall i | 0 <= i < |s|
      ensures Lower(Upper(s))[i] == Lower(s)[i] && Lower(Lower(s))[i] == Lower(s)[i]
    {
      var c := s[i];
      if 'a' <= c <= 'z' {
        assert UpperChar(c) as int == c as int - 32;
      } else if 'A' <= c <= 'Z' {
        assert LowerChar(c) as int == c as int + 32;
      }
    }
  }

  predicate IsPrefix(p: string, s: string) {
    |p| <= |s| && s[..|p|] == p
  }

  /** `q` occurs in `s` starting at offset `i`. */
  predicate OccursAt(s: string, q: string, i: int) {
    0 <= i && i + |q| <= |s| && s[i..i + |q|] == q
  }

  /** A slice of `s[1..]` is the slice of `s` one place further on. */
  lemma SliceShift(s: string, i: int, n: nat)
    requires 1 <= i && i + n <= |s|
    ensures s[1..][i - 1..i - 1 + n] == s[i..i + n]
  {
    var a, b := s[1..][i - 1..i - 1 + n], s[i..i + n];
    forall k | 0 <= k < n ensures a[k] == b[k] {
      assert a[k] == s[1..][i - 1 + k] == s[i + k];
    }
  }

  /** An occurrence in `s` is one at offset 0 or one in `s[1..]` shifted by one. */
  lemma OccursShift(s: string, q: string)
    requires s != []
    ensures (exists i :: OccursAt(s, q, i)) <==> OccursAt(s, q, 0) || exists j :: OccursAt(s[1..], q, j)
  {
    var t := s[1..];
    forall j | OccursAt(t, q, j) ensures OccursAt(s, q, j + 1) {
      SliceShift(s, j + 1, |q|);
    }
    forall i | OccursAt(s, q, i) && i >= 1 ensures OccursAt(t, q, i - 1) {
      SliceShift(s, i, |q|);
    }
  }

  /** `s.includes(q)`: `q` occurs in `s` at some offset. */
  function Includes(s: string, q: string): (b: bool)
    ensures b <==> exists i :: OccursAt(s, q, i)
    decreases |s|
  {
    if IsPrefix(q, s) then
      assert OccursAt(s, q, 0);
      true
    else if s == [] then
      false
    else
      OccursShift(s, q);
      Includes(s[1..], q)
  }

  /** The empty string occurs in every string. */
  lemma IncludesEmpty(s: string)
    ensures Includes(s, "")
  {
    assert OccursAt(s, "", 0);
  }

  /** The number of occurrences of `c` in `s`. */
  function Occurrences(s: string, c: char): nat {
    if s == [] then 0 else Occurrences(s[..|s| - 1], c) + (if s[|s| - 1] == c then 1 else 0)
  }

  /** `s.split(sep)` for a separator of one character: the pieces between
      consecutive separators, in order. */
  function Split(s: string, sep: char): (r: seq<string>)
    ensures |r| == Occurrences(s, sep) + 1
    ensures forall i :: 0 <= i < |r| ==> sep !in r[i]
  {
    if s == [] then [""]
    else
      var init := Split(s[..|s| - 1], sep);
      var c := s[|s| - 1];
      if c == sep then init + [""]
      else init[..|init| - 1] + [init[|init| - 1] + [c]]
  }

  /** `parts.join(sep)` for a separator of one character. */
  function Join(parts: seq<string>, sep: char): string {
    if |parts| == 0 then ""
    else if |parts| == 1 then parts[0]
    else Join(parts[..|parts| - 1], sep) + [sep] + parts[|parts| - 1]
  }

  lemma JoinExtendLast(parts: seq<string>, w: string, c: char, sep: char)
    ensures Join(parts + [w + [c]], sep) == Join(parts + [w], sep) + [c]
  {
    var a, b := parts + [w + [c]], parts + [w];
    assert a[..|parts|] == parts && b[..|parts|] == parts;
  }

  /** An empty last piece adds just a separator. */
  lemma JoinAppendEmpty(parts: seq<string>, sep: char)
    requires |parts| >= 1
    ensures Join(parts + [""], sep) == Join(parts, sep) + [sep]
  {
    assert (parts + [""])[..|parts|] == parts;
    assert Join(parts, sep) + [sep] + "" == Join(parts, sep) + [sep];
  }

  /** Joining the pieces of a split gives back the original text. */
  lemma {:induction false} JoinSplit(s: string, sep: char)
    ensures Join(Split(s, sep), sep) == s
  {
    if s != [] {
      var s', c := s[..|s| - 1], s[|s| - 1];
      var init := Split(s', sep);
      JoinSplit(s', sep);
      assert s == s' + [c];
      if c == sep {
        assert Split(s, sep) == init + [""];
        JoinAppendEmpty(init, sep);
      } else {
        var n := |init|;
        assert Split(s, sep) == init[..n - 1] + [init[n - 1] + [c]];
        JoinExtendLast(init[..n - 1], init[n - 1], c, sep);
        assert init[..n - 1] + [init[n - 1]] == init;
      }
    }
  }

  /** Appending text without a separator extends the last piece. */
  lemma {:induction false} SplitAppend(x: string, w: string, sep: char)
    requires sep !in w
    ensures var p := Split(x, sep);
      Split(x + w, sep) == p[..|p| - 1] + [p[|p| - 1] + w]
    decreases |w|
  {
    var p := Split(x, sep);
    if w == [] {
      assert x + w == x;
      assert p[|p| - 1] + w == p[|p| - 1];
      assert p[..|p| - 1] + [p[|p| - 1]] == p;
    } else {
      var w', c := w[..|w| - 1], w[|w| - 1];
      assert w == w' + [c];
      SplitAppend(x, w', sep);
      assert (x + w)[..|x + w| - 1] == x + w';
      assert (x + w)[|x + w| - 1] == c;
      var q := p[..|p| - 1] + [p[|p| - 1] + w'];
      assert q[..|q| - 1] == p[..|p| - 1];
      assert p[|p| - 1] + w' + [c] == p[|p| - 1] + w;
    }
  }

  /** A separator at the end starts an empty last piece. */
  lemma SplitSep(x: string, sep: char)
    ensures Split(x + [sep], sep) == Split(x, sep) + [""]
  {
    assert (x + [sep])[..|x|] == x;
  }

  /** Filling the empty last piece with `w`. */
  lemma FillLastPiece(init: seq<string>, w: string)
    ensures var p := init + [""]; p[..|p| - 1] + [p[|p| - 1] + w] == init + [w]
  {
    var p := init + [""];
    assert p[..|p| - 1] == init;
    assert p[|p| - 1] + w == w;
  }

  /** Splitting a join of separator-free pieces gives back the pieces. */
  lemma {:induction false} SplitJoin(parts: seq<string>, sep: char)
    requires |parts| >= 1
    requires forall i :: 0 <= i < |parts| ==> sep !in parts[i]
    ensures Split(Join(parts, sep), sep) == parts
  {
    var n := |parts|;
    var w := parts[n - 1];
    if n == 1 {
      SplitAppend("", w, sep);
      assert "" + w == w;
    } else {
      var init := parts[..n - 1];
      SplitJoin(init, sep);
      SplitJoinStep(init, w, sep);
      assert init + [w] == parts;
      assert Join(parts, sep) == Join(init, sep) + [sep] + w;
    }
  }

  /** One more separator-free piece behind a join whose split is known. */
  lemma SplitJoinStep(init: seq<string>, w: string, sep: char)
    requires sep !in w && Split(Join(init, sep), sep) == init
    ensures Split(Join(init, sep) + [sep] + w, sep) == init + [w]
  {
    var x := Join(init, sep) + [sep];
    SplitSep(Join(init, sep), sep);
    SplitAppend(x, w, sep);
    FillLastPiece(init, w);
  }

  /** The characters `String.prototype.trim` removes: the ECMAScript
      WhiteSpace and LineTerminator characters. */
  const WhiteSpace: set<char> := {
    '\t', '\n', '\U{000B}', '\U{000C}', '\r', ' ', '\U{00A0}', '\U{1680}',
    '\U{2000}', '\U{2001}', '\U{2002}', '\U{2003}', '\U{2004}', '\U{2005}',
    '\U{2006}', '\U{2007}', '\U{2008}', '\U{2009}', '\U{200A}',
    '\U{2028}', '\U{2029}', '\U{202F}', '\U{205F}', '\U{3000}', '\U{FEFF}'}

  predicate IsSpace(c: char) {
    c in WhiteSpace
  }

  predicate AllSpace(s: string) {
    forall i :: 0 <= i < |s| ==> IsSpace(s[i])
  }

  /** One more white-space character in front of a white-space prefix. */
  lemma SpaceBefore(s: string, m: nat)
    requires m < |s| && IsSpace(s[0]) && AllSpace(s[1..][..m])
    ensures AllSpace(s[..m + 1])
  {
    var p := s[..m + 1];
    forall i | 0 < i < m + 1 ensures IsSpace(p[i]) {
      assert p[i] == s[1..][..m][i - 1];
    }
  }

  /** One more white-space character behind a white-space suffix. */
  lemma SpaceAfter(s: string, m: nat)
    requires m < |s| && IsSpace(s[|s| - 1]) && AllSpace(s[..|s| - 1][|s| - 1 - m..])
    ensures AllSpace(s[|s| - 1 - m..])
  {
    var p := s[|s| - 1 - m..];
    forall i | 0 <= i < m ensures IsSpace(p[i]) {
      assert p[i] == s[..|s| - 1][|s| - 1 - m..][i];
    }
  }

  /** The number of white-space characters `s` starts with. */
  function LeadingSpace(s: string): (n: nat)
    ensures n <= |s| && AllSpace(s[..n]) && (n < |s| ==> !IsSpace(s[n]))
  {
    if s != [] && IsSpace(s[0]) then
      var m := LeadingSpace(s[1..]);
      SpaceBefore(s, m);
      m + 1
    else 0
  }

  /** The number of white-space characters `s` ends with. */
  function TrailingSpace(s: string): (n: nat)
    ensures n <= |s| && AllSpace(s[|s| - n..]) && (n < |s| ==> !IsSpace(s[|s| - 1 - n]))
  {
    if s != [] && IsSpace(s[|s| - 1]) then
      var m := TrailingSpace(s[..|s| - 1]);
      SpaceAfter(s, m);
      m + 1
    else 0
  }

  /** `s` without its leading white space. */
  function TrimStart(s: string): (r: string)
    ensures |r| <= |s| && r == s[|s| - |r|..] && AllSpace(s[..|s| - |r|])
    ensures r == [] || !IsSpace(r[0])
  {
    s[LeadingSpace(s)..]
  }

  /** `s` without its trailing white space. */
  function TrimEnd(s: string): (r: string)
    ensures |r| <= |s| && r == s[..|r|] && AllSpace(s[|r|..])
    ensures r == [] || !IsSpace(r[|r| - 1])
  {
    s[..|s| - TrailingSpace(s)]
  }

  /** `s` has no white space at either end. */
  predicate Trimmed(s: string) {
    s == [] || (!IsSpace(s[0]) && !IsSpace(s[|s| - 1]))
  }

  /** `s.trim()`: the slice of `s` left when the white space at both ends
      is removed. */
  function Trim(s: string): (r: string)
    ensures Trimmed(r)
    ensures exists i :: 0 <= i <= i + |r| <= |s| && r == s[i..i + |r|]
                        && AllSpace(s[..i]) && AllSpace(s[i + |r|..])
  {
    var t := TrimStart(s);
    var r := TrimEnd(t);
    var i := |s| - |t|;
    assert r == s[i..i + |r|];
    assert s[i + |r|..] == t[|r|..];
    assert AllSpace(s[..i]) && AllSpace(s[i + |r|..]);
    r
  }

  /** A string without white space at either end is its own trim. */
  lemma TrimKeepsTrimmed(s: string)
    requires Trimmed(s)
    ensures Trim(s) == s
  {
    assert TrimStart(s) == s && TrimEnd(s) == s;
  }

  /** Trimming only removes characters. */
  lemma TrimWithin(s: string, c: char)
    requires c in Trim(s)
    ensures c in s
  {
    var t := TrimStart(s);
    var r := TrimEnd(t);
    assert Trim(s) == r;
    var k :| 0 <= k < |r| && r[k] == c;
    assert t[k] == c;
    assert s[|s| - |t| + k] == c;
  }

  /** The value of `c` as a digit in base `radix` (10 or 16), if it is one. */
  function DigitValue(c: char, radix: nat): Option<nat> {
    if '0' <= c <= '9' then Some(c as int - '0' as int)
    else if radix == 16 && 'a' <= c <= 'f' then Some(c as int - 'a' as int + 10)
    else if radix == 16 && 'A' <= c <= 'F' then Some(c as int - 'A' as int + 10)
    else None
  }

  /** The length of the longest prefix of `s` made of base-`radix` digits. */
  function DigitRun(s: string, radix: nat): (n: nat)
    ensures n <= |s|
  {
    if s != [] && DigitValue(s[0], radix).Some? then 1 + DigitRun(s[1..], radix) else 0
  }

  /** The number the digits `ds` denote in base `radix`. */
  function DigitsValue(ds: string, radix: nat): nat {
    if ds == [] then 0
    else DigitsValue(ds[..|ds| - 1], radix) * radix + DigitValue(ds[|ds| - 1], radix).GetOr(0)
  }

  /** `parseInt(s)` with no radix: leading white space is skipped, then an
      optional sign, then a `0x`/`0X` prefix switches to base 16, and the
      longest run of digits that follows is read. `None` stands for NaN,
      the result when that run is empty. */
  function ParseInt(s: string): (r: Option<int>)
    ensures TrimStart(s) == [] ==> r == None
    ensures r.Some? && r.value < 0 ==> TrimStart(s)[0] == '-'
  {
    Signed(TrimStart(s))
  }

  /** The sign stage of `parseInt`, after the white space: an optional `-`
      or `+`, then the unsigned stage. */
  function Signed(t: string): (r: Option<int>)
    ensures t == [] ==> r == None
    ensures r.Some? && r.value < 0 ==> t[0] == '-'
    ensures t != [] && t[0] != '-' && t[0] != '+' ==> r == Magnitude(t)
  {
    var negative := t != [] && t[0] == '-';
    var u := if t != [] && (t[0] == '-' || t[0] == '+') then t[1..] else t;
    match Magnitude(u)
    case None => None
    case Some(v) =>
      var x: int := v;
      Some(if negative then -x else x)
  }

  /** The unsigned part of `parseInt`: a `0x`/`0X` prefix switches to base
      16, then the longest run of digits is read; `None` when it is empty. */
  function Magnitude(u: string): (r: Option<nat>)
    ensures u == [] || !IsDecimalDigit(u[0]) ==> r == None
  {
    var hex := |u| >= 2 && u[0] == '0' && (u[1] == 'x' || u[1] == 'X');
    var radix := if hex then 16 else 10;
    var digits := if hex then u[2..] else u;
    var n := DigitRun(digits, radix);
    if n == 0 then None else Some(DigitsValue(digits[..n], radix))
  }

  predicate IsDecimalDigit(c: char) {
    '0' <= c <= '9'
  }

  /** The decimal text of `n`, as a template literal `${n}` writes it. */
  function Decimal(n: nat): (r: string)
    ensures |r| >= 1 && forall i :: 0 <= i < |r| ==> IsDecimalDigit(r[i])
  {
    var d := ('0' as int + n % 10) as char;
    if n < 10 then [d] else Decimal(n / 10) + [d]
  }

  lemma {:induction false} DigitRunOfDigits(s: string)
    requires forall i :: 0 <= i < |s| ==> IsDecimalDigit(s[i])
    ensures DigitRun(s, 10) == |s|
  {
    if s != [] {
      DigitRunOfDigits(s[1..]);
    }
  }

  lemma {:induction false} DecimalValue(n: nat)
    ensures DigitsValue(Decimal(n), 10) == n
    decreases n
  {
    var d := ('0' as int + n % 10) as char;
    assert DigitValue(d, 10) == Some(n % 10);
    if n >= 10 {
      DecimalValue(n / 10);
      var s := Decimal(n);
      assert s[..|s| - 1] == Decimal(n / 10);
    }
  }

  /** `parseInt` reads back the decimal text of every natural number. */
  lemma ParseIntDecimal(n: nat)
    ensures ParseInt(Decimal(n)) == Some(n)
  {
    var s := Decimal(n);
    assert LeadingSpace(s) == 0 by {
      assert !IsSpace(s[0]);
    }
    assert TrimStart(s) == s;
    assert s[0] != '-' && s[0] != '+';
    MagnitudeDecimal(n);
  }

  /** The unsigned stage reads the decimal text of `n` back as `n`. */
  lemma MagnitudeDecimal(n: nat)
    ensures Magnitude(Decimal(n)) == Some(n)
  {
    MagnitudeOfDigits(Decimal(n));
    DecimalValue(n);
  }

  /** A nonempty run of decimal digits is read whole, in base 10. */
  lemma MagnitudeOfDigits(s: string)
    requires |s| >= 1 && forall i :: 0 <= i < |s| ==> IsDecimalDigit(s[i])
    ensures Magnitude(s) == Some(DigitsValue(s, 10))
  {
    assert |s| >= 2 ==> !IsDecimalDigit('x') && !IsDecimalDigit('X') && IsDecimalDigit(s[1]);
    DigitRunOfDigits(s);
    assert s[..|s|] == s;
  }

  /** The text of an integer, as a template literal `${i}` writes it: a
      minus sign before the digits of a negative number. */
  function IntText(i: int): (r: string)
    ensures |r| >= 1 && (r[0] == '-' <==> i < 0)
    ensures i >= 0 ==> r == Decimal(i)
  {
    if i < 0 then "-" + Decimal(-i) else Decimal(i)
  }

  /** `parseInt` reads back the text of every integer. */
  lemma ParseIntText(i: int)
    ensures ParseInt(IntText(i)) == Some(i)
  {
    if i >= 0 {
      ParseIntDecimal(i);
    } else {
      var s := IntText(i);
      assert LeadingSpace(s) == 0 by {
        assert !IsSpace(s[0]);
      }
      assert TrimStart(s) == s;
      assert s[1..] == Decimal(-i);
      MagnitudeDecimal(-i);
    }
  }

  /** White space in front adds to the leading run. */
  lemma {:induction false} LeadingSpaceAppend(w: string, s: string)
    requires AllSpace(w)
    ensures LeadingSpace(w + s) == |w| + LeadingSpace(s)
  {
    if w != [] {
      assert (w + s)[0] == w[0] && IsSpace(w[0]);
      assert (w + s)[1..] == w[1..] + s;
      LeadingSpaceAppend(w[1..], s);
    } else {
      assert w + s == s;
    }
  }

  /** `parseInt` skips leading white space: it reads `w + s` as it reads
      `s`, so `" 12"` reaches the same task as `"12"`. */
  lemma ParseIntSkipsSpace(w: string, s: string)
    requires AllSpace(w)
    ensures ParseInt(w + s) == ParseInt(s)
  {
    LeadingSpaceAppend(w, s);
    assert (w + s)[|w| + LeadingSpace(s)..] == s[LeadingSpace(s)..];
    assert TrimStart(w + s) == TrimStart(s);
  }

  /** The digit run of `d + rest` is `d` when `rest` does not go on with a
      digit. */
  lemma {:induction false} DigitRunPrefix(d: string, rest: string)
    requires forall i :: 0 <= i < |d| ==> IsDecimalDigit(d[i])
    requires rest == [] || !IsDecimalDigit(rest[0])
    ensures DigitRun(d + rest, 10) == |d|
  {
    if d != [] {
      assert (d + rest)[0] == d[0];
      assert (d + rest)[1..] == d[1..] + rest;
      DigitRunPrefix(d[1..], rest);
    } else {
      assert d + rest == rest;
    }
  }

  /** The unsigned stage reads the leading digits and ignores what follows
      them, except that `0x`/`0X` switches to base 16. */
  lemma MagnitudePrefix(d: string, rest: string)
    requires |d| >= 1 && forall i :: 0 <= i < |d| ==> IsDecimalDigit(d[i])
    requires rest == [] || !IsDecimalDigit(rest[0])
    requires !(d == "0" && rest != [] && (rest[0] == 'x' || rest[0] == 'X'))
    ensures Magnitude(d + rest) == Some(DigitsValue(d, 10))
  {
    var u := d + rest;
    assert u[0] == d[0];
    assert |u| >= 2 ==> !(u[0] == '0' && (u[1] == 'x' || u[1] == 'X')) by {
      if |u| >= 2 && |d| >= 2 {
        assert u[1] == d[1];
      } else if |u| >= 2 {
        assert u[1] == rest[0];
        assert d == [d[0]];
      }
    }
    DigitRunPrefix(d, rest);
    assert u[..|d|] == d;
  }

  /** `parseInt` of white space, digits and then anything else that does
      not continue the number reads the digits: `"12abc"` and `" 12"` both
      reach task 12. */
  lemma ParseIntLeadingNumber(w: string, d: string, rest: string)
    requires AllSpace(w)
    requires |d| >= 1 && forall i :: 0 <= i < |d| ==> IsDecimalDigit(d[i])
    requires rest == [] || !IsDecimalDigit(rest[0])
    requires !(d == "0" && rest != [] && (rest[0] == 'x' || rest[0] == 'X'))
    ensures ParseInt(w + (d + rest)) == Some(DigitsValue(d, 10))
  {
    var u := d + rest;
    calc {
      ParseInt(w + u);
      { ParseIntSkipsSpace(w, u); }
      ParseInt(u);
      { ParseIntDigitsFirst(d, rest); }
      Some(DigitsValue(d, 10));
    }
  }

  /** `parseInt` of a text that starts with its digits. */
  lemma ParseIntDigitsFirst(d: string, rest: string)
    requires |d| >= 1 && forall i :: 0 <= i < |d| ==> IsDecimalDigit(d[i])
    requires rest == [] || !IsDecimalDigit(rest[0])
    requires !(d == "0" && rest != [] && (rest[0] == 'x' || rest[0] == 'X'))
    ensures ParseInt(d + rest) == Some(DigitsValue(d, 10))
  {
    var u := d + rest;
    assert IsDecimalDigit(u[0]) by {
      assert u[0] == d[0];
    }
    TrimStartDigit(u);
    MagnitudePrefix(d, rest);
  }

  /** A text that starts with a digit has no white space to skip. */
  lemma TrimStartDigit(u: string)
    requires u != [] && IsDecimalDigit(u[0])
    ensures TrimStart(u) == u
  {
    assert !IsSpace(u[0]);
  }

  /** A text with no decimal digit parses as NaN. */
  lemma ParseIntNoDigits(s: string)
    requires forall i :: 0 <= i < |s| ==> !IsDecimalDigit(s[i])
    ensures ParseInt(s) == None
  {
    var t := TrimStart(s);
    assert forall i :: 0 <= i < |t| ==> t[i] == s[|s| - |t| + i];
    var u := if t != [] && (t[0] == '-' || t[0] == '+') then t[1..] else t;
    assert forall i :: 0 <= i < |u| ==> !IsDecimalDigit(u[i]);
    assert Magnitude(u) == None;
  }
}
