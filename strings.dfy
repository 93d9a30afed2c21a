/** The JavaScript string operations the core relies on, restricted to ASCII
    case and ASCII whitespace: `toLowerCase`, `trim`, `split`, `parseInt`,
    `String(n)`, `padStart(2, '0')` and `includes`. */
module Strings {
  import opened Common

  /** ASCII whitespace (space, tab, line feed, vertical tab, form feed,
      carriage return): the part of JavaScript's `\s` class modelled here. */
  predicate IsSpace(c: char) { c == ' ' || 9 <= c as int <= 13 }

  predicate IsDigit(c: char) { '0' <= c <= '9' }

  predicate IsUpper(c: char) { 'A' <= c <= 'Z' }

  predicate IsLetter(c: char) { 'a' <= c <= 'z' || IsUpper(c) }

  /** The Thai block, U+0E00 to U+0E7F. */
  predicate IsThai(c: char) { 0x0E00 <= c as int <= 0x0E7F }

  function LowerChar(c: char): (d: char)
    ensures !IsUpper(d)
    ensures !IsUpper(c) ==> d == c
    ensures IsSpace(d) <==> IsSpace(c)
  {
    if IsUpper(c) then (c as int + 32) as char else c
  }

  /** `toLowerCase` on ASCII letters; every other character is kept. */
  function Lower(s: string): (r: string)
    ensures |r| == |s|
    ensures forall i :: 0 <= i < |s| ==> r[i] == LowerChar(s[i])
  {
    seq(|s|, i requires 0 <= i < |s| => LowerChar(s[i]))
  }

  /** Drops the leading whitespace. */
  function TrimLeft(s: string): (r: string)
    ensures |r| <= |s| && r == s[|s| - |r|..]
    ensures r == [] || !IsSpace(r[0])
    ensures forall i :: 0 <= i < |s| - |r| ==> IsSpace(s[i])
    decreases |s|
  {
    if s != [] && IsSpace(s[0]) then TrimLeft(s[1..]) else s
  }

  /** Drops the trailing whitespace. */
  function TrimRight(s: string): (r: string)
    ensures |r| <= |s| && r == s[..|r|]
    ensures r == [] || !IsSpace(r[|r| - 1])
    ensures forall i :: |r| <= i < |s| ==> IsSpace(s[i])
    decreases |s|
  {
    if s != [] && IsSpace(s[|s| - 1]) then TrimRight(s[..|s| - 1]) else s
  }

  /** `trim()`: the longest infix that neither starts nor ends with whitespace. */
  function Trim(s: string): (r: string)
    ensures r == [] || (!IsSpace(r[0]) && !IsSpace(r[|r| - 1]))
    ensures exists k :: OccursAt(s, r, k)
    ensures forall i :: 0 <= i < |r| ==> r[i] in s
    ensures exists i, j ::
              && 0 <= i <= j <= |s| && r == s[i..j]
              && (forall k :: 0 <= k < i ==> IsSpace(s[k]))
              && (forall k :: j <= k < |s| ==> IsSpace(s[k]))
  {
    var l := TrimLeft(s);
    var r := TrimRight(l);
    TrimInfix(s, l, r);
    TrimCut(s, l, r);
    r
  }

  lemma TrimCut(s: string, l: string, r: string)
    requires |l| <= |s| && l == s[|s| - |l|..]
    requires forall k :: 0 <= k < |s| - |l| ==> IsSpace(s[k])
    requires |r| <= |l| && r == l[..|r|]
    requires forall k :: |r| <= k < |l| ==> IsSpace(l[k])
    ensures exists i, j ::
              && 0 <= i <= j <= |s| && r == s[i..j]
              && (forall k :: 0 <= k < i ==> IsSpace(s[k]))
              && (forall k :: j <= k < |s| ==> IsSpace(s[k]))
  {
    var i, j := TrimSlice(s, l, r);
  }

  /** `trim()` cuts the text at `i` and `j`: what lies before `i` and from
      `j` on is whitespace. */
  lemma TrimParts(s: string) returns (i: int, j: int)
    ensures 0 <= i <= j <= |s| && Trim(s) == s[i..j]
    ensures forall k :: 0 <= k < i ==> IsSpace(s[k])
    ensures forall k :: j <= k < |s| ==> IsSpace(s[k])
  {
    var l := TrimLeft(s);
    i, j := TrimSlice(s, l, TrimRight(l));
  }

  lemma TrimSlice(s: string, l: string, r: string) returns (i: int, j: int)
    requires |l| <= |s| && l == s[|s| - |l|..]
    requires forall k :: 0 <= k < |s| - |l| ==> IsSpace(s[k])
    requires |r| <= |l| && r == l[..|r|]
    requires forall k :: |r| <= k < |l| ==> IsSpace(l[k])
    ensures 0 <= i <= j <= |s| && r == s[i..j]
    ensures forall k :: 0 <= k < i ==> IsSpace(s[k])
    ensures forall k :: j <= k < |s| ==> IsSpace(s[k])
  {
    i := |s| - |l|;
    j := i + |r|;
    forall k | j <= k < |s|
      ensures IsSpace(s[k])
    {
      assert s[k] == l[k - i];
    }
  }

  lemma TrimInfix(s: string, l: string, r: string)
    requires |l| <= |s| && l == s[|s| - |l|..]
    requires |r| <= |l| && r == l[..|r|]
    requires l == [] || !IsSpace(l[0])
    ensures r == [] || !IsSpace(r[0])
    ensures OccursAt(s, r, |s| - |l|)
    ensures forall i :: 0 <= i < |r| ==> r[i] in s
  {
    var off := |s| - |l|;
    forall i | 0 <= i < |r|
      ensures r[i] == s[off + i]
    {
      assert r[i] == l[i];
    }
    assert s[off..off + |r|] == r;
    forall i | 0 <= i < |r|
      ensures r[i] in s
    {
      assert s[off + i] in s;
    }
  }

  /** `needle` occurs in `hay` starting at index `i`. */
  predicate OccursAt(hay: string, needle: string, i: int)
  {
    0 <= i <= |hay| - |needle| && hay[i..i + |needle|] == needle
  }

  /** `split(sep)` with a one-character separator. */
  function Split(s: string, sep: char): (parts: seq<string>)
    ensures |parts| >= 1
    ensures forall i :: 0 <= i < |parts| ==> sep !in parts[i]
    decreases |s|
  {
    if s == [] then [[]]
    else
      assert s == [s[0]] + s[1..];
      var rest := Split(s[1..], sep);
      if s[0] == sep then [[]] + rest else [[s[0]] + rest[0]] + rest[1..]
  }

  /** There is one piece more than there are separators. */
  lemma {:induction false} SplitCount(s: string, sep: char)
    ensures |Split(s, sep)| == multiset(s)[sep] + 1
    decreases |s|
  {
    if s != [] {
      SplitCount(s[1..], sep);
      assert s == [s[0]] + s[1..];
      assert multiset(s) == multiset{s[0]} + multiset(s[1..]);
    }
  }

  /** `parts.join(sep)`. */
  function Join(parts: seq<string>, sep: char): string
    requires |parts| >= 1
    decreases |parts|
  {
    if |parts| == 1 then parts[0] else parts[0] + [sep] + Join(parts[1..], sep)
  }

  lemma JoinCons(a: string, rest: seq<string>, sep: char)
    requires |rest| >= 1
    ensures Join([a] + rest, sep) == a + [sep] + Join(rest, sep)
  {
    assert ([a] + rest)[1..] == rest;
  }

  lemma JoinExtendHead(c: char, rest: seq<string>, sep: char)
    requires |rest| >= 1
    ensures Join([[c] + rest[0]] + rest[1..], sep) == [c] + Join(rest, sep)
  {
    if |rest| > 1 {
      JoinCons([c] + rest[0], rest[1..], sep);
      assert [rest[0]] + rest[1..] == rest;
      JoinCons(rest[0], rest[1..], sep);
    }
  }

  /** Splitting loses nothing: joining the pieces back gives the original text. */
  lemma {:induction false} SplitJoin(s: string, sep: char)
    ensures Join(Split(s, sep), sep) == s
    decreases |s|
  {
    if s != [] {
      var rest := Split(s[1..], sep);
      SplitJoin(s[1..], sep);
      if s[0] == sep {
        assert Join(Split(s, sep), sep) == [sep] + Join(rest, sep) by {
          assert Split(s, sep) == [[]] + rest;
          JoinCons([], rest, sep);
        }
      } else {
        assert Join(Split(s, sep), sep) == [s[0]] + Join(rest, sep) by {
          assert Split(s, sep) == [[s[0]] + rest[0]] + rest[1..];
          JoinExtendHead(s[0], rest, sep);
        }
      }
      assert s == [s[0]] + s[1..];
    }
  }

  lemma {:induction false} SplitNoSeparator(a: string, sep: char)
    requires sep !in a
    ensures Split(a, sep) == [a]
    decreases |a|
  {
    if a != [] {
      SplitNoSeparator(a[1..], sep);
      assert a == [a[0]] + a[1..];
    }
  }

  lemma {:induction false} SplitAtSeparator(a: string, b: string, sep: char)
    requires sep !in a
    ensures Split(a + [sep] + b, sep) == [a] + Split(b, sep)
    decreases |a|
  {
    var s := a + [sep] + b;
    if a == [] {
      assert s == [sep] + b;
      assert s[1..] == b;
    } else {
      assert s[1..] == a[1..] + [sep] + b;
      SplitAtSeparator(a[1..], b, sep);
      assert [s[0]] + a[1..] == a;
    }
  }

  /** Joining pieces that do not contain the separator and splitting the
      result gives the pieces back. */
  lemma {:induction false} JoinSplit(parts: seq<string>, sep: char)
    requires |parts| >= 1
    requires forall i :: 0 <= i < |parts| ==> sep !in parts[i]
    ensures Split(Join(parts, sep), sep) == parts
    decreases |parts|
  {
    if |parts| == 1 {
      SplitNoSeparator(parts[0], sep);
    } else {
      JoinSplit(parts[1..], sep);
      SplitAtSeparator(parts[0], Join(parts[1..], sep), sep);
      assert [parts[0]] + parts[1..] == parts;
    }
  }

  /** The longest prefix of decimal digits. */
  function DigitRun(s: string): (r: string)
    ensures |r| <= |s| && r == s[..|r|]
    ensures forall i :: 0 <= i < |r| ==> IsDigit(r[i])
    ensures |r| < |s| ==> !IsDigit(s[|r|])
    decreases |s|
  {
    if s != [] && IsDigit(s[0]) then [s[0]] + DigitRun(s[1..]) else []
  }

  function DigitValue(c: char): nat
    requires IsDigit(c)
  {
    c as int - '0' as int
  }

  /** The value of a string of decimal digits. */
  function DigitsValue(d: string): nat
    requires forall i :: 0 <= i < |d| ==> IsDigit(d[i])
    decreases |d|
  {
    if d == [] then 0 else DigitsValue(d[..|d| - 1]) * 10 + DigitValue(d[|d| - 1])
  }

  /** The value of the longest run of leading digits; `None` when there is none. */
  function ReadDigits(t: string): Option<int>
  {
    var d := DigitRun(t);
    if d == [] then None else Some(DigitsValue(d))
  }

  predicate IsHexDigit(c: char) { IsDigit(c) || 'a' <= c <= 'f' || 'A' <= c <= 'F' }

  function HexDigitValue(c: char): (v: nat)
    requires IsHexDigit(c)
    ensures v < 16
    ensures IsDigit(c) ==> v == DigitValue(c)
  {
    if IsDigit(c) then DigitValue(c)
    else if 'a' <= c <= 'f' then c as int - 'a' as int + 10
    else c as int - 'A' as int + 10
  }

  /** The longest prefix of hexadecimal digits. */
  function HexRun(s: string): (r: string)
    ensures |r| <= |s| && r == s[..|r|]
    ensures forall i :: 0 <= i < |r| ==> IsHexDigit(r[i])
    ensures |r| < |s| ==> !IsHexDigit(s[|r|])
    decreases |s|
  {
    if s != [] && IsHexDigit(s[0]) then [s[0]] + HexRun(s[1..]) else []
  }

  /** The value of a string of hexadecimal digits. */
  function HexValue(d: string): nat
    requires forall i :: 0 <= i < |d| ==> IsHexDigit(d[i])
    decreases |d|
  {
    if d == [] then 0 else HexValue(d[..|d| - 1]) * 16 + HexDigitValue(d[|d| - 1])
  }

  /** The value of the longest run of leading hexadecimal digits; `None`
      when there is none. */
  function ReadHex(t: string): Option<int>
  {
    var d := HexRun(t);
    if d == [] then None else Some(HexValue(d))
  }

  /** The unsigned part of `parseInt` without a radix: after a `0x` or `0X`
      prefix the digits are hexadecimal, otherwise decimal. */
  function ReadNumber(t: string): Option<int>
  {
    if |t| >= 2 && t[0] == '0' && (t[1] == 'x' || t[1] == 'X') then ReadHex(t[2..])
    else ReadDigits(t)
  }

  /** `parseInt(s)` with no radix: leading whitespace is skipped, one sign is
      accepted, then the longest run of digits is read, hexadecimal after a
      `0x` or `0X` prefix and decimal otherwise; `None` is `NaN`. */
  function ParseInt(s: string): Option<int>
  {
    var t := TrimLeft(s);
    if t != [] && t[0] == '-' then
      match ReadNumber(t[1..])
      case None => None
      case Some(v) => Some(-v)
    else if t != [] && t[0] == '+' then ReadNumber(t[1..])
    else ReadNumber(t)
  }

  function DigitChar(n: nat): (c: char)
    requires n < 10
    ensures IsDigit(c) && DigitValue(c) == n
  {
    ('0' as int + n) as char
  }

  /** `String(n)` for a natural number. */
  function NatToString(n: nat): (r: string)
    ensures |r| >= 1 && forall i :: 0 <= i < |r| ==> IsDigit(r[i])
    decreases n
  {
    if n < 10 then [DigitChar(n)] else NatToString(n / 10) + [DigitChar(n % 10)]
  }

  /** `String(n)` for an integer. */
  function IntToString(n: int): string
  {
    if n < 0 then "-" + NatToString(-n) else NatToString(n)
  }

  lemma {:induction false} NatToStringValue(n: nat)
    ensures DigitsValue(NatToString(n)) == n
    decreases n
  {
    if n >= 10 {
      NatToStringValue(n / 10);
      var r := NatToString(n);
      assert r[..|r| - 1] == NatToString(n / 10);
    }
  }

  lemma DigitRunAll(s: string)
    requires forall i :: 0 <= i < |s| ==> IsDigit(s[i])
    ensures DigitRun(s) == s
  {
  }

  /** A run of digits reads back as its value. */
  lemma ParseDigits(d: string)
    requires |d| >= 1 && forall i :: 0 <= i < |d| ==> IsDigit(d[i])
    ensures ParseInt(d) == Some(DigitsValue(d))
  {
    TrimLeftNoSpace(d);
    ReadAllDigits(d);
  }

  lemma TrimLeftNoSpace(s: string)
    requires s != [] && !IsSpace(s[0])
    ensures TrimLeft(s) == s
  {
  }

  lemma ReadAllDigits(d: string)
    requires |d| >= 1 && forall i :: 0 <= i < |d| ==> IsDigit(d[i])
    ensures ReadDigits(d) == Some(DigitsValue(d))
    ensures ReadNumber(d) == Some(DigitsValue(d))
  {
    DigitRunAll(d);
  }

  lemma ParseMinus(d: string, v: int)
    requires ReadNumber(d) == Some(v)
    ensures ParseInt("-" + d) == Some(-v)
  {
    var s := "-" + d;
    assert s[0] == '-' && s[1..] == d;
    TrimLeftNoSpace(s);
  }

  /** A printed natural number reads back as itself. */
  lemma ReadNatToString(m: nat)
    ensures ReadNumber(NatToString(m)) == Some(m)
  {
    ReadAllDigits(NatToString(m));
    NatToStringValue(m);
  }

  /** `parseInt(String(n)) === n`: reading back a printed integer gives the integer. */
  lemma ParseIntToString(n: int)
    ensures ParseInt(IntToString(n)) == Some(n)
  {
    if n < 0 {
      ReadNatToString(-n);
      ParseMinus(NatToString(-n), -n);
    } else {
      var d := NatToString(n);
      ParseDigits(d);
      NatToStringValue(n);
    }
  }

  lemma HexRunAll(s: string)
    requires forall i :: 0 <= i < |s| ==> IsHexDigit(s[i])
    ensures HexRun(s) == s
  {
  }

  /** `parseInt("0x" + h)` reads the hexadecimal digits `h`, and so does the
      upper-case prefix `0X`. */
  lemma ParseHex(h: string, x: char)
    requires x == 'x' || x == 'X'
    requires |h| >= 1 && forall i :: 0 <= i < |h| ==> IsHexDigit(h[i])
    ensures ParseInt(['0', x] + h) == Some(HexValue(h))
  {
    var s := ['0', x] + h;
    TrimLeftNoSpace(s);
    assert s[2..] == h;
    HexRunAll(h);
  }

  /** `padStart(2, '0')`. */
  function Pad2(s: string): (r: string)
    ensures |r| == if |s| < 2 then 2 else |s|
    ensures r[|r| - |s|..] == s
    ensures forall i :: 0 <= i < |r| - |s| ==> r[i] == '0'
  {
    if |s| == 0 then "00" else if |s| == 1 then "0" + s else s
  }

  /** `hay.includes(needle)`. */
  predicate Contains(hay: string, needle: string)
    decreases |hay|
  {
    needle <= hay || (hay != [] && Contains(hay[1..], needle))
  }

  /** `includes` finds exactly the occurrences of `needle` as a contiguous piece of `hay`. */
  lemma {:induction false} ContainsIff(hay: string, needle: string)
    ensures Contains(hay, needle) <==> exists i :: OccursAt(hay, needle, i)
    decreases |hay|
  {
    if needle <= hay {
      assert OccursAt(hay, needle, 0);
    } else if hay != [] {
      ContainsIff(hay[1..], needle);
      if Contains(hay[1..], needle) {
        var i :| OccursAt(hay[1..], needle, i);
        assert hay[1..][i..i + |needle|] == hay[i + 1..i + 1 + |needle|];
        assert OccursAt(hay, needle, i + 1);
      }
      if exists i :: OccursAt(hay, needle, i) {
        var i :| OccursAt(hay, needle, i);
        if i > 0 {
          assert hay[1..][i - 1..i - 1 + |needle|] == hay[i..i + |needle|];
          assert OccursAt(hay[1..], needle, i - 1);
        }
      }
    }
  }
}
