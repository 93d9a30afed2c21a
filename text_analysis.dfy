/** Similarity of free-text maintenance notes: edit distance, normalisation,
    tokenisation, nearest matches, greedy clustering and the choice of a
    representative text (the `TextAnalyzer` class). */
module TextAnalysis {
  import opened Common
  import opened Strings
  import opened Sequences

  // ---------------------------------------------------------------------
  // Edit distance

  function Min3(a: nat, b: nat, c: nat): (r: nat)
    ensures r <= a && r <= b && r <= c
    ensures r == a || r == b || r == c
  {
    Min(Min(a, b), c)
  }

  /** The Levenshtein distance between the prefixes `s[..i]` and `t[..j]`:
      the least number of single-character insertions, deletions and
      substitutions turning one into the other, by the recurrence the
      dynamic-programming table follows. */
  function EditDistance(s: string, t: string, i: nat, j: nat): nat
    requires i <= |s| && j <= |t|
    decreases i + j
  {
    if i == 0 then j
    else if j == 0 then i
    else
      Min3(EditDistance(s, t, i - 1, j) + 1,
           EditDistance(s, t, i, j - 1) + 1,
           EditDistance(s, t, i - 1, j - 1) + (if s[i - 1] == t[j - 1] then 0 else 1))
  }

  /** The Levenshtein distance between two whole texts. */
  function Dist(s: string, t: string): nat
  {
    EditDistance(s, t, |s|, |t|)
  }

  /** Rows `0..i-1` of the table hold the distances between prefixes. */
  ghost predicate RowsFilled(m: array2<nat>, s: string, t: string, i: nat)
    reads m
    requires m.Length0 == |s| + 1 && m.Length1 == |t| + 1 && i <= |s| + 1
  {
    forall a, b {:trigger m[a, b]} :: 0 <= a < i && 0 <= b <= |t| ==> m[a, b] == EditDistance(s, t, a, b)
  }

  /** Fills row `i` of the table from row `i - 1` and its own first cell. */
  method FillRow(m: array2<nat>, s: string, t: string, i: nat)
    requires m.Length0 == |s| + 1 && m.Length1 == |t| + 1 && 1 <= i <= |s|
    requires RowsFilled(m, s, t, i) && m[i, 0] == i
    modifies m
    ensures RowsFilled(m, s, t, i + 1)
    ensures forall a :: i < a <= |s| ==> m[a, 0] == old(m[a, 0])
  {
    for j := 1 to |t| + 1
      invariant RowsFilled(m, s, t, i)
      invariant forall b {:trigger m[i, b]} :: 0 <= b < j ==> m[i, b] == EditDistance(s, t, i, b)
      invariant forall a :: i < a <= |s| ==> m[a, 0] == old(m[a, 0])
    {
      var cost := if s[i - 1] == t[j - 1] then 0 else 1;
      var v := Min3(m[i - 1, j] + 1, m[i, j - 1] + 1, m[i - 1, j - 1] + cost);
      assert v == EditDistance(s, t, i, j) by {
        assert m[i - 1, j] == EditDistance(s, t, i - 1, j);
        assert m[i - 1, j - 1] == EditDistance(s, t, i - 1, j - 1);
      }
      m[i, j] := v;
    }
  }

  /** `levenshteinDistance`: fills the (|s|+1) x (|t|+1) table row by row. */
  method LevenshteinDistance(s: string, t: string) returns (d: nat)
    ensures d == Dist(s, t)
  {
    var m := new nat[|s| + 1, |t| + 1];
    for i := 0 to |s| + 1
      invariant forall a :: 0 <= a < i ==> m[a, 0] == a
    {
      m[i, 0] := i;
    }
    for j := 0 to |t| + 1
      invariant forall b :: 0 <= b < j ==> m[0, b] == b
      invariant forall a :: 1 <= a <= |s| ==> m[a, 0] == a
    {
      m[0, j] := j;
    }
    for i := 1 to |s| + 1
      invariant RowsFilled(m, s, t, i)
      invariant forall a :: i <= a <= |s| ==> m[a, 0] == a
    {
      FillRow(m, s, t, i);
    }
    d := m[|s|, |t|];
  }

  /** Every prefix is at distance 0 from itself. */
  lemma {:induction false} EditDistanceSelf(s: string, i: nat)
    requires i <= |s|
    ensures EditDistance(s, s, i, i) == 0
    decreases i
  {
    if i > 0 {
      EditDistanceSelf(s, i - 1);
    }
  }

  /** Distance 0 between prefixes means they are the same text. */
  lemma {:induction false} EditDistanceZero(s: string, t: string, i: nat, j: nat)
    requires i <= |s| && j <= |t|
    requires EditDistance(s, t, i, j) == 0
    ensures i == j && s[..i] == t[..j]
    decreases i + j
  {
    if i > 0 && j > 0 {
      var c := EditDistance(s, t, i - 1, j - 1) + (if s[i - 1] == t[j - 1] then 0 else 1);
      assert c == 0 by {
        assert EditDistance(s, t, i, j) == Min3(EditDistance(s, t, i - 1, j) + 1, EditDistance(s, t, i, j - 1) + 1, c);
      }
      EditDistanceZero(s, t, i - 1, j - 1);
      assert s[..i] == t[..j] by {
        assert s[..i] == s[..i - 1] + [s[i - 1]];
        assert t[..j] == t[..j - 1] + [t[j - 1]];
      }
    }
  }

  /** The distance is 0 exactly between equal texts. */
  lemma DistZeroIff(s: string, t: string)
    ensures Dist(s, t) == 0 <==> s == t
  {
    if s == t {
      EditDistanceSelf(s, |s|);
    }
    if Dist(s, t) == 0 {
      EditDistanceZero(s, t, |s|, |t|);
      assert s == s[..|s|] && t == t[..|t|];
    }
  }

  /** The distance does not depend on the order of its arguments. */
  lemma {:induction false} EditDistanceSymmetric(s: string, t: string, i: nat, j: nat)
    requires i <= |s| && j <= |t|
    ensures EditDistance(s, t, i, j) == EditDistance(t, s, j, i)
    decreases i + j
  {
    if i == 0 || j == 0 {
      SymmetricBase(s, t, i, j);
    } else {
      assert EditDistance(s, t, i - 1, j) == EditDistance(t, s, j, i - 1) by {
        EditDistanceSymmetric(s, t, i - 1, j);
      }
      assert EditDistance(s, t, i, j - 1) == EditDistance(t, s, j - 1, i) by {
        EditDistanceSymmetric(s, t, i, j - 1);
      }
      assert EditDistance(s, t, i - 1, j - 1) == EditDistance(t, s, j - 1, i - 1) by {
        EditDistanceSymmetric(s, t, i - 1, j - 1);
      }
      SymmetricStep(s, t, i, j);
    }
  }

  lemma SymmetricBase(s: string, t: string, i: nat, j: nat)
    requires i <= |s| && j <= |t| && (i == 0 || j == 0)
    ensures EditDistance(s, t, i, j) == EditDistance(t, s, j, i)
  {
  }

  lemma SymmetricStep(s: string, t: string, i: nat, j: nat)
    requires 0 < i <= |s| && 0 < j <= |t|
    requires EditDistance(s, t, i - 1, j) == EditDistance(t, s, j, i - 1)
    requires EditDistance(s, t, i, j - 1) == EditDistance(t, s, j - 1, i)
    requires EditDistance(s, t, i - 1, j - 1) == EditDistance(t, s, j - 1, i - 1)
    ensures EditDistance(s, t, i, j) == EditDistance(t, s, j, i)
  {
    var a := EditDistance(s, t, i - 1, j) + 1;
    var b := EditDistance(s, t, i, j - 1) + 1;
    var c := EditDistance(s, t, i - 1, j - 1) + (if s[i - 1] == t[j - 1] then 0 else 1);
    assert EditDistance(s, t, i, j) == Min3(a, b, c);
    assert EditDistance(t, s, j, i) == Min3(b, a, c);
  }

  lemma DistSymmetric(s: string, t: string)
    ensures Dist(s, t) == Dist(t, s)
  {
    EditDistanceSymmetric(s, t, |s|, |t|);
  }

  /** A distance between prefixes never exceeds the larger length. */
  lemma {:induction false} EditDistanceUpper(s: string, t: string, i: nat, j: nat)
    requires i <= |s| && j <= |t|
    ensures EditDistance(s, t, i, j) <= Max(i, j)
    decreases i + j
  {
    if i > 0 && j > 0 {
      EditDistanceUpper(s, t, i - 1, j - 1);
      assert EditDistance(s, t, i, j) <= EditDistance(s, t, i - 1, j - 1) + 1;
    }
  }

  /** A distance between prefixes is at least the difference of their lengths. */
  lemma {:induction false} EditDistanceLower(s: string, t: string, i: nat, j: nat)
    requires i <= |s| && j <= |t|
    ensures i - j <= EditDistance(s, t, i, j) && j - i <= EditDistance(s, t, i, j)
    decreases i + j
  {
    if i > 0 && j > 0 {
      EditDistanceLower(s, t, i - 1, j);
      EditDistanceLower(s, t, i, j - 1);
      EditDistanceLower(s, t, i - 1, j - 1);
    }
  }

  /** A distance between prefixes lies between the difference of their
      lengths and the larger length. */
  lemma EditDistanceBounds(s: string, t: string, i: nat, j: nat)
    requires i <= |s| && j <= |t|
    ensures i - j <= EditDistance(s, t, i, j) <= Max(i, j)
    ensures j - i <= EditDistance(s, t, i, j)
  {
    EditDistanceUpper(s, t, i, j);
    EditDistanceLower(s, t, i, j);
  }

  /** The distance from the empty text is the length of the other text, and
      any distance lies between the difference of the lengths and the larger length. */
  lemma DistBounds(s: string, t: string)
    ensures Dist([], t) == |t| && Dist(s, []) == |s|
    ensures Abs(|s| - |t|) <= Dist(s, t) <= Max(|s|, |t|)
  {
    EditDistanceBounds(s, t, |s|, |t|);
  }

  // ---------------------------------------------------------------------
  // Normalisation

  predicate NotSpace(c: char) { !IsSpace(c) }

  /** Replaces every run of whitespace by one space (`replace(/\s+/g, ' ')`). */
  function Collapse(s: string): (r: string)
    ensures r == [] <==> s == []
    ensures forall i :: 0 <= i < |r| ==> r[i] == ' ' || (r[i] in s && !IsSpace(r[i]))
    ensures r != [] ==> (IsSpace(r[|r| - 1]) <==> IsSpace(s[|s| - 1]))
    ensures forall i :: 0 <= i < |r| - 1 ==> !IsSpace(r[i]) || !IsSpace(r[i + 1])
    ensures Filter(r, NotSpace) == Filter(s, NotSpace)
    decreases |s|
  {
    if s == [] then []
    else
      var init := s[..|s| - 1];
      var c := s[|s| - 1];
      assert s == init + [c];
      var rec := Collapse(init);
      FilterAppend(init, c, NotSpace);
      if !IsSpace(c) then
        FilterAppend(rec, c, NotSpace);
        rec + [c]
      else if init != [] && IsSpace(init[|init| - 1]) then rec
      else
        FilterAppend(rec, ' ', NotSpace);
        rec + [' ']
  }

  /** A text without whitespace is left as it is. */
  lemma {:induction false} CollapseNoSpace(s: string)
    requires forall i :: 0 <= i < |s| ==> !IsSpace(s[i])
    ensures Collapse(s) == s
    decreases |s|
  {
    if s != [] {
      var init := s[..|s| - 1];
      assert s == init + [s[|s| - 1]];
      CollapseNoSpace(init);
    }
  }

  /** A run of whitespace after a word (or at the start) becomes one space. */
  lemma {:induction false} CollapseRun(a: string, w: string)
    requires a == [] || !IsSpace(a[|a| - 1])
    requires w != [] && forall i :: 0 <= i < |w| ==> IsSpace(w[i])
    ensures Collapse(a + w) == Collapse(a) + " "
    decreases |w|
  {
    var init := w[..|w| - 1];
    var c := w[|w| - 1];
    assert a + w == (a + init) + [c];
    if init == [] {
      assert a + init == a;
    } else {
      CollapseRun(a, init);
      assert (a + init)[|a + init| - 1] == init[|init| - 1];
    }
  }

  /** What one more character `c` adds to the collapsed text `s`. */
  function CollapseTail(s: string, c: char): string
  {
    if !IsSpace(c) then [c] else if s != [] && IsSpace(s[|s| - 1]) then [] else [' ']
  }

  /** One more character: a word character is appended, and whitespace
      adds a space unless the text already ends in whitespace. */
  lemma CollapseSnoc(s: string, c: char)
    ensures Collapse(s + [c]) == Collapse(s) + CollapseTail(s, c)
  {
    assert (s + [c])[..|s|] == s;
  }

  /** The character `c` adds the same after `init` as after `x + init`. */
  lemma CollapseSnocAfter(x: string, init: string, c: char)
    requires init != [] || !IsSpace(c)
    ensures Collapse(x + (init + [c])) == Collapse(x + init) + CollapseTail(init, c)
    ensures Collapse(init + [c]) == Collapse(init) + CollapseTail(init, c)
  {
    assert x + (init + [c]) == (x + init) + [c];
    assert CollapseTail(x + init, c) == CollapseTail(init, c) by {
      assert init != [] ==> (x + init)[|x + init| - 1] == init[|init| - 1];
    }
    CollapseSnoc(x + init, c);
    CollapseSnoc(init, c);
  }

  /** Text that starts with a non-space character collapses on its own. */
  lemma {:induction false} CollapseAfter(x: string, b: string)
    requires b == [] || !IsSpace(b[0])
    ensures Collapse(x + b) == Collapse(x) + Collapse(b)
    decreases |b|
  {
    if b == [] {
      assert x + b == x;
    } else {
      var init := b[..|b| - 1];
      var c := b[|b| - 1];
      assert b == init + [c];
      CollapseAfter(x, init);
      CollapseSnocAfter(x, init, c);
      ConcatAssoc(Collapse(x), Collapse(init), CollapseTail(init, c));
    }
  }

  /** Between two words, a run of whitespace becomes exactly one space. */
  lemma Collapse3(a: string, w: string, b: string)
    requires a == [] || !IsSpace(a[|a| - 1])
    requires w != [] && forall i :: 0 <= i < |w| ==> IsSpace(w[i])
    requires b == [] || !IsSpace(b[0])
    ensures Collapse(a + w + b) == Collapse(a) + " " + Collapse(b)
  {
    CollapseRun(a, w);
    CollapseAfter(a + w, b);
  }

  /** Trimming removes whitespace only: the other characters stay, in order. */
  lemma TrimNonSpace(s: string)
    ensures Filter(Trim(s), NotSpace) == Filter(s, NotSpace)
  {
    var i, j := TrimParts(s);
    FilterInfix(s, i, j, NotSpace);
  }

  /** The characters the normaliser keeps: Thai, ASCII letters and digits, whitespace. */
  predicate Kept(c: char) { IsThai(c) || IsLetter(c) || IsDigit(c) || IsSpace(c) }

  /** No ASCII capital letter occurs in `s`. */
  ghost predicate NoUpper(s: string)
  {
    forall i :: 0 <= i < |s| ==> !IsUpper(s[i])
  }

  lemma TrimNoUpper(s: string)
    requires NoUpper(s)
    ensures NoUpper(Trim(s))
  {
  }

  lemma CollapseNoUpper(s: string)
    requires NoUpper(s)
    ensures NoUpper(Collapse(s))
    ensures forall i :: 0 <= i < |Collapse(s)| && IsSpace(Collapse(s)[i]) ==> Collapse(s)[i] == ' '
  {
  }

  lemma FilterKept(s: string)
    requires NoUpper(s)
    requires forall i :: 0 <= i < |s| && IsSpace(s[i]) ==> s[i] == ' '
    ensures forall i :: 0 <= i < |Filter(s, Kept)| ==> NormalChar(Filter(s, Kept)[i])
  {
  }

  /** The characters a normalised text is made of: Thai, lower-case ASCII
      letters, digits and the plain space. */
  predicate NormalChar(c: char) { IsThai(c) || 'a' <= c <= 'z' || IsDigit(c) || c == ' ' }

  /** `normalize`: lower-case, trim, collapse whitespace, then strip every
      character that is not Thai, an ASCII letter or digit, or whitespace. */
  function Normalize(text: string): (r: string)
    ensures text == [] ==> r == []
    ensures forall i :: 0 <= i < |r| ==> NormalChar(r[i])
  {
    if text == [] then []
    else
      var l := Lower(text);
      var t := Trim(l);
      TrimNoUpper(l);
      var c := Collapse(t);
      CollapseNoUpper(t);
      FilterKept(c);
      Filter(c, Kept)
  }

  /** Normalising keeps every non-whitespace character of the lower-cased
      text that the normaliser accepts, in order, and no other. */
  lemma NormalizeNonSpace(text: string)
    ensures Filter(Normalize(text), NotSpace) == Filter(Filter(Lower(text), NotSpace), Kept)
  {
    if text != [] {
      var l := Lower(text);
      var t := Trim(l);
      var c := Collapse(t);
      assert Normalize(text) == Filter(c, Kept);
      FilterCommute(c, Kept, NotSpace);
      TrimNonSpace(l);
    }
  }

  lemma LowerPlain(s: string)
    requires NoUpper(s)
    ensures Lower(s) == s
  {
  }

  lemma TrimPlain(s: string)
    requires s != [] && !IsSpace(s[0]) && !IsSpace(s[|s| - 1])
    ensures Trim(s) == s
  {
    assert TrimLeft(s) == s;
    assert TrimRight(s) == s;
  }

  /** Text whose only whitespace is single plain spaces has nothing to collapse. */
  lemma {:induction false} CollapseSingleSpaces(s: string)
    requires forall i :: 0 <= i < |s| && IsSpace(s[i]) ==> s[i] == ' '
    requires forall i :: 0 <= i < |s| - 1 ==> !IsSpace(s[i]) || !IsSpace(s[i + 1])
    ensures Collapse(s) == s
    decreases |s|
  {
    if s != [] {
      var init := s[..|s| - 1];
      var c := s[|s| - 1];
      assert Collapse(init) == init by {
        forall i | 0 <= i < |init| && IsSpace(init[i])
          ensures init[i] == ' '
        {
          assert init[i] == s[i];
        }
        forall i | 0 <= i < |init| - 1
          ensures !IsSpace(init[i]) || !IsSpace(init[i + 1])
        {
          assert init[i] == s[i] && init[i + 1] == s[i + 1];
        }
        CollapseSingleSpaces(init);
      }
      assert IsSpace(c) ==> c == ' ' && (init == [] || !IsSpace(init[|init| - 1])) by {
        if |s| >= 2 {
          assert init[|init| - 1] == s[|s| - 2];
        }
      }
      assert s == init + [c];
    }
  }

  /** A lower-case letter, a spaced dash and another lower-case letter:
      "x - y" for letters x and y. */
  function Dashed(x: char, y: char): string { [x, ' ', '-', ' ', y] }

  /** "x  y", two spaces between the letters. */
  function DoubleSpaced(x: char, y: char): string { [x, ' ', ' ', y] }

  /** "x y", one space between the letters. */
  function Spaced(x: char, y: char): string { [x, ' ', y] }

  predicate LowerLetter(c: char) { 'a' <= c <= 'z' }

  lemma FilterDashedPrefix(x: char)
    requires LowerLetter(x)
    ensures Filter([x, ' ', '-'], Kept) == [x, ' ']
  {
    var a := [x, ' '];
    assert Filter(a, Kept) == a by { FilterAll(a, Kept); }
    assert Filter(a + ['-'], Kept) == a by { FilterAppend(a, '-', Kept); }
    assert a + ['-'] == [x, ' ', '-'];
  }

  lemma FilterDashed(x: char, y: char)
    requires LowerLetter(x) && LowerLetter(y)
    ensures Filter(Dashed(x, y), Kept) == DoubleSpaced(x, y)
  {
    var a := [x, ' ', '-'];
    var b := a + [' '];
    assert Filter(b, Kept) == [x, ' ', ' '] by {
      FilterDashedPrefix(x);
      FilterAppend(a, ' ', Kept);
    }
    assert Filter(b + [y], Kept) == DoubleSpaced(x, y) by { FilterAppend(b, y, Kept); }
    assert b + [y] == Dashed(x, y);
  }

  lemma NormalizeDashed(x: char, y: char)
    requires LowerLetter(x) && LowerLetter(y)
    ensures Normalize(Dashed(x, y)) == DoubleSpaced(x, y)
  {
    var s := Dashed(x, y);
    LowerPlain(s);
    TrimPlain(s);
    CollapseSingleSpaces(s);
    FilterDashed(x, y);
  }

  lemma CollapseDoubleSpaced(x: char, y: char)
    requires LowerLetter(x) && LowerLetter(y)
    ensures Collapse(DoubleSpaced(x, y)) == Spaced(x, y)
  {
    var a := [x, ' '];
    var b := [x, ' ', ' '];
    assert Collapse(a) == a by { CollapseSingleSpaces(a); }
    assert Collapse(b) == a by { assert b[..2] == a; }
    assert Collapse(DoubleSpaced(x, y)) == a + [y] by { assert DoubleSpaced(x, y)[..3] == b; }
    assert a + [y] == Spaced(x, y);
  }

  lemma NormalizeDoubleSpaced(x: char, y: char)
    requires LowerLetter(x) && LowerLetter(y)
    ensures Normalize(DoubleSpaced(x, y)) == Spaced(x, y)
  {
    var s := DoubleSpaced(x, y);
    LowerPlain(s);
    TrimPlain(s);
    CollapseDoubleSpaced(x, y);
    FilterAll(Spaced(x, y), Kept);
  }

  /** Normalising twice can differ from normalising once: in "x - y" the
      dash is removed only after the spaces around it were collapsed, so
      the first pass leaves two spaces that the second pass collapses. */
  lemma NormalizeNotIdempotent(x: char, y: char)
    requires LowerLetter(x) && LowerLetter(y)
    ensures Normalize(Dashed(x, y)) == DoubleSpaced(x, y)
    ensures Normalize(Normalize(Dashed(x, y))) == Spaced(x, y)
    ensures Normalize(Normalize(Dashed(x, y))) != Normalize(Dashed(x, y))
  {
    NormalizeDashed(x, y);
    NormalizeDoubleSpaced(x, y);
  }

  // ---------------------------------------------------------------------
  // Similarity

  /** `similarity`: 0 when either text is empty, otherwise the closeness of
      the normalised texts. */
  function Similarity(a: string, b: string): (r: real)
    ensures 0.0 <= r <= 1.0
    ensures a == [] || b == [] ==> r == 0.0
    ensures r == 1.0 <==> a != [] && b != [] && Normalize(a) == Normalize(b)
  {
    if a == [] || b == [] then 0.0 else Closeness(Normalize(a), Normalize(b))
  }

  /** The non-empty branch of `similarity`: 1 when the normalised texts
      coincide, otherwise one minus their edit distance relative to the
      longer of them. */
  function Closeness(s1: string, s2: string): (r: real)
    ensures 0.0 <= r <= 1.0
    ensures r == 1.0 <==> s1 == s2
  {
    if s1 == s2 then 1.0
    else
      var maxLen := Max(|s1|, |s2|);
      DistZeroIff(s1, s2);
      DistBounds(s1, s2);
      ComplementInRange(Dist(s1, s2), maxLen);
      1.0 - Dist(s1, s2) as real / maxLen as real
  }

  lemma ClosenessSymmetric(s1: string, s2: string)
    ensures Closeness(s1, s2) == Closeness(s2, s1)
  {
    if s1 != s2 {
      DistSymmetric(s1, s2);
      assert Max(|s1|, |s2|) == Max(|s2|, |s1|);
    }
  }

  /** For 0 < d <= m, the value 1 - d/m lies in [0, 1). */
  lemma ComplementInRange(d: nat, m: nat)
    requires 0 < d <= m
    ensures 0.0 <= 1.0 - d as real / m as real < 1.0
  {
    var q := d as real / m as real;
    assert q * m as real == d as real;
    assert 0.0 < q <= 1.0;
  }

  /** A non-empty text is fully similar to itself. */
  lemma SimilaritySelf(a: string)
    requires a != []
    ensures Similarity(a, a) == 1.0
  {
  }

  /** Similarity is symmetric. */
  lemma SimilaritySymmetric(a: string, b: string)
    ensures Similarity(a, b) == Similarity(b, a)
  {
    if a != [] && b != [] {
      ClosenessSymmetric(Normalize(a), Normalize(b));
    }
  }

  /** `similarity` computed through `levenshteinDistance`. */
  method ComputeSimilarity(a: string, b: string) returns (r: real)
    ensures r == Similarity(a, b)
  {
    if a == [] || b == [] {
      return 0.0;
    }
    var s1 := Normalize(a);
    var s2 := Normalize(b);
    if s1 == s2 {
      return 1.0;
    }
    var maxLen := Max(|s1|, |s2|);
    var distance := LevenshteinDistance(s1, s2);
    r := 1.0 - distance as real / maxLen as real;
  }

  // ---------------------------------------------------------------------
  // Tokens

  predicate WordChar(c: char) { IsThai(c) || IsLetter(c) || IsDigit(c) }

  /** The character class of a token: Thai when `thai`, ASCII alphanumeric otherwise. */
  predicate InClass(c: char, thai: bool)
  {
    if thai then IsThai(c) else IsLetter(c) || IsDigit(c)
  }

  /** The length of the longest prefix of `s` inside one class. */
  function RunLength(s: string, thai: bool): (k: nat)
    ensures k <= |s|
    ensures forall i :: 0 <= i < k ==> InClass(s[i], thai)
    ensures k < |s| ==> !InClass(s[k], thai)
    decreases |s|
  {
    if s != [] && InClass(s[0], thai) then 1 + RunLength(s[1..], thai) else 0
  }

  /** The matches of the global pattern "a run of Thai characters or a run of
      ASCII letters and digits", left to right. */
  function Tokens(s: string): (ts: seq<string>)
    ensures forall k :: 0 <= k < |ts| ==> ts[k] != []
    ensures forall k :: 0 <= k < |ts| ==>
      (forall i :: 0 <= i < |ts[k]| ==> IsThai(ts[k][i])) ||
      (forall i :: 0 <= i < |ts[k]| ==> IsLetter(ts[k][i]) || IsDigit(ts[k][i]))
    decreases |s|
  {
    if s == [] then []
    else if WordChar(s[0]) then
      var k := RunLength(s, IsThai(s[0]));
      [s[..k]] + Tokens(s[k..])
    else Tokens(s[1..])
  }

  /** `tokenize`: the tokens of the normalised text. */
  function Tokenize(text: string): (ts: seq<string>)
    ensures forall k :: 0 <= k < |ts| ==> ts[k] != []
    ensures Flatten(ts) == Filter(Normalize(text), WordChar)
  {
    TokensCover(Normalize(text));
    Tokens(Normalize(text))
  }

  function Flatten(ts: seq<string>): string
    decreases |ts|
  {
    if ts == [] then [] else ts[0] + Flatten(ts[1..])
  }

  lemma {:induction false} FilterAll<T>(s: seq<T>, p: T -> bool)
    requires forall i :: 0 <= i < |s| ==> p(s[i])
    ensures Filter(s, p) == s
    decreases |s|
  {
    if s != [] {
      var init := s[..|s| - 1];
      FilterAll(init, p);
      assert s == init + [s[|s| - 1]];
      FilterAppend(init, s[|s| - 1], p);
    }
  }

  lemma FlattenCons(t: string, ts: seq<string>)
    ensures Flatten([t] + ts) == t + Flatten(ts)
  {
    assert ([t] + ts)[1..] == ts;
  }

  /** A leading run of word characters becomes one token. */
  lemma TokensCoverRun(s: string, k: nat)
    requires s != [] && WordChar(s[0]) && k == RunLength(s, IsThai(s[0]))
    requires Flatten(Tokens(s[k..])) == Filter(s[k..], WordChar)
    ensures Flatten(Tokens(s)) == Filter(s, WordChar)
  {
    var run := s[..k];
    assert Flatten(Tokens(s)) == run + Flatten(Tokens(s[k..])) by {
      assert Tokens(s) == [run] + Tokens(s[k..]);
      FlattenCons(run, Tokens(s[k..]));
    }
    assert Filter(s, WordChar) == run + Filter(s[k..], WordChar) by {
      assert s == run + s[k..];
      FilterConcat(run, s[k..], WordChar);
      FilterAll(run, WordChar);
    }
  }

  /** A leading separator is dropped. */
  lemma TokensCoverSkip(s: string)
    requires s != [] && !WordChar(s[0])
    requires Flatten(Tokens(s[1..])) == Filter(s[1..], WordChar)
    ensures Flatten(Tokens(s)) == Filter(s, WordChar)
  {
    assert Filter([s[0]], WordChar) == [] by {
      FilterAppend([], s[0], WordChar);
      assert [] + [s[0]] == [s[0]];
    }
    assert Filter(s, WordChar) == Filter(s[1..], WordChar) by {
      assert s == [s[0]] + s[1..];
      FilterConcat([s[0]], s[1..], WordChar);
    }
  }

  /** The tokens, put back together, are exactly the word characters of the
      text in order: nothing is lost and nothing but separators is dropped. */
  lemma {:induction false} TokensCover(s: string)
    ensures Flatten(Tokens(s)) == Filter(s, WordChar)
    decreases |s|
  {
    if s != [] {
      if WordChar(s[0]) {
        var k := RunLength(s, IsThai(s[0]));
        TokensCover(s[k..]);
        TokensCoverRun(s, k);
      } else {
        TokensCover(s[1..]);
        TokensCoverSkip(s);
      }
    }
  }

  /** A prefix is a maximal run exactly when it is in the class and is
      followed by the end or by a character outside it. */
  lemma RunLengthIs(s: string, thai: bool, k: nat)
    requires k <= |s| && forall i :: 0 <= i < k ==> InClass(s[i], thai)
    requires k < |s| ==> !InClass(s[k], thai)
    ensures RunLength(s, thai) == k
  {
  }

  /** A leading run of word characters is the first token. */
  lemma TokensHead(s: string, k: nat)
    requires s != [] && WordChar(s[0]) && k == RunLength(s, IsThai(s[0]))
    ensures Tokens(s) == [s[..k]] + Tokens(s[k..])
  {
  }

  /** A non-empty run of one class is one token. */
  lemma TokensRun(s: string, thai: bool)
    requires s != [] && forall i :: 0 <= i < |s| ==> InClass(s[i], thai)
    ensures Tokens(s) == [s]
  {
    RunWhole(s, thai);
    TokensHead(s, |s|);
    WholeSlices(s);
    assert Tokens(s[|s|..]) == [];
  }

  lemma RunWhole(s: string, thai: bool)
    requires s != [] && forall i :: 0 <= i < |s| ==> InClass(s[i], thai)
    ensures WordChar(s[0]) && RunLength(s, IsThai(s[0])) == |s|
  {
    assert IsThai(s[0]) == thai by {
      assert InClass(s[0], thai);
    }
    RunLengthIs(s, thai, |s|);
  }

  lemma WholeSlices(s: string)
    ensures s[..|s|] == s && s[|s|..] == [] && [s] + [] == [s]
  {
  }

  /** The text splits into the tokens of its parts wherever the two sides
      cannot continue one run: at a separator or at a change of class. */
  lemma {:induction false} TokensSplit(a: string, b: string)
    requires a == [] || b == [] || !WordChar(a[|a| - 1]) || !InClass(b[0], IsThai(a[|a| - 1]))
    ensures Tokens(a + b) == Tokens(a) + Tokens(b)
    decreases |a|
  {
    if a == [] {
      assert a + b == b;
    } else if !WordChar(a[0]) {
      TokensSplit(a[1..], b);
      TokensSplitSkip(a, b);
    } else {
      var thai := IsThai(a[0]);
      var k := RunLength(a, thai);
      RunLengthOfConcat(a, b, thai);
      TokensSplit(a[k..], b);
      TokensSplitRun(a, b, k);
    }
  }

  lemma TokensSplitSkip(a: string, b: string)
    requires a != [] && !WordChar(a[0])
    requires Tokens(a[1..] + b) == Tokens(a[1..]) + Tokens(b)
    ensures Tokens(a + b) == Tokens(a) + Tokens(b)
  {
    assert (a + b)[1..] == a[1..] + b;
  }

  lemma TokensSplitRun(a: string, b: string, k: nat)
    requires a != [] && WordChar(a[0]) && k == RunLength(a, IsThai(a[0])) == RunLength(a + b, IsThai(a[0]))
    requires Tokens(a[k..] + b) == Tokens(a[k..]) + Tokens(b)
    ensures Tokens(a + b) == Tokens(a) + Tokens(b)
  {
    TokensHead(a, k);
    TokensHead(a + b, k);
    CutInside(a, b, k);
    ConcatAssoc([a[..k]], Tokens(a[k..]), Tokens(b));
  }

  /** A run inside `a` ends where it ends in `a + b` unless it reaches the
      end of `a` and `b` continues it. */
  lemma RunLengthOfConcat(a: string, b: string, thai: bool)
    requires a != [] && WordChar(a[0]) && thai == IsThai(a[0])
    requires b == [] || !WordChar(a[|a| - 1]) || !InClass(b[0], IsThai(a[|a| - 1]))
    ensures RunLength(a + b, thai) == RunLength(a, thai)
  {
    var k := RunLength(a, thai);
    if k == |a| {
      assert InClass(a[|a| - 1], thai);
      assert IsThai(a[|a| - 1]) == thai;
    }
    RunLengthIs(a + b, thai, k);
  }

  /** A character outside both classes separates tokens and is dropped. */
  lemma TokensSeparator(a: string, c: char, b: string)
    requires !WordChar(c)
    ensures Tokens(a + [c] + b) == Tokens(a) + Tokens(b)
  {
    assert a + [c] + b == a + ([c] + b);
    TokensSplit(a, [c] + b);
    assert ([c] + b)[1..] == b;
  }

  // ---------------------------------------------------------------------
  // Nearest texts

  /** One hit of `findSimilarTexts`. */
  datatype SimilarText = SimilarText(text: string, similarity: real, index: nat)

  function SimilarityOf(m: SimilarText): real { m.similarity }

  /** The hits in list order: every text of `list` whose similarity `sim`
      to `target` reaches `threshold`, with that similarity and its index. */
  function Matching(target: string, list: seq<string>, threshold: real, sim: (string, string) -> real): (r: seq<SimilarText>)
    ensures forall k :: 0 <= k < |r| ==>
      r[k].index < |list| && r[k].text == list[r[k].index] &&
      r[k].similarity == sim(target, list[r[k].index]) >= threshold
    ensures forall i :: 0 <= i < |list| && sim(target, list[i]) >= threshold ==>
      exists k :: 0 <= k < |r| && r[k].index == i
    ensures forall a, b :: 0 <= a < b < |r| ==> r[a].index < r[b].index
    decreases |list|
  {
    if list == [] then []
    else
      var n := |list| - 1;
      var init := list[..n];
      var rec := Matching(target, init, threshold, sim);
      assert forall i :: 0 <= i < n ==> init[i] == list[i];
      var v := sim(target, list[n]);
      if v >= threshold then
        var r := rec + [SimilarText(list[n], v, n)];
        assert forall k :: 0 <= k < |rec| ==> r[k] == rec[k];
        assert r[|rec|].index == n;
        r
      else rec
  }

  lemma MatchingPrefix(target: string, list: seq<string>, i: nat, threshold: real, sim: (string, string) -> real)
    requires i < |list|
    ensures Matching(target, list[..i + 1], threshold, sim) ==
      Matching(target, list[..i], threshold, sim) +
      (if sim(target, list[i]) >= threshold then [SimilarText(list[i], sim(target, list[i]), i)] else [])
  {
    assert list[..i + 1][..i] == list[..i];
  }

  /** `findSimilarTexts`: the hits sorted by descending similarity, equally
      similar hits in list order. */
  method FindSimilarTexts(target: string, list: seq<string>, threshold: real) returns (r: seq<SimilarText>)
    ensures Descending(r, SimilarityOf)
    ensures multiset(r) == multiset(Matching(target, list, threshold, Similarity))
    ensures TiesInOrder(r, Matching(target, list, threshold, Similarity), SimilarityOf)
  {
    var results: seq<SimilarText> := [];
    for i := 0 to |list|
      invariant results == Matching(target, list[..i], threshold, Similarity)
    {
      MatchingPrefix(target, list, i, threshold, Similarity);
      var similarity := ComputeSimilarity(target, list[i]);
      if similarity >= threshold {
        results := results + [SimilarText(list[i], similarity, i)];
      }
    }
    assert list[..|list|] == list;
    r := SortDesc(results, SimilarityOf);
    SortDescTies(results, SimilarityOf);
  }

  lemma HitSound(target: string, list: seq<string>, threshold: real, sim: (string, string) -> real,
    r: seq<SimilarText>, k: int)
    requires multiset(r) == multiset(Matching(target, list, threshold, sim)) && 0 <= k < |r|
    ensures r[k].index < |list| && r[k].text == list[r[k].index] &&
      r[k].similarity == sim(target, list[r[k].index]) >= threshold
  {
    var m := Matching(target, list, threshold, sim);
    assert r[k] in multiset(m);
    var k' :| 0 <= k' < |m| && m[k'] == r[k];
  }

  lemma HitComplete(target: string, list: seq<string>, threshold: real, sim: (string, string) -> real,
    r: seq<SimilarText>, i: int)
    requires multiset(r) == multiset(Matching(target, list, threshold, sim))
    requires 0 <= i < |list| && sim(target, list[i]) >= threshold
    ensures exists k :: 0 <= k < |r| && r[k].index == i
  {
    var m := Matching(target, list, threshold, sim);
    var k :| 0 <= k < |m| && m[k].index == i;
    assert m[k] in multiset(r);
    var k' :| 0 <= k' < |r| && r[k'] == m[k];
  }

  /** The hits of `findSimilarTexts` are exactly the texts similar enough to
      the target, each with its own index and similarity. */
  lemma FindSimilarTextsExact(target: string, list: seq<string>, threshold: real, r: seq<SimilarText>)
    requires multiset(r) == multiset(Matching(target, list, threshold, Similarity))
    ensures forall k :: 0 <= k < |r| ==>
      r[k].index < |list| && r[k].text == list[r[k].index] &&
      r[k].similarity == Similarity(target, list[r[k].index]) >= threshold
    ensures forall i :: 0 <= i < |list| && Similarity(target, list[i]) >= threshold ==>
      exists k :: 0 <= k < |r| && r[k].index == i
  {
    forall k | 0 <= k < |r|
      ensures r[k].index < |list| && r[k].text == list[r[k].index] &&
        r[k].similarity == Similarity(target, list[r[k].index]) >= threshold
    {
      HitSound(target, list, threshold, Similarity, r, k);
    }
    forall i | 0 <= i < |list| && Similarity(target, list[i]) >= threshold
      ensures exists k :: 0 <= k < |r| && r[k].index == i
    {
      HitComplete(target, list, threshold, Similarity, r, i);
    }
  }

  // ---------------------------------------------------------------------
  // Representative

  /** The summed similarity `sim` of `t` to the texts of `others` that differ from it. */
  function Affinity(t: string, others: seq<string>, sim: (string, string) -> real): real
    decreases |others|
  {
    if others == [] then 0.0
    else
      var o := others[|others| - 1];
      Affinity(t, others[..|others| - 1], sim) + (if o != t then sim(t, o) else 0.0)
  }

  lemma AffinityPrefix(t: string, list: seq<string>, j: nat, sim: (string, string) -> real)
    requires j < |list|
    ensures Affinity(t, list[..j + 1], sim) ==
      Affinity(t, list[..j], sim) + (if list[j] != t then sim(t, list[j]) else 0.0)
  {
    assert list[..j + 1][..j] == list[..j];
  }

  /** `sim` never scores a pair below 0. */
  ghost predicate NonNegative(sim: (string, string) -> real)
  {
    forall a, b :: sim(a, b) >= 0.0
  }

  lemma SimilarityNonNegative()
    ensures NonNegative(Similarity)
  {
  }

  /** Summed similarities are never negative. */
  lemma {:induction false} AffinityNonNegative(t: string, others: seq<string>, sim: (string, string) -> real)
    requires NonNegative(sim)
    ensures Affinity(t, others, sim) >= 0.0
    decreases |others|
  {
    if others != [] {
      AffinityNonNegative(t, others[..|others| - 1], sim);
    }
  }

  /** A text alone in its list has no other text to be similar to. */
  lemma AffinitySingle(t: string, sim: (string, string) -> real)
    ensures Affinity(t, [t], sim) == 0.0
  {
    assert [t][..0] == [];
  }

  /** The inner loop of `findRepresentative`: the summed similarity of `t`
      to the other texts of `list`. */
  method SumSimilarities(t: string, list: seq<string>, sim: (string, string) -> real) returns (score: real)
    ensures score == Affinity(t, list, sim)
  {
    score := 0.0;
    for j := 0 to |list|
      invariant score == Affinity(t, list[..j], sim)
    {
      AffinityPrefix(t, list, j, sim);
      if t != list[j] {
        score := score + sim(t, list[j]);
      }
    }
    assert list[..|list|] == list;
  }

  /** The text at position `k` has the largest summed similarity, and no
      earlier text reaches it. */
  ghost predicate FirstBest(list: seq<string>, k: int, sim: (string, string) -> real)
  {
    0 <= k < |list| &&
    (forall i :: 0 <= i < |list| ==> Affinity(list[i], list, sim) <= Affinity(list[k], list, sim)) &&
    (forall i :: 0 <= i < k ==> Affinity(list[i], list, sim) < Affinity(list[k], list, sim))
  }

  /** `findRepresentative` for a given similarity measure. */
  method FindRepresentativeBy(list: seq<string>, sim: (string, string) -> real) returns (best: string)
    requires NonNegative(sim)
    ensures list == [] ==> best == []
    ensures |list| == 1 ==> best == list[0]
    ensures list != [] ==> exists k :: FirstBest(list, k, sim) && best == list[k]
  {
    if |list| == 0 {
      return [];
    }
    if |list| == 1 {
      AffinitySingle(list[0], sim);
      assert list == [list[0]];
      assert FirstBest(list, 0, sim);
      return list[0];
    }
    best := list[0];
    var bestScore := 0.0;
    ghost var bestIndex := 0;
    for i := 0 to |list|
      invariant 0 <= bestIndex < |list| && best == list[bestIndex]
      invariant bestScore >= 0.0
      invariant forall k :: 0 <= k < i ==> Affinity(list[k], list, sim) <= bestScore
      invariant (bestIndex == 0 && bestScore == 0.0) ||
        (bestIndex < i && bestScore == Affinity(list[bestIndex], list, sim))
      invariant forall k :: 0 <= k < bestIndex ==> Affinity(list[k], list, sim) < bestScore
    {
      var score := SumSimilarities(list[i], list, sim);
      if score > bestScore {
        bestScore := score;
        best := list[i];
        bestIndex := i;
      }
    }
    AffinityNonNegative(list[0], list, sim);
    assert FirstBest(list, bestIndex, sim);
  }

  /** `findRepresentative`: the first text whose summed similarity to the
      other texts is largest; "" for no texts, the text itself for one. */
  method FindRepresentative(list: seq<string>) returns (best: string)
    ensures list == [] ==> best == []
    ensures |list| == 1 ==> best == list[0]
    ensures list != [] ==> exists k :: FirstBest(list, k, Similarity) && best == list[k]
  {
    SimilarityNonNegative();
    best := FindRepresentativeBy(list, Similarity);
  }

  // ---------------------------------------------------------------------
  // Clustering

  /** One group of `clusterSimilarTexts`. */
  datatype Cluster = Cluster(representative: string, variants: seq<string>, indices: seq<nat>)

  /** A cluster drawn from `list`: its indices ascend, start at its
      representative, name its variants, and every later member is at least
      `threshold` similar to the representative. */
  ghost predicate WellFormed(list: seq<string>, threshold: real, sim: (string, string) -> real, c: Cluster)
  {
    |c.indices| >= 1 && |c.variants| == |c.indices| &&
    (forall k :: 0 <= k < |c.indices| ==> c.indices[k] < |list| && c.variants[k] == list[c.indices[k]]) &&
    (forall k, l :: 0 <= k < l < |c.indices| ==> c.indices[k] < c.indices[l]) &&
    c.representative == list[c.indices[0]] &&
    (forall k :: 1 <= k < |c.indices| ==> sim(list[c.indices[0]], list[c.indices[k]]) >= threshold)
  }

  /** Index `j` belongs to cluster number `c`. */
  ghost predicate Member(cs: seq<Cluster>, j: nat, c: int)
  {
    0 <= c < |cs| && j in cs[c].indices
  }

  /** Index `j` belongs to some cluster. */
  ghost predicate Covered(cs: seq<Cluster>, j: nat)
  {
    exists c :: Member(cs, j, c)
  }

  /** No index lies in two clusters. */
  ghost predicate Disjoint(cs: seq<Cluster>)
  {
    forall j, c, e :: Member(cs, j, c) && Member(cs, j, e) ==> c == e
  }

  /** Every index below `n`, and no other, lies in exactly one cluster. */
  ghost predicate Partition(cs: seq<Cluster>, n: nat)
  {
    (forall j: nat :: j < n <==> Covered(cs, j)) && Disjoint(cs)
  }

  /** The representatives appear in increasing index order. */
  ghost predicate RepresentativesAscend(cs: seq<Cluster>)
  {
    (forall c :: 0 <= c < |cs| ==> |cs[c].indices| >= 1) &&
    (forall c, e :: 0 <= c < e < |cs| ==> cs[c].indices[0] < cs[e].indices[0])
  }

  /** No cluster leaves out a later text that was similar enough to its
      representative and not already taken by an earlier cluster. */
  ghost predicate Greedy(list: seq<string>, threshold: real, sim: (string, string) -> real, cs: seq<Cluster>)
  {
    forall c, j :: 0 <= c < |cs| && |cs[c].indices| >= 1 && cs[c].indices[0] < j < |list| && j !in cs[c].indices ==>
      sim(list[cs[c].indices[0]], list[j]) < threshold ||
      exists e :: 0 <= e < c && Member(cs, j, e)
  }

  /** Everything `clusterSimilarTexts` promises about its clusters. */
  ghost predicate Clustering(list: seq<string>, threshold: real, sim: (string, string) -> real, cs: seq<Cluster>)
  {
    (forall c :: 0 <= c < |cs| ==> WellFormed(list, threshold, sim, cs[c])) &&
    Partition(cs, |list|) &&
    RepresentativesAscend(cs) &&
    Greedy(list, threshold, sim, cs)
  }

  lemma CoveredAppend(cs: seq<Cluster>, cl: Cluster, j: nat)
    ensures Covered(cs + [cl], j) <==> Covered(cs, j) || j in cl.indices
  {
    var cs' := cs + [cl];
    if Covered(cs, j) {
      var c :| Member(cs, j, c);
      assert Member(cs', j, c);
    }
    if j in cl.indices {
      assert Member(cs', j, |cs|);
    }
    if Covered(cs', j) {
      var c :| Member(cs', j, c);
      if c < |cs| {
        assert Member(cs, j, c);
      }
    }
  }

  /** Adding a cluster made of indices no earlier cluster holds keeps the
      clusters disjoint. */
  lemma DisjointAppend(cs: seq<Cluster>, cl: Cluster)
    requires Disjoint(cs)
    requires forall j :: j in cl.indices ==> !Covered(cs, j)
    ensures Disjoint(cs + [cl])
  {
    var cs' := cs + [cl];
    forall j, c, e | Member(cs', j, c) && Member(cs', j, e)
      ensures c == e
    {
      if c < |cs| {
        assert Member(cs, j, c);
      }
      if e < |cs| {
        assert Member(cs, j, e);
      }
    }
  }

  /** The new cluster is greedy when every later index it skipped was either
      not similar enough or already in an earlier cluster. */
  lemma GreedyAppend(list: seq<string>, threshold: real, sim: (string, string) -> real, cs: seq<Cluster>, cl: Cluster)
    requires Greedy(list, threshold, sim, cs)
    requires |cl.indices| >= 1
    requires forall m :: cl.indices[0] < m < |list| && m !in cl.indices ==>
      sim(list[cl.indices[0]], list[m]) < threshold || Covered(cs, m)
    ensures Greedy(list, threshold, sim, cs + [cl])
  {
    var cs' := cs + [cl];
    forall c, j | 0 <= c < |cs'| && |cs'[c].indices| >= 1 && cs'[c].indices[0] < j < |list| && j !in cs'[c].indices
      ensures sim(list[cs'[c].indices[0]], list[j]) < threshold || exists e :: 0 <= e < c && Member(cs', j, e)
    {
      if c < |cs| {
        assert cs'[c] == cs[c];
        if exists e :: 0 <= e < c && Member(cs, j, e) {
          var e :| 0 <= e < c && Member(cs, j, e);
          assert Member(cs', j, e);
        }
      } else if Covered(cs, j) {
        var e :| Member(cs, j, e);
        assert Member(cs', j, e);
      }
    }
  }

  /** The state of the inner loop of `clusterSimilarTexts` before text `j`:
      the cluster opened at `i` holds ascending indices below `j` that were
      not in `before`, `processed` adds its later members to `before`, and
      every later text it skipped was too dissimilar or already taken. */
  ghost predicate Growing(list: seq<string>, threshold: real, sim: (string, string) -> real, i: nat,
    before: set<nat>, cluster: Cluster, processed: set<nat>, j: nat)
  {
    i < j <= |list| &&
    WellFormed(list, threshold, sim, cluster) &&
    cluster.indices[0] == i &&
    (forall k :: 0 <= k < |cluster.indices| ==> cluster.indices[k] < j) &&
    (forall k :: 0 <= k < |cluster.indices| ==> cluster.indices[k] !in before) &&
    (forall x :: x in processed <==> x in before || x in cluster.indices[1..]) &&
    (forall m :: i < m < j && m !in cluster.indices ==> sim(list[i], list[m]) < threshold || m in before)
  }

  /** A later index similar enough to the representative extends a well-formed cluster. */
  lemma WellFormedAppend(list: seq<string>, threshold: real, sim: (string, string) -> real, cluster: Cluster, j: nat)
    requires WellFormed(list, threshold, sim, cluster)
    requires j < |list| && forall k :: 0 <= k < |cluster.indices| ==> cluster.indices[k] < j
    requires sim(list[cluster.indices[0]], list[j]) >= threshold
    ensures WellFormed(list, threshold, sim,
      cluster.(variants := cluster.variants + [list[j]], indices := cluster.indices + [j]))
  {
    var grown := cluster.(variants := cluster.variants + [list[j]], indices := cluster.indices + [j]);
    forall k | 0 <= k < |grown.indices|
      ensures grown.indices[k] < |list| && grown.variants[k] == list[grown.indices[k]]
    {
      if k < |cluster.indices| {
        assert grown.indices[k] == cluster.indices[k];
      }
    }
  }

  /** Text `j`, unprocessed and similar enough, joins the cluster. */
  lemma GrowAbsorb(list: seq<string>, threshold: real, sim: (string, string) -> real, i: nat,
    before: set<nat>, cluster: Cluster, processed: set<nat>, j: nat)
    requires Growing(list, threshold, sim, i, before, cluster, processed, j)
    requires j < |list| && j !in processed && sim(list[i], list[j]) >= threshold
    ensures Growing(list, threshold, sim, i, before,
      cluster.(variants := cluster.variants + [list[j]], indices := cluster.indices + [j]), processed + {j}, j + 1)
  {
    var grown := cluster.(variants := cluster.variants + [list[j]], indices := cluster.indices + [j]);
    assert WellFormed(list, threshold, sim, grown) by {
      WellFormedAppend(list, threshold, sim, cluster, j);
    }
    assert forall k :: 0 <= k < |grown.indices| ==> grown.indices[k] < j + 1 && grown.indices[k] !in before by {
      forall k | 0 <= k < |grown.indices|
        ensures grown.indices[k] < j + 1 && grown.indices[k] !in before
      {
        if k < |cluster.indices| {
          assert grown.indices[k] == cluster.indices[k];
        }
      }
    }
    assert forall x :: x in processed + {j} <==> x in before || x in grown.indices[1..] by {
      assert grown.indices[1..] == cluster.indices[1..] + [j];
    }
    assert forall m :: i < m < j + 1 && m !in grown.indices ==> sim(list[i], list[m]) < threshold || m in before by {
      forall m | i < m < j + 1 && m !in grown.indices
        ensures sim(list[i], list[m]) < threshold || m in before
      {
        assert m != j && m !in cluster.indices;
      }
    }
  }

  /** Text `j`, already processed or too dissimilar, is passed over. */
  lemma GrowSkip(list: seq<string>, threshold: real, sim: (string, string) -> real, i: nat,
    before: set<nat>, cluster: Cluster, processed: set<nat>, j: nat)
    requires Growing(list, threshold, sim, i, before, cluster, processed, j)
    requires j < |list| && (j in processed || sim(list[i], list[j]) < threshold)
    ensures Growing(list, threshold, sim, i, before, cluster, processed, j + 1)
  {
    assert j !in cluster.indices;
    if j in processed {
      assert j in before;
    }
  }

  /** The inner loop of `clusterSimilarTexts`: text `i` opens a cluster and
      absorbs, in index order, every later text not yet in `processed` whose
      similarity to text `i` reaches `threshold`; the absorbed indices are
      added to `processed`. */
  method GrowCluster(list: seq<string>, threshold: real, sim: (string, string) -> real, i: nat, before: set<nat>)
    returns (cluster: Cluster, processed: set<nat>)
    requires i < |list| && i !in before
    ensures WellFormed(list, threshold, sim, cluster)
    ensures cluster.indices[0] == i
    ensures forall k :: 0 <= k < |cluster.indices| ==> cluster.indices[k] !in before
    ensures forall x :: x in processed <==> x in before || x in cluster.indices[1..]
    ensures forall m :: i < m < |list| && m !in cluster.indices ==>
      sim(list[i], list[m]) < threshold || m in before
  {
    cluster := Cluster(list[i], [list[i]], [i]);
    processed := before;
    assert cluster.indices[1..] == [];
    for j := i + 1 to |list|
      invariant Growing(list, threshold, sim, i, before, cluster, processed, j)
    {
      if j in processed {
        GrowSkip(list, threshold, sim, i, before, cluster, processed, j);
        continue;
      }
      var similarity := sim(list[i], list[j]);
      if similarity >= threshold {
        GrowAbsorb(list, threshold, sim, i, before, cluster, processed, j);
        cluster := cluster.(variants := cluster.variants + [list[j]], indices := cluster.indices + [j]);
        processed := processed + {j};
      } else {
        GrowSkip(list, threshold, sim, i, before, cluster, processed, j);
      }
    }
  }

  /** The clusters opened before text `i`: well formed, disjoint, greedy and
      in representative order, every representative below `i`. */
  ghost predicate ClustersBefore(list: seq<string>, threshold: real, sim: (string, string) -> real,
    clusters: seq<Cluster>, i: nat)
  {
    (forall c :: 0 <= c < |clusters| ==> WellFormed(list, threshold, sim, clusters[c])) &&
    Disjoint(clusters) &&
    RepresentativesAscend(clusters) &&
    (forall c :: 0 <= c < |clusters| ==> clusters[c].indices[0] < i) &&
    Greedy(list, threshold, sim, clusters)
  }

  /** `processed` holds exactly the indices the clusters cover, and these
      include every index below `i`. */
  ghost predicate ProcessedCovers(list: seq<string>, clusters: seq<Cluster>, processed: set<nat>, i: nat)
  {
    (forall j: nat :: j in processed <==> Covered(clusters, j)) &&
    (forall j: nat :: j < i ==> j in processed) &&
    (forall j :: j in processed ==> j < |list|)
  }

  /** The state of `clusterSimilarTexts` before text `i` is looked at. */
  ghost predicate ClusterProgress(list: seq<string>, threshold: real, sim: (string, string) -> real,
    clusters: seq<Cluster>, processed: set<nat>, i: nat)
  {
    ClustersBefore(list, threshold, sim, clusters, i) && ProcessedCovers(list, clusters, processed, i)
  }

  lemma OpenClusterShape(list: seq<string>, threshold: real, sim: (string, string) -> real,
    clusters: seq<Cluster>, before: set<nat>, i: nat, cluster: Cluster)
    requires ClusterProgress(list, threshold, sim, clusters, before, i)
    requires i < |list| && i !in before
    requires WellFormed(list, threshold, sim, cluster) && cluster.indices[0] == i
    requires forall k :: 0 <= k < |cluster.indices| ==> cluster.indices[k] !in before
    requires forall m :: i < m < |list| && m !in cluster.indices ==> sim(list[i], list[m]) < threshold || m in before
    ensures ClustersBefore(list, threshold, sim, clusters + [cluster], i + 1)
  {
    forall x | x in cluster.indices
      ensures !Covered(clusters, x)
    {
    }
    DisjointAppend(clusters, cluster);
    GreedyAppend(list, threshold, sim, clusters, cluster);
  }

  lemma OpenClusterCovers(list: seq<string>, threshold: real, sim: (string, string) -> real,
    clusters: seq<Cluster>, before: set<nat>, i: nat, cluster: Cluster, processed: set<nat>)
    requires ProcessedCovers(list, clusters, before, i)
    requires i < |list|
    requires WellFormed(list, threshold, sim, cluster) && cluster.indices[0] == i
    requires forall x :: x in processed <==> x in before || x in cluster.indices[1..]
    ensures ProcessedCovers(list, clusters + [cluster], processed + {i}, i + 1)
  {
    forall x: nat
      ensures Covered(clusters + [cluster], x) <==> Covered(clusters, x) || x in cluster.indices
    {
      CoveredAppend(clusters, cluster, x);
    }
    assert cluster.indices == [i] + cluster.indices[1..];
  }

  /** Opening a cluster at an unprocessed text `i` with what `GrowCluster`
      returns keeps the state consistent one text further. */
  lemma OpenCluster(list: seq<string>, threshold: real, sim: (string, string) -> real,
    clusters: seq<Cluster>, before: set<nat>, i: nat, cluster: Cluster, processed: set<nat>)
    requires ClusterProgress(list, threshold, sim, clusters, before, i)
    requires i < |list| && i !in before
    requires WellFormed(list, threshold, sim, cluster) && cluster.indices[0] == i
    requires forall k :: 0 <= k < |cluster.indices| ==> cluster.indices[k] !in before
    requires forall x :: x in processed <==> x in before || x in cluster.indices[1..]
    requires forall m :: i < m < |list| && m !in cluster.indices ==> sim(list[i], list[m]) < threshold || m in before
    ensures ClusterProgress(list, threshold, sim, clusters + [cluster], processed + {i}, i + 1)
  {
    OpenClusterShape(list, threshold, sim, clusters, before, i, cluster);
    OpenClusterCovers(list, threshold, sim, clusters, before, i, cluster, processed);
  }

  /** Nothing is clustered before the first text is looked at. */
  lemma ClusterStart(list: seq<string>, threshold: real, sim: (string, string) -> real)
    ensures ClusterProgress(list, threshold, sim, [], {}, 0)
  {
    assert forall j: nat :: !Covered([], j);
  }

  /** A text already taken by an earlier cluster is passed over. */
  lemma ClusterSkip(list: seq<string>, threshold: real, sim: (string, string) -> real,
    clusters: seq<Cluster>, processed: set<nat>, i: nat)
    requires ClusterProgress(list, threshold, sim, clusters, processed, i) && i in processed
    ensures ClusterProgress(list, threshold, sim, clusters, processed, i + 1)
  {
  }

  /** Once every text has been looked at, the clusters are a clustering. */
  lemma ClusterDone(list: seq<string>, threshold: real, sim: (string, string) -> real,
    clusters: seq<Cluster>, processed: set<nat>)
    requires ClusterProgress(list, threshold, sim, clusters, processed, |list|)
    ensures Clustering(list, threshold, sim, clusters)
  {
  }

  /** `clusterSimilarTexts` for a given similarity measure: the first
      unprocessed text opens a cluster and absorbs every later unprocessed
      text similar enough to it (to it, not to the growing cluster). */
  method ClusterBy(list: seq<string>, threshold: real, sim: (string, string) -> real) returns (clusters: seq<Cluster>)
    ensures Clustering(list, threshold, sim, clusters)
  {
    clusters := [];
    var processed: set<nat> := {};
    ClusterStart(list, threshold, sim);
    for i := 0 to |list|
      invariant ClusterProgress(list, threshold, sim, clusters, processed, i)
    {
      if i in processed {
        ClusterSkip(list, threshold, sim, clusters, processed, i);
        continue;
      }
      ghost var before := processed;
      var cluster;
      cluster, processed := GrowCluster(list, threshold, sim, i, processed);
      OpenCluster(list, threshold, sim, clusters, before, i, cluster, processed);
      processed := processed + {i};
      clusters := clusters + [cluster];
    }
    ClusterDone(list, threshold, sim, clusters, processed);
  }

  /** `clusterSimilarTexts`. */
  method ClusterSimilarTexts(list: seq<string>, threshold: real) returns (clusters: seq<Cluster>)
    ensures Clustering(list, threshold, Similarity, clusters)
  {
    clusters := ClusterBy(list, threshold, Similarity);
  }
}
