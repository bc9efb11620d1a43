/** The Python string operations the programs rely on: the substring test `in`,
    ASCII `str.lower`, `str.split`, `str.join` and `str(int)`, each with the
    facts the other modules use about it. */
module Strings {
  import opened Wrappers

  // ---------------------------------------------------------------------------
  // Prefixes and the substring test
  // ---------------------------------------------------------------------------

  /** `s.startswith(p)`, compared character by character. */
  predicate StartsWith(s: string, p: string)
  {
    |p| == 0 || (|s| > 0 && s[0] == p[0] && StartsWith(s[1..], p[1..]))
  }

  /** `t` occurs in `s` starting at index `i`. */
  predicate OccursAt(s: string, t: string, i: int)
  {
    0 <= i && i + |t| <= |s| && s[i..i + |t|] == t
  }

  /** Python's substring test `t in s`. */
  predicate Contains(s: string, t: string)
  {
    StartsWith(s, t) || (|s| > 0 && Contains(s[1..], t))
  }

  lemma {:induction false} StartsWithIsSlice(s: string, p: string)
    ensures StartsWith(s, p) <==> OccursAt(s, p, 0)
  {
    if |p| > 0 && |s| > 0 {
      StartsWithIsSlice(s[1..], p[1..]);
      if |p| <= |s| {
        assert s[..|p|] == [s[0]] + s[1..][..|p| - 1];
        assert p == [p[0]] + p[1..];
      }
    }
  }

  /** A string starts with every one of its prefixes. */
  lemma StartsWithAppend(p: string, rest: string)
    ensures StartsWith(p + rest, p)
  {
    StartsWithIsSlice(p + rest, p);
    assert (p + rest)[0..|p|] == p;
  }

  /** The recursive test agrees with "some index where `t` starts". */
  lemma {:induction false} ContainsIsOccurrence(s: string, t: string)
    ensures Contains(s, t) <==> exists i :: OccursAt(s, t, i)
  {
    StartsWithIsSlice(s, t);
    if |s| > 0 {
      ContainsIsOccurrence(s[1..], t);
      if Contains(s[1..], t) {
        var j :| OccursAt(s[1..], t, j);
        assert s[1..][j..j + |t|] == s[j + 1..j + 1 + |t|];
        assert OccursAt(s, t, j + 1);
      }
      if i :| OccursAt(s, t, i) && i > 0 {
        assert s[1..][i - 1..i - 1 + |t|] == s[i..i + |t|];
        assert OccursAt(s[1..], t, i - 1);
      }
    }
  }

  lemma OccursContains(s: string, t: string, i: int)
    requires OccursAt(s, t, i)
    ensures Contains(s, t)
  {
    ContainsIsOccurrence(s, t);
  }

  /** Whatever surrounds `t`, the result contains `t`. */
  lemma ContainsInfix(a: string, t: string, b: string)
    ensures Contains(a + t + b, t)
  {
    assert (a + t + b)[|a|..|a| + |t|] == t;
    OccursContains(a + t + b, t, |a|);
  }

  /** Text put in front keeps every occurrence. */
  lemma ContainsAfterPrefix(a: string, b: string, t: string)
    requires Contains(b, t)
    ensures Contains(a + b, t)
  {
    ContainsIsOccurrence(b, t);
    var i :| OccursAt(b, t, i);
    assert (a + b)[|a| + i..|a| + i + |t|] == b[i..i + |t|];
    OccursContains(a + b, t, |a| + i);
  }

  /** Text put behind keeps every occurrence. */
  lemma ContainsBeforeSuffix(a: string, b: string, t: string)
    requires Contains(a, t)
    ensures Contains(a + b, t)
  {
    ContainsIsOccurrence(a, t);
    var i :| OccursAt(a, t, i);
    assert (a + b)[i..i + |t|] == a[i..i + |t|];
    OccursContains(a + b, t, i);
  }

  /** A string contains itself. */
  lemma ContainsItself(t: string)
    ensures Contains(t, t)
  {
    ContainsInfix("", t, "");
    assert "" + t + "" == t;
  }

  /** Every piece of an occurring string occurs too. */
  lemma ContainsPiece(s: string, t: string, i: int, j: int)
    requires Contains(s, t)
    requires 0 <= i <= j <= |t|
    ensures Contains(s, t[i..j])
  {
    ContainsIsOccurrence(s, t);
    var k :| OccursAt(s, t, k);
    forall m | 0 <= m < j - i
      ensures s[k + i..k + j][m] == t[i..j][m]
    {
      assert s[k..k + |t|][i + m] == t[i + m];
    }
    assert s[k + i..k + j] == t[i..j];
    OccursContains(s, t[i..j], k + i);
  }

  /** A one-character string occurs exactly when the character does. */
  lemma ContainsChar(s: string, c: char)
    ensures Contains(s, [c]) <==> c in s
  {
    ContainsIsOccurrence(s, [c]);
    if c in s {
      var k :| 0 <= k < |s| && s[k] == c;
      assert s[k..k + 1] == [c];
      assert OccursAt(s, [c], k);
    }
    if Contains(s, [c]) {
      var k :| OccursAt(s, [c], k);
      assert s[k] == s[k..k + 1][0];
    }
  }

  /** A character that is missing rules out every string that contains it. */
  lemma MissingChar(s: string, t: string, j: int)
    requires 0 <= j < |t| && t[j] !in s
    ensures !Contains(s, t)
  {
    if Contains(s, t) {
      ContainsPiece(s, t, j, j + 1);
      assert t[j..j + 1] == [t[j]];
      ContainsChar(s, t[j]);
    }
  }

  /** A two-character string missing from both halves and from their seam is
      missing from the whole. */
  lemma MissingPairAppend(a: string, b: string, x: char, y: char)
    requires !Contains(a, [x, y]) && !Contains(b, [x, y])
    requires |a| == 0 || |b| == 0 || a[|a| - 1] != x || b[0] != y
    ensures !Contains(a + b, [x, y])
  {
    if Contains(a + b, [x, y]) {
      ContainsIsOccurrence(a + b, [x, y]);
      var i :| OccursAt(a + b, [x, y], i);
      var ab := a + b;
      assert ab[i] == x && ab[i + 1] == y by {
        assert ab[i..i + 2] == [x, y];
      }
      if i + 2 <= |a| {
        assert a[i..i + 2] == [x, y];
        OccursContains(a, [x, y], i);
      } else if i >= |a| {
        assert b[i - |a|..i - |a| + 2] == [x, y];
        OccursContains(b, [x, y], i - |a|);
      } else {
        assert false;
      }
    }
  }

  /** A missing pair rules out every string that contains it. */
  lemma MissingPair(s: string, t: string, j: int)
    requires 0 <= j && j + 1 < |t| && !Contains(s, t[j..j + 2])
    ensures !Contains(s, t)
  {
    if Contains(s, t) {
      ContainsPiece(s, t, j, j + 2);
    }
  }

  /** The strings of `chunks` written one after another. */
  function Concat(chunks: seq<string>): string
  {
    if chunks == [] then "" else chunks[0] + Concat(chunks[1..])
  }

  lemma {:induction false} ConcatAppend(a: seq<string>, b: seq<string>)
    ensures Concat(a + b) == Concat(a) + Concat(b)
  {
    if a != [] {
      ConcatAppend(a[1..], b);
      assert (a + b)[1..] == a[1..] + b;
    } else {
      assert a + b == b;
    }
  }

  /** A character missing from every chunk is missing from their concatenation. */
  lemma {:induction false} MissingCharConcat(chunks: seq<string>, c: char)
    requires forall k | 0 <= k < |chunks| :: c !in chunks[k]
    ensures c !in Concat(chunks)
  {
    if chunks != [] {
      MissingCharConcat(chunks[1..], c);
    }
  }

  /** What occurs in one chunk occurs in the concatenation. */
  lemma {:induction false} ContainsInChunk(chunks: seq<string>, k: int, t: string)
    requires 0 <= k < |chunks| && Contains(chunks[k], t)
    ensures Contains(Concat(chunks), t)
  {
    ContainsIsOccurrence(chunks[k], t);
    var i :| OccursAt(chunks[k], t, i);
    if k == 0 {
      var s := chunks[0] + Concat(chunks[1..]);
      assert s[i..i + |t|] == chunks[0][i..i + |t|];
      OccursContains(s, t, i);
    } else {
      ContainsInChunk(chunks[1..], k - 1, t);
      ContainsIsOccurrence(Concat(chunks[1..]), t);
      var j :| OccursAt(Concat(chunks[1..]), t, j);
      var s := chunks[0] + Concat(chunks[1..]);
      assert s[|chunks[0]| + j..|chunks[0]| + j + |t|] == Concat(chunks[1..])[j..j + |t|];
      OccursContains(s, t, |chunks[0]| + j);
    }
  }

  /** A concatenation contains each of its chunks. */
  lemma ContainsChunk(chunks: seq<string>, k: int)
    requires 0 <= k < |chunks|
    ensures Contains(Concat(chunks), chunks[k])
  {
    ContainsItself(chunks[k]);
    ContainsInChunk(chunks, k, chunks[k]);
  }

  /** A two-character string is missing from a concatenation when every chunk
      lacks one of its two characters and no seam between neighbouring chunks
      joins them. */
  lemma {:induction false} MissingPairConcat(chunks: seq<string>, x: char, y: char)
    requires forall k | 0 <= k < |chunks| :: chunks[k] != [] && (x !in chunks[k] || y !in chunks[k])
    requires forall k | 0 <= k < |chunks| - 1 :: chunks[k][|chunks[k]| - 1] != x || chunks[k + 1][0] != y
    ensures !Contains(Concat(chunks), [x, y])
  {
    if chunks != [] {
      MissingPairConcat(chunks[1..], x, y);
      if |chunks| > 1 {
        assert Concat(chunks[1..])[0] == chunks[1][0];
      }
      if x !in chunks[0] {
        MissingChar(chunks[0], [x, y], 0);
      } else {
        MissingChar(chunks[0], [x, y], 1);
      }
      MissingPairAppend(chunks[0], Concat(chunks[1..]), x, y);
    }
  }

  /** Each chunk lower-cased. */
  function LowerEach(chunks: seq<string>): (r: seq<string>)
    ensures |r| == |chunks|
    ensures forall k :: 0 <= k < |chunks| ==> r[k] == Lower(chunks[k])
  {
    if chunks == [] then [] else [Lower(chunks[0])] + LowerEach(chunks[1..])
  }

  lemma {:induction false} LowerConcat(chunks: seq<string>)
    ensures Lower(Concat(chunks)) == Concat(LowerEach(chunks))
  {
    if chunks != [] {
      LowerConcat(chunks[1..]);
      LowerAppend(chunks[0], Concat(chunks[1..]));
      assert LowerEach(chunks)[1..] == LowerEach(chunks[1..]);
    }
  }

  // ---------------------------------------------------------------------------
  // ASCII lower-casing
  // ---------------------------------------------------------------------------

  predicate IsUpper(c: char)
  {
    'A' <= c <= 'Z'
  }

  /** `c.lower()` restricted to ASCII: 'A'..'Z' become 'a'..'z', nothing else changes. */
  function LowerChar(c: char): (r: char)
    ensures IsUpper(c) ==> r as int == c as int + 32
    ensures !IsUpper(c) ==> r == c
  {
    if IsUpper(c) then (c as int + 32) as char else c
  }

  /** `s.lower()` restricted to ASCII. */
  function Lower(s: string): (r: string)
    ensures |r| == |s|
    ensures forall i :: 0 <= i < |s| ==> r[i] == LowerChar(s[i])
  {
    if s == [] then [] else [LowerChar(s[0])] + Lower(s[1..])
  }

  lemma LowerAppend(a: string, b: string)
    ensures Lower(a + b) == Lower(a) + Lower(b)
  {
  }

  /** Lower-casing keeps every occurrence: `t in s` implies `t.lower() in s.lower()`. */
  lemma ContainsLower(s: string, t: string)
    requires Contains(s, t)
    ensures Contains(Lower(s), Lower(t))
  {
    ContainsIsOccurrence(s, t);
    var k :| OccursAt(s, t, k);
    assert Lower(s)[k..k + |t|] == Lower(t);
    OccursContains(Lower(s), Lower(t), k);
  }

  /** A lower-case letter is in `s.lower()` only if it or its capital is in `s`. */
  lemma LetterNotInLower(s: string, c: char)
    requires 'a' <= c <= 'z'
    requires AbsentInAnyCase(s, c)
    ensures c !in Lower(s)
  {
    forall k | 0 <= k < |s|
      ensures Lower(s)[k] != c
    {
      assert s[k] != c;
    }
  }

  /** Neither the lower-case letter `c` nor its capital occurs in `s`. */
  predicate AbsentInAnyCase(s: string, c: char)
    requires 'a' <= c <= 'z'
  {
    c !in s && (c as int - 32) as char !in s
  }

  /** The pair `x`, `y` of lower-case letters is missing from the lower-cased
      concatenation when every chunk lacks `x` or `y` in both cases and no seam
      joins them once lower-cased. */
  lemma MissingPairConcatLower(chunks: seq<string>, x: char, y: char)
    requires 'a' <= x <= 'z' && 'a' <= y <= 'z'
    requires forall k | 0 <= k < |chunks| ::
      chunks[k] != [] && (AbsentInAnyCase(chunks[k], x) || AbsentInAnyCase(chunks[k], y))
    requires forall k | 0 <= k < |chunks| - 1 ::
      LowerChar(chunks[k][|chunks[k]| - 1]) != x || LowerChar(chunks[k + 1][0]) != y
    ensures !Contains(Lower(Concat(chunks)), [x, y])
  {
    var lowered := LowerEach(chunks);
    forall k | 0 <= k < |lowered|
      ensures lowered[k] != [] && (x !in lowered[k] || y !in lowered[k])
    {
      if AbsentInAnyCase(chunks[k], x) {
        LetterNotInLower(chunks[k], x);
      } else {
        LetterNotInLower(chunks[k], y);
      }
    }
    LowerConcat(chunks);
    MissingPairConcat(lowered, x, y);
  }

  lemma LowerIdempotent(s: string)
    ensures Lower(Lower(s)) == Lower(s)
  {
  }

  // ---------------------------------------------------------------------------
  // str.split(sep) and sep.join(lines)
  // ---------------------------------------------------------------------------

  /** `s.split(sep)` for a one-character separator: always at least one piece,
      and no piece holds the separator. */
  function Split(s: string, sep: char): (r: seq<string>)
    ensures |r| >= 1
    ensures forall k :: 0 <= k < |r| ==> sep !in r[k]
  {
    if s == [] then [""]
    else
      var rest := Split(s[1..], sep);
      if s[0] == sep then [""] + rest
      else [[s[0]] + rest[0]] + rest[1..]
  }

  /** `sep.join(lines)`. */
  function Join(lines: seq<string>, sep: string): string
  {
    if |lines| == 0 then ""
    else if |lines| == 1 then lines[0]
    else lines[0] + sep + Join(lines[1..], sep)
  }

  /** Every joined line occurs in the joined text. */
  lemma {:induction false} JoinContains(lines: seq<string>, sep: string, k: int)
    requires 0 <= k < |lines|
    ensures Contains(Join(lines, sep), lines[k])
  {
    if |lines| == 1 {
      ContainsItself(lines[0]);
    } else if k == 0 {
      ContainsItself(lines[0]);
      ContainsBeforeSuffix(lines[0], sep, lines[0]);
      ContainsBeforeSuffix(lines[0] + sep, Join(lines[1..], sep), lines[0]);
    } else {
      JoinContains(lines[1..], sep, k - 1);
      ContainsAfterPrefix(lines[0] + sep, Join(lines[1..], sep), lines[k]);
    }
  }

  /** Splitting at a separator splits the two sides independently. */
  lemma {:induction false} SplitAround(a: string, b: string, sep: char)
    ensures Split(a + [sep] + b, sep) == Split(a, sep) + Split(b, sep)
  {
    if a == [] {
      assert (a + [sep] + b)[1..] == b;
    } else {
      assert (a + [sep] + b)[1..] == a[1..] + [sep] + b;
      SplitAround(a[1..], b, sep);
    }
  }

  /** A string without the separator is a single piece. */
  lemma {:induction false} SplitWithoutSeparator(s: string, sep: char)
    requires sep !in s
    ensures Split(s, sep) == [s]
  {
    if s != [] {
      SplitWithoutSeparator(s[1..], sep);
      assert [s[0]] + s[1..] == s;
    }
  }

  /** Splitting undoes joining, for at least one line and lines free of the separator. */
  lemma {:induction false} SplitJoin(lines: seq<string>, sep: char)
    requires |lines| >= 1
    requires forall k :: 0 <= k < |lines| ==> sep !in lines[k]
    ensures Split(Join(lines, [sep]), sep) == lines
  {
    SplitWithoutSeparator(lines[0], sep);
    if |lines| > 1 {
      SplitJoin(lines[1..], sep);
      SplitAround(lines[0], Join(lines[1..], [sep]), sep);
      assert lines == [lines[0]] + lines[1..];
    }
  }

  /** Joining undoes splitting, for every string. */
  lemma {:induction false} JoinSplit(s: string, sep: char)
    ensures Join(Split(s, sep), [sep]) == s
  {
    if s != [] {
      var rest := Split(s[1..], sep);
      JoinSplit(s[1..], sep);
      if s[0] == sep {
        assert ([""] + rest)[1..] == rest;
      } else if |rest| > 1 {
        var r := Split(s, sep);
        assert r[1..] == rest[1..];
        assert Join(rest, [sep]) == rest[0] + [sep] + Join(rest[1..], [sep]);
        assert s == [s[0]] + s[1..];
      } else {
        assert s == [s[0]] + s[1..];
      }
    }
  }

  /** Number of occurrences of `c` in `s`. */
  function CountChar(s: string, c: char): nat
  {
    if s == [] then 0 else (if s[0] == c then 1 else 0) + CountChar(s[1..], c)
  }

  lemma {:induction false} CountCharAppend(a: string, b: string, c: char)
    ensures CountChar(a + b, c) == CountChar(a, c) + CountChar(b, c)
  {
    if a != [] {
      assert (a + b)[0] == a[0];
      assert (a + b)[1..] == a[1..] + b;
      CountCharAppend(a[1..], b, c);
      assert CountChar(a + b, c) == (if a[0] == c then 1 else 0) + CountChar(a[1..] + b, c);
    } else {
      assert a + b == b;
    }
  }

  lemma {:induction false} CountCharAbsent(s: string, c: char)
    requires c !in s
    ensures CountChar(s, c) == 0
  {
    if s != [] {
      CountCharAbsent(s[1..], c);
    }
  }

  /** Occurrences of `c` in all of the lines together. */
  function CountCharEach(lines: seq<string>, c: char): nat
  {
    if lines == [] then 0 else CountChar(lines[0], c) + CountCharEach(lines[1..], c)
  }

  /** Joining n lines with the one-character separator `c` adds exactly n - 1
      occurrences of `c` to those already inside the lines. */
  lemma {:induction false} JoinCount(lines: seq<string>, c: char)
    requires lines != []
    ensures CountChar(Join(lines, [c]), c) == |lines| - 1 + CountCharEach(lines, c)
  {
    if |lines| == 1 {
      assert lines[1..] == [];
    } else {
      JoinCount(lines[1..], c);
      CountCharAppend(lines[0] + [c], Join(lines[1..], [c]), c);
      CountCharAppend(lines[0], [c], c);
      assert CountChar([c], c) == 1 by {
        assert [c][1..] == [];
      }
    }
  }

  /** Lines without `c` hold no occurrence of it between them. */
  lemma {:induction false} CountCharEachAbsent(lines: seq<string>, c: char)
    requires forall k | 0 <= k < |lines| :: c !in lines[k]
    ensures CountCharEach(lines, c) == 0
  {
    if lines != [] {
      CountCharAbsent(lines[0], c);
      CountCharEachAbsent(lines[1..], c);
    }
  }

  /** `len(s.split(sep)) == s.count(sep) + 1`. */
  lemma {:induction false} SplitCount(s: string, sep: char)
    ensures |Split(s, sep)| == CountChar(s, sep) + 1
  {
    if s != [] {
      SplitCount(s[1..], sep);
    }
  }

  // ---------------------------------------------------------------------------
  // str(int)
  // ---------------------------------------------------------------------------

  predicate IsDigit(c: char)
  {
    '0' <= c <= '9'
  }

  predicate IsDigits(s: string)
  {
    |s| >= 1 && forall i :: 0 <= i < |s| ==> IsDigit(s[i])
  }

  function DigitChar(d: nat): (c: char)
    requires d < 10
    ensures IsDigit(c) && c as int - '0' as int == d
  {
    ('0' as int + d) as char
  }

  /** Decimal digits of `n`, most significant first, without leading zeros. */
  function NatToString(n: nat): (r: string)
    ensures IsDigits(r)
    ensures r[0] == '0' <==> n == 0
  {
    if n < 10 then [DigitChar(n)] else NatToString(n / 10) + [DigitChar(n % 10)]
  }

  /** Python's `str(n)` for an integer: a minus sign before the digits of a negative number. */
  function IntToString(n: int): (r: string)
    ensures |r| >= 1 && (r[0] == '-' <==> n < 0)
  {
    if n < 0 then "-" + NatToString(-n) else NatToString(n)
  }

  /** The number a string of decimal digits denotes. */
  function DigitsValue(s: string): nat
    requires forall i :: 0 <= i < |s| ==> IsDigit(s[i])
  {
    if s == [] then 0
    else
      assert IsDigit(s[|s| - 1]);
      10 * DigitsValue(s[..|s| - 1]) + (s[|s| - 1] as int - '0' as int)
  }

  /** Reads back what `IntToString` writes: an optional minus sign and digits. */
  function ParseInt(s: string): Option<int>
  {
    if |s| >= 1 && s[0] == '-' && IsDigits(s[1..]) then Some(0 - DigitsValue(s[1..]) as int)
    else if IsDigits(s) then Some(DigitsValue(s))
    else None
  }

  lemma {:induction false} DigitsOfNat(n: nat)
    ensures DigitsValue(NatToString(n)) == n
  {
    if n >= 10 {
      DigitsOfNat(n / 10);
      var r := NatToString(n);
      assert r[..|r| - 1] == NatToString(n / 10);
    }
  }

  /** `str` is injective on integers: parsing its output gives the number back. */
  lemma ParseIntToString(n: int)
    ensures ParseInt(IntToString(n)) == Some(n)
  {
    if n < 0 {
      DigitsOfNat(-n);
      assert IntToString(n)[1..] == NatToString(-n);
    } else {
      DigitsOfNat(n);
    }
  }
}
