/**
 * String operations that the modelled JavaScript code uses: `split`, decimal
 * number formatting and parsing (`${n}` and `Number(s)` on digit strings),
 * ASCII case conversion, and character filtering.
 */
module Text {

  predicate IsDigit(c: char) { '0' <= c <= '9' }

  predicate IsAsciiUpper(c: char) { 'A' <= c <= 'Z' }

  predicate IsAsciiLower(c: char) { 'a' <= c <= 'z' }

  predicate IsAsciiLetter(c: char) { IsAsciiUpper(c) || IsAsciiLower(c) }

  predicate AllDigits(s: string) { forall i :: 0 <= i < |s| ==> IsDigit(s[i]) }

  function DigitValue(c: char): (d: nat)
    requires IsDigit(c)
    ensures d < 10
  {
    (c as int) - ('0' as int)
  }

  function DigitChar(d: nat): (c: char)
    requires d < 10
    ensures IsDigit(c) && DigitValue(c) == d
  {
    (('0' as int) + d) as char
  }

  /** `${n}` for a non-negative integer: its shortest decimal representation. */
  function NatToDecimal(n: nat): (s: string)
    ensures |s| >= 1 && AllDigits(s)
    ensures n >= 10 ==> s[0] != '0'
  {
    if n < 10 then [DigitChar(n)] else NatToDecimal(n / 10) + [DigitChar(n % 10)]
  }

  /** `${n}` for any integer. */
  function IntToDecimal(n: int): (s: string)
    ensures |s| >= 1
    ensures n < 0 <==> s[0] == '-'
  {
    if n < 0 then "-" + NatToDecimal(-n) else NatToDecimal(n)
  }

  /** `Number(s)` for a string of decimal digits; the empty string reads as 0. */
  function DecimalValue(s: string): (n: nat)
    requires AllDigits(s)
  {
    if s == [] then 0 else DecimalValue(s[..|s| - 1]) * 10 + DigitValue(s[|s| - 1])
  }

  /** Formatting a number and reading it back gives the number. */
  lemma {:induction false} DecimalRoundTrip(n: nat)
    ensures DecimalValue(NatToDecimal(n)) == n
  {
    var s := NatToDecimal(n);
    if n >= 10 {
      DecimalRoundTrip(n / 10);
      assert s[..|s| - 1] == NatToDecimal(n / 10);
    }
  }

  /** `s.split(sep)`: the pieces between separators, in order; never empty. */
  function Split(s: string, sep: char): (parts: seq<string>)
    ensures |parts| >= 1
    decreases |s|
  {
    if s == [] then [""]
    else
      var rest := Split(s[1..], sep);
      if s[0] == sep then [""] + rest else [[s[0]] + rest[0]] + rest[1..]
  }

  /** The pieces `split` returns never contain the separator. */
  lemma {:induction false} SplitPiecesHaveNoSeparator(s: string, sep: char)
    ensures forall i :: 0 <= i < |Split(s, sep)| ==> sep !in Split(s, sep)[i]
    decreases |s|
  {
    if s != [] {
      SplitPiecesHaveNoSeparator(s[1..], sep);
    }
  }

  /** Every character of every piece comes from the split string. */
  lemma {:induction false} SplitPiecesFromString(s: string, sep: char)
    ensures forall i, j :: 0 <= i < |Split(s, sep)| && 0 <= j < |Split(s, sep)[i]| ==> Split(s, sep)[i][j] in s
    decreases |s|
  {
    if s != [] {
      SplitPiecesFromString(s[1..], sep);
      var rest := Split(s[1..], sep);
      var parts := Split(s, sep);
      forall i, j | 0 <= i < |parts| && 0 <= j < |parts[i]| ensures parts[i][j] in s {
        if s[0] == sep {
          assert parts[i] == ([""] + rest)[i];
          if i > 0 { assert parts[i] == rest[i - 1]; assert parts[i][j] in s[1..]; }
        } else if i == 0 {
          assert parts[0] == [s[0]] + rest[0];
          if j > 0 { assert parts[0][j] == rest[0][j - 1]; assert rest[0][j - 1] in s[1..]; }
        } else {
          assert parts[i] == rest[i];
          assert parts[i][j] in s[1..];
        }
      }
    }
  }

  /** A string without the separator splits into itself alone. */
  lemma {:induction false} SplitNoSeparator(s: string, sep: char)
    requires sep !in s
    ensures Split(s, sep) == [s]
    decreases |s|
  {
    if s != [] {
      assert s[1..] == s[1..];
      assert sep !in s[1..] by {
        forall i | 0 <= i < |s[1..]| ensures s[1..][i] != sep { assert s[1..][i] == s[i + 1]; }
      }
      SplitNoSeparator(s[1..], sep);
      assert [s[0]] + s[1..] == s;
    }
  }

  /** One step of `Split`, on a string given as its first character and the rest. */
  lemma SplitCons(c: char, t: string, sep: char)
    ensures Split([c] + t, sep) ==
      if c == sep then [""] + Split(t, sep) else [[c] + Split(t, sep)[0]] + Split(t, sep)[1..]
  {
    assert ([c] + t)[1..] == t;
  }

  /** Putting a character in front of the first piece commutes with appending more pieces. */
  lemma PrependToFirst(c: char, rt: seq<string>, rb: seq<string>)
    requires |rt| >= 1
    ensures [[c] + (rt + rb)[0]] + (rt + rb)[1..] == ([[c] + rt[0]] + rt[1..]) + rb
  {
    assert (rt + rb)[0] == rt[0] && (rt + rb)[1..] == rt[1..] + rb;
  }

  /** The inductive step of SplitAtSeparator: one more character in front of the left side. */
  lemma SplitAtSeparatorStep(c: char, t: string, sep: char, b: string)
    requires Split(t + [sep] + b, sep) == Split(t, sep) + Split(b, sep)
    ensures Split([c] + (t + [sep] + b), sep) == Split([c] + t, sep) + Split(b, sep)
  {
    var rt, rb := Split(t, sep), Split(b, sep);
    var whole, front := Split([c] + (t + [sep] + b), sep), Split([c] + t, sep);
    SplitCons(c, t + [sep] + b, sep);
    SplitCons(c, t, sep);
    if c == sep {
      assert whole == [""] + (rt + rb);
      assert front == [""] + rt;
      assert [""] + (rt + rb) == ([""] + rt) + rb;
    } else {
      assert whole == [[c] + (rt + rb)[0]] + (rt + rb)[1..];
      assert front == [[c] + rt[0]] + rt[1..];
      PrependToFirst(c, rt, rb);
    }
  }

  /** Splitting at one separator splits the two sides independently. */
  lemma {:induction false} SplitAtSeparator(a: string, sep: char, b: string)
    ensures Split(a + [sep] + b, sep) == Split(a, sep) + Split(b, sep)
    decreases |a|
  {
    if a == [] {
      assert a + [sep] + b == [sep] + b;
      SplitCons(sep, b, sep);
    } else {
      var c, t := a[0], a[1..];
      assert a == [c] + t;
      assert a + [sep] + b == [c] + (t + [sep] + b);
      SplitAtSeparator(t, sep, b);
      SplitAtSeparatorStep(c, t, sep, b);
    }
  }

  /** The last '/'-separated segment of a path (`path.split('/').at(-1)`). */
  function LastSegment(path: string): (seg: string)
  {
    var parts := Split(path, '/');
    parts[|parts| - 1]
  }

  /** A name without '/' appended after a '/' is exactly what LastSegment gives back. */
  lemma LastSegmentOfJoin(prefix: string, name: string)
    requires '/' !in name
    ensures LastSegment(prefix + "/" + name) == name
    ensures '/' !in LastSegment(prefix + "/" + name)
  {
    SplitAtSeparator(prefix, '/', name);
    SplitNoSeparator(name, '/');
    assert prefix + "/" + name == prefix + ['/'] + name;
  }

  /** `s.replace(c, r)` with a one-character pattern: only the first occurrence is replaced. */
  function ReplaceFirst(s: string, c: char, r: char): (t: string)
    ensures |t| == |s|
    ensures c !in s ==> t == s
    decreases |s|
  {
    if s == [] then []
    else if s[0] == c then [r] + s[1..]
    else [s[0]] + ReplaceFirst(s[1..], c, r)
  }

  /** Only an occurrence of the pattern is changed, and only into the replacement. */
  lemma {:induction false} ReplaceFirstChangesOnlyPattern(s: string, c: char, r: char)
    ensures forall i :: 0 <= i < |s| && ReplaceFirst(s, c, r)[i] != s[i] ==>
      s[i] == c && ReplaceFirst(s, c, r)[i] == r
    decreases |s|
  {
    if s != [] && s[0] != c {
      ReplaceFirstChangesOnlyPattern(s[1..], c, r);
      var t := ReplaceFirst(s, c, r);
      forall i | 0 <= i < |s| && t[i] != s[i] ensures s[i] == c && t[i] == r {
        assert i > 0 && t[i] == ReplaceFirst(s[1..], c, r)[i - 1] && s[i] == s[1..][i - 1];
      }
    }
  }

  /** One step of `ReplaceFirst`, past a character that is not the pattern. */
  lemma ReplaceFirstCons(x: char, t: string, c: char, r: char)
    requires x != c
    ensures ReplaceFirst([x] + t, c, r) == [x] + ReplaceFirst(t, c, r)
  {
    assert ([x] + t)[1..] == t;
  }

  /** The first occurrence of the pattern, wherever it is, is the one replaced. */
  lemma {:induction false} ReplaceFirstAt(a: string, c: char, b: string, r: char)
    requires c !in a
    ensures ReplaceFirst(a + [c] + b, c, r) == a + [r] + b
    decreases |a|
  {
    if a == [] {
      assert a + [c] + b == [c] + b && ([c] + b)[1..] == b;
    } else {
      var x, t := a[0], a[1..];
      assert a == [x] + t && x != c;
      assert c !in t by { assert forall y :: y in t ==> y in a; }
      ReplaceFirstAt(t, c, b, r);
      ReplaceFirstCons(x, t + [c] + b, c, r);
      assert a + [c] + b == [x] + (t + [c] + b);
      assert [x] + (t + [r] + b) == a + [r] + b;
    }
  }

  /** The characters of `s` that satisfy `keep`, in order (a global `replace` with a character class). */
  function Keep(s: string, keep: char -> bool): (t: string)
    ensures |t| <= |s|
    ensures forall i :: 0 <= i < |t| ==> keep(t[i])
    decreases |s|
  {
    if s == [] then []
    else if keep(s[0]) then [s[0]] + Keep(s[1..], keep)
    else Keep(s[1..], keep)
  }

  /** `Keep` removes nothing from a string whose characters all pass. */
  lemma {:induction false} KeepAll(s: string, keep: char -> bool)
    requires forall i :: 0 <= i < |s| ==> keep(s[i])
    ensures Keep(s, keep) == s
    decreases |s|
  {
    if s != [] {
      KeepAll(s[1..], keep);
    }
  }

  /** `Keep` distributes over concatenation. */
  lemma {:induction false} KeepAppend(a: string, b: string, keep: char -> bool)
    ensures Keep(a + b, keep) == Keep(a, keep) + Keep(b, keep)
    decreases |a|
  {
    if a != [] {
      assert (a + b)[0] == a[0] && (a + b)[1..] == a[1..] + b;
      KeepAppend(a[1..], b, keep);
    } else {
      assert a + b == b;
    }
  }

  /** `s.replaceAll(c, '')`: the string with every `c` removed, the rest in order. */
  function RemoveAll(s: string, c: char): (t: string)
    ensures c !in t
    ensures |t| <= |s|
    decreases |s|
  {
    if s == [] then []
    else if s[0] == c then RemoveAll(s[1..], c)
    else [s[0]] + RemoveAll(s[1..], c)
  }

  /** Removing a character the string does not hold changes nothing. */
  lemma {:induction false} RemoveAbsent(s: string, c: char)
    requires c !in s
    ensures RemoveAll(s, c) == s
    decreases |s|
  {
    if s != [] {
      assert c !in s[1..];
      RemoveAbsent(s[1..], c);
    }
  }

  /** ASCII `toLowerCase` of one character. */
  function ToLowerChar(c: char): (l: char)
    ensures !IsAsciiUpper(l)
    ensures IsAsciiUpper(c) ==> IsAsciiLower(l)
    ensures !IsAsciiUpper(c) ==> l == c
  {
    if IsAsciiUpper(c) then ((c as int) + 32) as char else c
  }

  /** ASCII `toUpperCase` of one character. */
  function ToUpperChar(c: char): (u: char)
    ensures !IsAsciiLower(u)
    ensures IsAsciiLower(c) ==> IsAsciiUpper(u)
    ensures !IsAsciiLower(c) ==> u == c
  {
    if IsAsciiLower(c) then ((c as int) - 32) as char else c
  }

  function ToLower(s: string): (t: string)
    ensures |t| == |s| && forall i :: 0 <= i < |s| ==> t[i] == ToLowerChar(s[i])
  {
    seq(|s|, i requires 0 <= i < |s| => ToLowerChar(s[i]))
  }

  function ToUpper(s: string): (t: string)
    ensures |t| == |s| && forall i :: 0 <= i < |s| ==> t[i] == ToUpperChar(s[i])
  {
    seq(|s|, i requires 0 <= i < |s| => ToUpperChar(s[i]))
  }

  /** Upper-casing undoes lower-casing on a string of capital letters. */
  lemma UpperOfLower(s: string)
    requires forall i :: 0 <= i < |s| ==> IsAsciiUpper(s[i])
    ensures ToUpper(ToLower(s)) == s
  {
  }

  /** `s.slice(from, to)` with JavaScript's index rules: negative indices count from the end, all clamp to the string. */
  function Slice(s: string, from: int, to: int): (t: string)
    ensures |t| <= |s|
  {
    var n := |s|;
    var a := if from < 0 then (if n + from < 0 then 0 else n + from) else (if from > n then n else from);
    var b := if to < 0 then (if n + to < 0 then 0 else n + to) else (if to > n then n else to);
    if a < b then s[a..b] else ""
  }

  /** `a.localeCompare(b)`, modelled as lexicographic order on character codes: -1, 0 or 1. */
  function Compare(a: string, b: string): (r: int)
    ensures r in {-1, 0, 1}
    ensures r == 0 <==> a == b
    decreases |a|
  {
    if a == [] && b == [] then 0
    else if a == [] then -1
    else if b == [] then 1
    else if a[0] < b[0] then -1
    else if a[0] > b[0] then 1
    else
      var r := Compare(a[1..], b[1..]);
      assert r == 0 ==> a == [a[0]] + a[1..] == [b[0]] + b[1..] == b;
      r
  }

  /** Swapping the arguments negates the comparison. */
  lemma {:induction false} CompareAntisymmetric(a: string, b: string)
    ensures Compare(b, a) == -Compare(a, b)
    decreases |a|
  {
    if a != [] && b != [] && a[0] == b[0] {
      CompareAntisymmetric(a[1..], b[1..]);
    }
  }

  /** The comparison's "not after" relation is transitive. */
  lemma {:induction false} CompareTransitive(a: string, b: string, c: string)
    requires Compare(a, b) <= 0 && Compare(b, c) <= 0
    ensures Compare(a, c) <= 0
    decreases |a|
  {
    if a != [] && b != [] && c != [] && a[0] == b[0] == c[0] {
      CompareTransitive(a[1..], b[1..], c[1..]);
    }
  }
}
