/**
  Character and string helpers shared by the validators, formatters and
  engines. They give Dafny meaning to the handful of JavaScript and Python
  string built-ins the modelled code relies on: digit stripping
  (`replace(/[^0-9]/g, '')`), `toLowerCase`, `includes`, `startsWith`,
  `trim`, `String(n)` on integers and `Array.prototype.join`.
 */
module StringUtil {
  import opened Options

  /** An ASCII decimal digit, the class `[0-9]` (and `\d`) of a JavaScript regex. */
  predicate IsDigit(c: char) {
    '0' <= c <= '9'
  }

  /** The numeric value of a digit character, what `parseInt` gives for it. */
  function DigitValue(c: char): (d: nat)
    requires IsDigit(c)
    ensures d <= 9
  {
    (c as int) - ('0' as int)
  }

  /** The digit character for 0 <= d <= 9. */
  function DigitChar(d: nat): (c: char)
    requires d <= 9
    ensures IsDigit(c) && DigitValue(c) == d
  {
    (('0' as int) + d) as char
  }

  predicate AllDigits(s: string) {
    forall i :: 0 <= i < |s| ==> IsDigit(s[i])
  }

  /** `s.replace(/[^0-9]/g, '')`: keeps the digits of `s`, in order. */
  function DigitsOnly(s: string): (r: string)
    ensures AllDigits(r)
    ensures |r| <= |s|
  {
    if |s| == 0 then ""
    else if IsDigit(s[0]) then [s[0]] + DigitsOnly(s[1..])
    else DigitsOnly(s[1..])
  }

  lemma {:induction false} DigitsOnlyAppend(a: string, b: string)
    ensures DigitsOnly(a + b) == DigitsOnly(a) + DigitsOnly(b)
  {
    if |a| == 0 {
      assert a + b == b;
    } else {
      assert (a + b)[1..] == a[1..] + b;
      DigitsOnlyAppend(a[1..], b);
    }
  }

  lemma {:induction false} DigitsOnlyOfDigits(s: string)
    requires AllDigits(s)
    ensures DigitsOnly(s) == s
  {
    if |s| > 0 {
      DigitsOnlyOfDigits(s[1..]);
    }
  }

  /** A single character that is not a digit vanishes when digits are kept. */
  lemma DigitsOnlySeparator(c: char)
    requires !IsDigit(c)
    ensures DigitsOnly([c]) == ""
  {
  }

  /** A non-digit separator followed by digits adds just those digits. */
  lemma DigitsAfterSeparator(a: string, c: char, b: string)
    requires AllDigits(b) && !IsDigit(c)
    ensures DigitsOnly(a + [c] + b) == DigitsOnly(a) + b
  {
    DigitsOnlyAppend(a + [c], b);
    DigitsOnlyAppend(a, [c]);
    DigitsOnlySeparator(c);
    DigitsOnlyOfDigits(b);
    assert DigitsOnly(a) + "" == DigitsOnly(a);
  }

  /**
    Lower-casing of one character, for the Latin letters the modelled code
    meets: ASCII `A`-`Z` and the Latin-1 capitals `À`-`Þ` other than `×`.
   */
  function LowerChar(c: char): char {
    if 'A' <= c <= 'Z' then ((c as int) + 32) as char
    else if '\U{00C0}' <= c <= '\U{00DE}' && c != '\U{00D7}' then ((c as int) + 32) as char
    else c
  }

  /** Upper-casing of one character, the inverse mapping of `LowerChar`. */
  function UpperChar(c: char): char {
    if 'a' <= c <= 'z' then ((c as int) - 32) as char
    else if '\U{00E0}' <= c <= '\U{00FE}' && c != '\U{00F7}' then ((c as int) - 32) as char
    else c
  }

  function ToLower(s: string): (r: string)
    ensures |r| == |s|
    ensures forall i :: 0 <= i < |s| ==> r[i] == LowerChar(s[i])
  {
    if |s| == 0 then "" else [LowerChar(s[0])] + ToLower(s[1..])
  }

  lemma ToLowerIdempotent(s: string)
    ensures ToLower(ToLower(s)) == ToLower(s)
  {
  }

  /** `s.startsWith(p)`. */
  predicate StartsWith(s: string, p: string) {
    |p| <= |s| && s[..|p|] == p
  }

  /** `s.endsWith(p)`. */
  predicate EndsWith(s: string, p: string) {
    |p| <= |s| && s[|s| - |p|..] == p
  }

  /** `p` occurs in `s` starting at index `i`. */
  predicate OccursAt(s: string, p: string, i: int) {
    0 <= i && i + |p| <= |s| && s[i..i + |p|] == p
  }

  /** `s.includes(p)` (JavaScript) or `p in s` (Python). */
  predicate Contains(s: string, p: string) {
    exists i | 0 <= i <= |s| - |p| :: OccursAt(s, p, i)
  }

  lemma ContainsAt(s: string, p: string, i: int)
    requires OccursAt(s, p, i)
    ensures Contains(s, p)
  {
  }

  lemma ContainsConcat(a: string, p: string, b: string)
    ensures Contains(a + p + b, p)
  {
    var s := a + p + b;
    assert OccursAt(s, p, |a|);
  }

  lemma StartsWithSelf(s: string)
    ensures StartsWith(s, s)
  {
    assert s[..|s|] == s;
  }

  /** Appending to a string keeps its prefixes. */
  lemma StartsWithAppend(s: string, p: string, t: string)
    requires StartsWith(s, p)
    ensures StartsWith(s + t, p)
  {
    assert (s + t)[..|p|] == s[..|p|];
  }

  lemma StartsWithTrans(s: string, q: string, p: string)
    requires StartsWith(s, q) && StartsWith(q, p)
    ensures StartsWith(s, p)
  {
    assert s[..|p|] == q[..|p|];
  }

  lemma EndsWithConcat(s: string, t: string)
    ensures EndsWith(s + t, t)
  {
    assert (s + t)[|s|..] == t;
  }

  /** A text that occurs in a prefix occurs in the whole string. */
  lemma ContainsInPrefix(s: string, q: string, p: string)
    requires StartsWith(s, q) && Contains(q, p)
    ensures Contains(s, p)
  {
    var i :| 0 <= i <= |q| - |p| && OccursAt(q, p, i);
    assert s[i..i + |p|] == q[i..i + |p|];
    assert OccursAt(s, p, i);
  }

  /**
    White space as JavaScript's `trim` and the regex class `\s` see it:
    the WhiteSpace and LineTerminator code points of ECMA-262.
   */
  predicate IsJsSpace(c: char) {
    c == ' ' || c == '\t' || c == '\n' || c == '\r' || c == '\U{000B}' || c == '\U{000C}'
    || c == '\U{00A0}' || c == '\U{1680}' || ('\U{2000}' <= c <= '\U{200A}')
    || c == '\U{2028}' || c == '\U{2029}' || c == '\U{202F}' || c == '\U{205F}'
    || c == '\U{3000}' || c == '\U{FEFF}'
  }

  function TrimStart(s: string): (r: string)
    ensures |r| <= |s| && r == s[|s| - |r|..]
    ensures |r| > 0 ==> !IsJsSpace(r[0])
    ensures forall i :: 0 <= i < |s| - |r| ==> IsJsSpace(s[i])
  {
    if |s| > 0 && IsJsSpace(s[0]) then
      assert forall i :: 1 <= i < |s| ==> s[i] == s[1..][i - 1];
      TrimStart(s[1..])
    else s
  }

  function TrimEnd(s: string): (r: string)
    ensures |r| <= |s| && r == s[..|r|]
    ensures |r| > 0 ==> !IsJsSpace(r[|r| - 1])
  {
    if |s| > 0 && IsJsSpace(s[|s| - 1]) then TrimEnd(s[..|s| - 1]) else s
  }

  /** JavaScript's `String.prototype.trim`. */
  function Trim(s: string): (r: string)
    ensures |r| <= |s|
    ensures |r| > 0 ==> !IsJsSpace(r[0]) && !IsJsSpace(r[|r| - 1])
  {
    TrimEnd(TrimStart(s))
  }

  /** `s.trim() === ''` holds exactly when every character is white space. */
  lemma {:induction false} TrimEmptyIffBlank(s: string)
    ensures Trim(s) == "" <==> forall i :: 0 <= i < |s| ==> IsJsSpace(s[i])
  {
    if |s| > 0 && IsJsSpace(s[0]) {
      TrimEmptyIffBlank(s[1..]);
      assert TrimStart(s) == TrimStart(s[1..]);
      if forall i :: 0 <= i < |s[1..]| ==> IsJsSpace(s[1..][i]) {
        forall i | 0 <= i < |s| ensures IsJsSpace(s[i]) {
          if i > 0 { assert s[i] == s[1..][i - 1]; }
        }
      }
    } else if |s| > 0 {
      assert TrimStart(s) == s;
      var t := TrimEnd(s);
      if |t| == 0 {
        TrimEndEmpty(s);
      }
    }
  }

  lemma {:induction false} TrimEndEmpty(s: string)
    requires |s| > 0 && !IsJsSpace(s[0])
    ensures |TrimEnd(s)| > 0
  {
    if IsJsSpace(s[|s| - 1]) {
      assert |s| > 1;
      TrimEndEmpty(s[..|s| - 1]);
    }
  }

  /** Decimal rendering of a natural number, `String(n)`. */
  function NatToString(n: nat): (r: string)
    ensures |r| > 0 && AllDigits(r)
    decreases n
  {
    if n < 10 then [DigitChar(n)] else NatToString(n / 10) + [DigitChar(n % 10)]
  }

  /** Decimal rendering of an integer, `String(i)`. */
  function IntToString(i: int): (r: string)
    ensures |r| > 0
  {
    if i < 0 then "-" + NatToString(-i) else NatToString(i)
  }

  /** `parts.join(sep)`. */
  function Join(parts: seq<string>, sep: string): string {
    if |parts| == 0 then ""
    else if |parts| == 1 then parts[0]
    else parts[0] + sep + Join(parts[1..], sep)
  }

  /** Number of occurrences of `c` in `s`. */
  function CountChar(s: string, c: char): nat {
    if |s| == 0 then 0 else (if s[0] == c then 1 else 0) + CountChar(s[1..], c)
  }

  /** `s.split(c)` for a one-character separator. */
  function Split(s: string, c: char): (r: seq<string>)
    ensures |r| == 1 + CountChar(s, c)
    ensures forall i :: 0 <= i < |r| ==> c !in r[i]
  {
    if |s| == 0 then [""]
    else
      var rest := Split(s[1..], c);
      if s[0] == c then [""] + rest
      else [[s[0]] + rest[0]] + rest[1..]
  }

  /** Splitting and joining back with the same separator gives the string again. */
  lemma {:induction false} JoinSplit(s: string, c: char)
    ensures Join(Split(s, c), [c]) == s
  {
    if |s| > 0 {
      JoinSplit(s[1..], c);
      var rest := Split(s[1..], c);
      if s[0] == c {
        assert Join([""] + rest, [c]) == "" + [c] + Join(rest, [c]);
      } else if |rest| == 1 {
        assert Split(s, c) == [[s[0]] + rest[0]];
      } else {
        var r := Split(s, c);
        assert r[1..] == rest[1..];
        assert Join(rest, [c]) == rest[0] + [c] + Join(rest[1..], [c]);
      }
    }
  }

  /** A string without the separator is one piece. */
  lemma {:induction false} SplitNoSeparator(s: string, c: char)
    requires c !in s
    ensures Split(s, c) == [s]
  {
    if |s| > 0 {
      assert c !in s[1..] by {
        forall i | 0 <= i < |s[1..]| ensures s[1..][i] != c { assert s[1..][i] == s[i + 1]; }
      }
      SplitNoSeparator(s[1..], c);
      assert [s[0]] + s[1..] == s;
    }
  }

  /** The text before the first separator is the first piece. */
  lemma {:induction false} SplitFirst(a: string, c: char, b: string)
    requires c !in a
    ensures Split(a + [c] + b, c) == [a] + Split(b, c)
  {
    if |a| == 0 {
      assert a + [c] + b == [c] + b;
      assert ([c] + b)[1..] == b;
    } else {
      assert (a + [c] + b)[1..] == a[1..] + [c] + b;
      SplitFirst(a[1..], c, b);
      assert [a[0]] + a[1..] == a;
    }
  }

  /** The text after the last separator is the last piece. */
  lemma {:induction false} SplitLast(a: string, c: char, b: string)
    requires c !in b
    ensures var r := Split(a + [c] + b, c); |r| >= 2 && r[|r| - 1] == b
  {
    if |a| == 0 {
      assert a + [c] + b == [c] + b;
      assert ([c] + b)[1..] == b;
      SplitNoSeparator(b, c);
    } else {
      assert (a + [c] + b)[1..] == a[1..] + [c] + b;
      SplitLast(a[1..], c, b);
    }
  }

  /**
    The last piece of a split is the text after the last separator: a
    suffix of `s`, all of `s` when the separator does not occur, and
    otherwise preceded by a separator.
   */
  lemma {:induction false} SplitLastPiece(s: string, c: char)
    ensures var r := Split(s, c); var t := r[|r| - 1];
      && |t| <= |s| && t == s[|s| - |t|..]
      && (|r| == 1 <==> c !in s)
      && (|r| == 1 ==> t == s)
      && (|r| > 1 ==> |t| < |s| && s[|s| - |t| - 1] == c)
  {
    if |s| > 0 {
      SplitLastPiece(s[1..], c);
      var rest := Split(s[1..], c);
      var r := Split(s, c);
      assert forall x :: x in s <==> x == s[0] || x in s[1..];
      if s[0] != c && |rest| == 1 {
        assert r == [[s[0]] + rest[0]];
        assert [s[0]] + s[1..] == s;
      } else {
        assert r[|r| - 1] == rest[|rest| - 1];
        var t := rest[|rest| - 1];
        assert s[1..][|s[1..]| - |t|..] == s[|s| - |t|..];
        if |rest| > 1 {
          assert s[1..][|s[1..]| - |t| - 1] == s[|s| - |t| - 1];
        }
      }
    }
  }

  /** A subset is no larger than its superset. */
  lemma {:induction false} SubsetCardinality(a: set<string>, b: set<string>)
    requires a <= b
    ensures |a| <= |b|
  {
    assert b == a + (b - a);
  }

  /** No element occurs twice. */
  predicate NoDuplicates<T(==)>(s: seq<T>) {
    forall i, j :: 0 <= i < j < |s| ==> s[i] != s[j]
  }

  /** The elements after the first are those of the tail, and the tail's elements are the sequence's. */
  lemma TailElements<T>(s: seq<T>)
    requires |s| > 0
    ensures forall k :: 1 <= k < |s| ==> s[k] == s[1..][k - 1] && s[k] in s[1..]
    ensures forall x :: x in s[1..] ==> x in s
  {
  }

  /** `s.filter(keep)`. */
  function Filter<T>(s: seq<T>, keep: T -> bool): (r: seq<T>)
    ensures |r| <= |s|
    ensures forall k :: 0 <= k < |r| ==> keep(r[k]) && r[k] in s
    ensures forall k :: 0 <= k < |s| && keep(s[k]) ==> s[k] in r
  {
    if |s| == 0 then []
    else
      var rest := Filter(s[1..], keep);
      TailElements(s);
      if keep(s[0]) then [s[0]] + rest else rest
  }

  /** `s.slice(0, n)`: the first `n` elements, or all of them when there are fewer. */
  function Take<T>(s: seq<T>, n: nat): (r: seq<T>)
    ensures |r| == if |s| <= n then |s| else n
    ensures r <= s
  {
    if |s| <= n then s else s[..n]
  }

  /** Taking from a sequence with a head element takes the head, then one fewer from the rest. */
  lemma TakeCons<T>(x: T, s: seq<T>, n: nat)
    requires n > 0
    ensures Take([x] + s, n) == [x] + Take(s, n - 1)
  {
    if |s| > n - 1 {
      assert ([x] + s)[..n] == [x] + s[..n - 1];
    }
  }

  /** Filtering a concatenation filters each part, keeping their order. */
  lemma {:induction false} FilterAppend<T>(a: seq<T>, b: seq<T>, keep: T -> bool)
    ensures Filter(a + b, keep) == Filter(a, keep) + Filter(b, keep)
  {
    if |a| == 0 {
      assert a + b == b;
    } else {
      assert (a + b)[1..] == a[1..] + b;
      FilterAppend(a[1..], b, keep);
    }
  }

  /** Joining two duplicate-free sequences with no element in common keeps them duplicate-free. */
  lemma NoDuplicatesAppend<T>(a: seq<T>, b: seq<T>)
    requires NoDuplicates(a) && NoDuplicates(b)
    requires forall i :: 0 <= i < |b| ==> b[i] !in a
    ensures NoDuplicates(a + b)
  {
    forall i, j | 0 <= i < j < |a + b| ensures (a + b)[i] != (a + b)[j] {
      if j >= |a| && i < |a| {
        assert (a + b)[j] == b[j - |a|];
      }
    }
  }

  /** The elements of a sequence. */
  function ToSet<T>(s: seq<T>): set<T> {
    set x | x in s
  }

  /** `[...new Set(s)]`: the distinct elements of `s` in first-occurrence order. */
  function Dedup<T(==)>(s: seq<T>): (r: seq<T>)
    ensures NoDuplicates(r)
    ensures ToSet(r) == ToSet(s)
  {
    var r := DedupFrom(s, []);
    assert [] + r == r;
    r
  }

  function DedupFrom<T(==)>(s: seq<T>, seen: seq<T>): (r: seq<T>)
    requires NoDuplicates(seen)
    ensures NoDuplicates(seen + r)
    ensures ToSet(r) == ToSet(s) - ToSet(seen)
    decreases |s|
  {
    if |s| == 0 then []
    else if s[0] in seen then
      var r := DedupFrom(s[1..], seen);
      assert ToSet(s) == {s[0]} + ToSet(s[1..]) by { assert s == [s[0]] + s[1..]; }
      r
    else
      var rest := DedupFrom(s[1..], seen + [s[0]]);
      assert seen + [s[0]] + rest == seen + ([s[0]] + rest);
      assert ToSet(s) == {s[0]} + ToSet(s[1..]) by { assert s == [s[0]] + s[1..]; }
      assert ToSet(seen + [s[0]]) == ToSet(seen) + {s[0]};
      assert ToSet([s[0]] + rest) == {s[0]} + ToSet(rest);
      [s[0]] + rest
  }

  /**
    A `Set` fed one more element: a new element goes last, a repeated one
    changes nothing. With `Dedup([]) == []` this fixes `Dedup` completely,
    so every element keeps the place of its first occurrence.
   */
  lemma DedupSnoc<T>(a: seq<T>, x: T)
    ensures Dedup(a + [x]) == Dedup(a) + (if x in a then [] else [x])
  {
    DedupFromSnoc(a, x, []);
  }

  lemma {:induction false} DedupFromSnoc<T>(a: seq<T>, x: T, seen: seq<T>)
    requires NoDuplicates(seen)
    ensures DedupFrom(a + [x], seen) == DedupFrom(a, seen) + (if x in seen || x in a then [] else [x])
    decreases |a|
  {
    if |a| == 0 {
      assert a + [x] == [x];
      assert [x][1..] == [];
      if x !in seen {
        assert DedupFrom([x], seen) == [x] + DedupFrom([], seen + [x]);
      }
    } else {
      assert (a + [x])[0] == a[0];
      assert (a + [x])[1..] == a[1..] + [x];
      assert x in a <==> x == a[0] || x in a[1..] by { assert a == [a[0]] + a[1..]; }
      if a[0] in seen {
        DedupFromSnoc(a[1..], x, seen);
      } else {
        DedupFromSnoc(a[1..], x, seen + [a[0]]);
        assert x in seen + [a[0]] <==> x in seen || x == a[0];
      }
    }
  }

  /** The first index at or after `from` where `sep` occurs. */
  function IndexOfFrom(s: string, sep: string, from: nat): (r: Option<nat>)
    requires from <= |s|
    ensures r.Some? ==>
              from <= r.value && OccursAt(s, sep, r.value)
              && forall j :: from <= j < r.value ==> !OccursAt(s, sep, j)
    ensures r.None? ==> forall j :: from <= j <= |s| ==> !OccursAt(s, sep, j)
    decreases |s| - from
  {
    if OccursAt(s, sep, from) then Some(from)
    else if from == |s| then None
    else IndexOfFrom(s, sep, from + 1)
  }

  /** A text occurring inside a prefix ending before the first occurrence does not occur there. */
  lemma NotInPrefix(s: string, sep: string, i: nat)
    requires i <= |s| && |sep| > 0
    requires forall j :: 0 <= j < i ==> !OccursAt(s, sep, j)
    ensures !Contains(s[..i], sep)
  {
    if Contains(s[..i], sep) {
      var j :| 0 <= j <= i - |sep| && OccursAt(s[..i], sep, j);
      assert s[j..j + |sep|] == s[..i][j..j + |sep|];
      assert OccursAt(s, sep, j);
    }
  }

  /** `s.split(sep)` for a non-empty separator: the pieces between the leftmost non-overlapping occurrences. */
  function SplitOn(s: string, sep: string): (r: seq<string>)
    requires |sep| > 0
    ensures |r| > 0
    ensures forall k :: 0 <= k < |r| ==> !Contains(r[k], sep)
    ensures Join(r, sep) == s
    decreases |s|
  {
    var i := IndexOfFrom(s, sep, 0);
    if i.None? then
      assert !Contains(s, sep);
      [s]
    else
      var rest := SplitOn(s[i.value + |sep|..], sep);
      NotInPrefix(s, sep, i.value);
      var r := [s[..i.value]] + rest;
      assert r[1..] == rest;
      assert s == s[..i.value] + sep + s[i.value + |sep|..] by {
        assert s[i.value..i.value + |sep|] == sep;
        assert s == s[..i.value] + s[i.value..i.value + |sep|] + s[i.value + |sep|..];
      }
      r
  }

  /** A text without the separator is one piece. */
  lemma SplitOnNoSeparator(s: string, sep: string)
    requires |sep| > 0 && !Contains(s, sep)
    ensures SplitOn(s, sep) == [s]
  {
    var i := IndexOfFrom(s, sep, 0);
    if i.Some? {
      ContainsAt(s, sep, i.value);
    }
  }
}
