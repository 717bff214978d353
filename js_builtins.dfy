/**
 * The JavaScript built-ins that the search components call, on values:
 * `String.prototype.split` with a one-character separator, `Array.prototype.join`,
 * `endsWith`, `indexOf`, `reverse`, the start index of `Array.prototype.slice`,
 * and `parseInt` restricted to strings of decimal digits.
 */
module JsBuiltins {

  /** `s.endsWith(suffix)`. */
  predicate EndsWith(s: string, suffix: string) {
    |suffix| <= |s| && s[|s| - |suffix|..] == suffix
  }

  /** `s.split(sep)` for a one-character separator: never empty, no part holds `sep`. */
  function Split(s: string, sep: char): (parts: seq<string>)
    ensures |parts| >= 1
    ensures forall i :: 0 <= i < |parts| ==> sep !in parts[i]
    decreases |s|
  {
    if |s| == 0 then [""]
    else if s[0] == sep then [""] + Split(s[1..], sep)
    else
      var rest := Split(s[1..], sep);
      [[s[0]] + rest[0]] + rest[1..]
  }

  /** `parts.join(sep)`; an empty array joins to the empty string. */
  function Join(parts: seq<string>, sep: string): string
    decreases |parts|
  {
    if |parts| == 0 then ""
    else if |parts| == 1 then parts[0]
    else parts[0] + sep + Join(parts[1..], sep)
  }

  lemma JoinConsHead(parts: seq<string>, sep: string, c: char)
    requires |parts| >= 1
    ensures Join([[c] + parts[0]] + parts[1..], sep) == [c] + Join(parts, sep)
  {
    var q := [[c] + parts[0]] + parts[1..];
    assert q[1..] == parts[1..];
  }

  /** Joining the parts of a split with the separator gives back the string. */
  lemma {:induction false} JoinSplit(s: string, sep: char)
    ensures Join(Split(s, sep), [sep]) == s
    decreases |s|
  {
    if |s| == 0 {
    } else if s[0] == sep {
      JoinSplit(s[1..], sep);
      var rest := Split(s[1..], sep);
      assert ([""] + rest)[1..] == rest;
      assert Join([""] + rest, [sep]) == "" + [sep] + Join(rest, [sep]);
    } else {
      JoinSplit(s[1..], sep);
      JoinConsHead(Split(s[1..], sep), [sep], s[0]);
    }
  }

  /** A string without the separator splits into itself alone. */
  lemma {:induction false} SplitWithoutSeparator(s: string, sep: char)
    requires sep !in s
    ensures Split(s, sep) == [s]
    decreases |s|
  {
    if |s| > 0 {
      assert s[0] != sep;
      assert sep !in s[1..];
      SplitWithoutSeparator(s[1..], sep);
      assert [s[0]] + s[1..] == s;
    }
  }

  lemma {:induction false} SplitAfterSegment(a: string, sep: char, b: string)
    requires sep !in a
    ensures Split(a + [sep] + b, sep) == [a] + Split(b, sep)
    decreases |a|
  {
    var s := a + [sep] + b;
    if |a| == 0 {
      assert s[0] == sep && s[1..] == b;
    } else {
      assert s[0] == a[0] && s[0] != sep;
      assert s[1..] == a[1..] + [sep] + b;
      assert sep !in a[1..];
      SplitAfterSegment(a[1..], sep, b);
      assert [a[0]] + a[1..] == a;
    }
  }

  /** Splitting a join gives back the parts, when no part holds the separator. */
  lemma {:induction false} SplitJoin(parts: seq<string>, sep: char)
    requires |parts| >= 1
    requires forall i :: 0 <= i < |parts| ==> sep !in parts[i]
    ensures Split(Join(parts, [sep]), sep) == parts
    decreases |parts|
  {
    if |parts| == 1 {
      SplitWithoutSeparator(parts[0], sep);
    } else {
      SplitJoin(parts[1..], sep);
      SplitAfterSegment(parts[0], sep, Join(parts[1..], [sep]));
    }
  }

  /** A join excludes every character that neither the parts nor the separator hold. */
  lemma {:induction false} JoinExcludes(parts: seq<string>, sep: string, x: char)
    requires x !in sep
    requires forall i :: 0 <= i < |parts| ==> x !in parts[i]
    ensures x !in Join(parts, sep)
    decreases |parts|
  {
    if |parts| > 1 {
      JoinExcludes(parts[1..], sep, x);
    }
  }

  /** Joins of part lists with the same part lengths have the same length. */
  lemma {:induction false} JoinSameLengths(ps: seq<string>, qs: seq<string>, sep: string)
    requires |ps| == |qs|
    requires forall i :: 0 <= i < |ps| ==> |ps[i]| == |qs[i]|
    ensures |Join(ps, sep)| == |Join(qs, sep)|
    decreases |ps|
  {
    if |ps| > 1 {
      JoinSameLengths(ps[1..], qs[1..], sep);
    }
  }

  /** `s` holds two separators next to each other. */
  predicate Doubled(s: string, sep: char)
    decreases |s|
  {
    |s| >= 2 && ((s[0] == sep && s[1] == sep) || Doubled(s[1..], sep))
  }

  lemma FirstPartEmpty(s: string, sep: char)
    ensures Split(s, sep)[0] == "" <==> |s| == 0 || s[0] == sep
  {
  }

  lemma {:induction false} LaterPartEmpty(s: string, sep: char)
    ensures "" in Split(s, sep)[1..] <==> |s| > 0 && (s[|s| - 1] == sep || Doubled(s, sep))
    decreases |s|
  {
    if |s| > 0 {
      var s' := s[1..];
      var rest := Split(s', sep);
      LaterPartEmpty(s', sep);
      FirstPartEmpty(s', sep);
      if s[0] == sep {
        assert Split(s, sep)[1..] == rest;
        assert "" in rest <==> rest[0] == "" || "" in rest[1..];
        if |s'| > 0 {
          assert s[|s| - 1] == s'[|s'| - 1];
        }
      } else {
        assert Split(s, sep)[1..] == rest[1..];
        if |s'| > 0 {
          assert s[|s| - 1] == s'[|s'| - 1];
        }
      }
    }
  }

  /**
   * A split has an empty part exactly when the string is empty, starts or ends with
   * the separator, or holds two separators in a row.
   */
  lemma EmptyPartIff(s: string, sep: char)
    ensures "" in Split(s, sep) <==>
      |s| == 0 || s[0] == sep || s[|s| - 1] == sep || Doubled(s, sep)
  {
    var parts := Split(s, sep);
    assert parts == [parts[0]] + parts[1..];
    FirstPartEmpty(s, sep);
    LaterPartEmpty(s, sep);
  }

  /** `a.indexOf(x)`: the first position of `x`, or -1. */
  function IndexOf<T(==)>(a: seq<T>, x: T): (r: int)
    ensures -1 <= r < |a|
    ensures r == -1 <==> x !in a
    ensures r >= 0 ==> a[r] == x && x !in a[..r]
    decreases |a|
  {
    if |a| == 0 then -1
    else if a[0] == x then 0
    else var r := IndexOf(a[1..], x); if r == -1 then -1 else r + 1
  }

  /** Any position holding the first occurrence of `x` is the one `indexOf` reports. */
  lemma IndexOfUnique<T>(a: seq<T>, x: T, i: nat)
    requires i < |a| && a[i] == x && x !in a[..i]
    ensures IndexOf(a, x) == i
  {
  }

  /** `a.lastIndexOf(x)`: the last position of `x`, or -1. */
  function LastIndexOf<T(==)>(a: seq<T>, x: T): (r: int)
    ensures -1 <= r < |a|
    ensures r == -1 <==> x !in a
    ensures r >= 0 ==> a[r] == x && x !in a[r + 1..]
    decreases |a|
  {
    if |a| == 0 then -1
    else if a[|a| - 1] == x then |a| - 1
    else
      var r := LastIndexOf(a[..|a| - 1], x);
      assert a == a[..|a| - 1] + [a[|a| - 1]];
      assert r >= 0 ==> a[r + 1..] == a[..|a| - 1][r + 1..] + [a[|a| - 1]];
      r
  }

  /** `a.reverse()`, as a value. */
  function Reverse<T>(a: seq<T>): (r: seq<T>)
    ensures |r| == |a|
    ensures forall i :: 0 <= i < |a| ==> r[i] == a[|a| - 1 - i]
    decreases |a|
  {
    if |a| == 0 then [] else Reverse(a[1..]) + [a[0]]
  }

  /** Reversing keeps the same elements. */
  lemma InReverse<T>(a: seq<T>, x: T)
    ensures x in Reverse(a) <==> x in a
  {
    var r := Reverse(a);
    if x in r {
      var j :| 0 <= j < |r| && r[j] == x;
      assert a[|a| - 1 - j] == x;
    }
    if x in a {
      var j :| 0 <= j < |a| && a[j] == x;
      assert r[|a| - 1 - j] == x;
    }
  }

  /** In the reversed array, `x` first stands where it last stood in the original, counted from the end. */
  lemma IndexOfReverse<T>(a: seq<T>, x: T)
    ensures x in Reverse(a) <==> x in a
    ensures x in a ==> IndexOf(Reverse(a), x) == |a| - 1 - LastIndexOf(a, x)
  {
    InReverse(a, x);
    if x in a {
      ReverseFirstOccurrence(a, x);
    }
  }

  lemma ReverseFirstOccurrence<T>(a: seq<T>, x: T)
    requires x in a
    ensures IndexOf(Reverse(a), x) == |a| - 1 - LastIndexOf(a, x)
  {
    var r := Reverse(a);
    var l := LastIndexOf(a, x);
    var i := |a| - 1 - l;
    forall j | 0 <= j < i ensures r[..i][j] != x {
      assert r[j] == a[|a| - 1 - j];
      assert a[|a| - 1 - j] == a[l + 1..][|a| - 1 - j - (l + 1)];
    }
    IndexOfUnique(r, x, i);
  }

  /** The position where `a.slice(n)` starts (and `a.slice(0, n)` ends) for an array of length `len`. */
  function SliceIndex(n: int, len: nat): (r: nat)
    ensures r <= len
    ensures 0 <= n <= len ==> r == n
    ensures n > len ==> r == len
    ensures n < 0 ==> r + (-n) == len || (r == 0 && -n >= len)
  {
    if n < 0 then (if len + n < 0 then 0 else len + n)
    else if n > len then len
    else n
  }

  predicate IsDigit(c: char) {
    '0' <= c <= '9'
  }

  /** A non-empty string of decimal digits, which `parseInt` reads whole. */
  predicate IsDecimal(s: string) {
    |s| > 0 && forall i :: 0 <= i < |s| ==> IsDigit(s[i])
  }

  /** `parseInt(s)` for a string of decimal digits. */
  function DecimalValue(s: string): (n: nat)
    requires forall i :: 0 <= i < |s| ==> IsDigit(s[i])
    decreases |s|
  {
    if |s| == 0 then 0
    else
      assert IsDigit(s[|s| - 1]);
      DecimalValue(s[..|s| - 1]) * 10 + (s[|s| - 1] as int - '0' as int)
  }
}
