/** Python's string primitives that the services rely on: split, join, rsplit, int() and str(). */
module Text {
  import opened Base

  /** `s.split(sep)` for a one-character separator: the pieces between the separators, always at least one. */
  function Split(s: string, sep: char): (parts: seq<string>)
    ensures |parts| >= 1
    ensures forall i :: 0 <= i < |parts| ==> sep !in parts[i]
  {
    if s == [] then [""]
    else
      var rest := Split(s[1..], sep);
      if s[0] == sep then [""] + rest
      else [[s[0]] + rest[0]] + rest[1..]
  }

  /** `sep.join(parts)`. */
  function Join(sep: char, parts: seq<string>): string
  {
    if |parts| == 0 then ""
    else if |parts| == 1 then parts[0]
    else parts[0] + [sep] + Join(sep, parts[1..])
  }

  /** Joining the pieces of a split with the same separator gives the text back. */
  lemma {:induction false} JoinSplit(s: string, sep: char)
    ensures Join(sep, Split(s, sep)) == s
  {
    if s != [] {
      JoinSplit(s[1..], sep);
      var rest := Split(s[1..], sep);
      if s[0] == sep {
        assert Split(s, sep)[1..] == rest;
      } else if |rest| > 1 {
        assert Split(s, sep)[1..] == rest[1..];
        assert Join(sep, rest) == rest[0] + [sep] + Join(sep, rest[1..]);
      }
    }
  }

  lemma {:induction false} SplitNoSeparator(a: string, sep: char)
    requires sep !in a
    ensures Split(a, sep) == [a]
  {
    if a != [] {
      SplitNoSeparator(a[1..], sep);
      assert [a[0]] + a[1..] == a;
    }
  }

  lemma {:induction false} SplitAfterPiece(a: string, sep: char, t: string)
    requires sep !in a
    ensures Split(a + [sep] + t, sep) == [a] + Split(t, sep)
  {
    var s := a + [sep] + t;
    if a == [] {
      assert s[1..] == t;
    } else {
      assert s[1..] == a[1..] + [sep] + t;
      SplitAfterPiece(a[1..], sep, t);
      assert [a[0]] + a[1..] == a;
    }
  }

  /** Splitting a join of separator-free pieces gives the pieces back. */
  lemma {:induction false} SplitJoin(parts: seq<string>, sep: char)
    requires |parts| >= 1
    requires forall i :: 0 <= i < |parts| ==> sep !in parts[i]
    ensures Split(Join(sep, parts), sep) == parts
  {
    if |parts| == 1 {
      SplitNoSeparator(parts[0], sep);
    } else {
      SplitJoin(parts[1..], sep);
      SplitAfterPiece(parts[0], sep, Join(sep, parts[1..]));
      assert [parts[0]] + parts[1..] == parts;
    }
  }

  /** Splitting around one separator splits each side independently. */
  lemma {:induction false} SplitConcat(x: string, sep: char, y: string)
    ensures Split(x + [sep] + y, sep) == Split(x, sep) + Split(y, sep)
  {
    var s := x + [sep] + y;
    if x == [] {
      assert s[1..] == y;
    } else {
      assert s[1..] == x[1..] + [sep] + y;
      SplitConcat(x[1..], sep, y);
    }
  }

  /** Text holding the separator splits into at least two pieces. */
  lemma SplitWithSeparator(x: string, sep: char)
    requires sep in x
    ensures |Split(x, sep)| >= 2
  {
    var i :| 0 <= i < |x| && x[i] == sep;
    assert x == x[..i] + [sep] + x[i + 1..];
    SplitConcat(x[..i], sep, x[i + 1..]);
  }

  /** Joining pieces of which one holds the separator gives text that splits into more pieces. */
  lemma {:induction false} SplitJoinLonger(parts: seq<string>, sep: char)
    requires |parts| >= 1
    requires exists i :: 0 <= i < |parts| && sep in parts[i]
    ensures |Split(Join(sep, parts), sep)| > |parts|
  {
    if |parts| == 1 {
      SplitWithSeparator(parts[0], sep);
    } else {
      SplitConcat(parts[0], sep, Join(sep, parts[1..]));
      SplitJoinAtLeast(parts[1..], sep);
      if sep in parts[0] {
        SplitWithSeparator(parts[0], sep);
      } else {
        var i :| 0 <= i < |parts| && sep in parts[i];
        assert parts[1..][i - 1] == parts[i];
        SplitJoinLonger(parts[1..], sep);
      }
    }
  }

  /** A join of n pieces splits into at least n pieces. */
  lemma {:induction false} SplitJoinAtLeast(parts: seq<string>, sep: char)
    requires |parts| >= 1
    ensures |Split(Join(sep, parts), sep)| >= |parts|
  {
    if |parts| > 1 {
      SplitConcat(parts[0], sep, Join(sep, parts[1..]));
      SplitJoinAtLeast(parts[1..], sep);
    }
  }

  /** A character absent from the text is absent from every piece of a split of it. */
  lemma {:induction false} SplitKeepsAbsent(s: string, sep: char, c: char)
    requires c !in s
    ensures forall i :: 0 <= i < |Split(s, sep)| ==> c !in Split(s, sep)[i]
  {
    if s != [] {
      SplitKeepsAbsent(s[1..], sep, c);
    }
  }

  /** A text that int() accepts holds only digits and signs. */
  lemma ParsedHasOnlyDigitsAndSigns(s: string, c: char)
    requires ParseInt(s).Some? && !IsDigit(c) && c != '-' && c != '+'
    ensures c !in s
  {
    if |s| >= 1 && (s[0] == '-' || s[0] == '+') {
      assert s == s[..1] + s[1..];
    }
  }

  /** Splitting yields more than one piece only when the separator occurs. */
  lemma SplitCountWithoutSeparator(s: string, sep: char)
    ensures sep !in s ==> Split(s, sep) == [s]
  {
    if sep !in s {
      SplitNoSeparator(s, sep);
    }
  }

  /** The index of the last occurrence of `c` in `s`, if any. */
  function LastIndexOf(s: string, c: char): (r: Option<nat>)
    ensures r.Some? ==> r.value < |s| && s[r.value] == c && c !in s[r.value + 1..]
    ensures r.None? ==> c !in s
  {
    if s == [] then None
    else if s[|s| - 1] == c then Some(|s| - 1)
    else
      var r := LastIndexOf(s[..|s| - 1], c);
      assert s == s[..|s| - 1] + [s[|s| - 1]];
      if r.Some? then
        assert s[r.value + 1..] == s[..|s| - 1][r.value + 1..] + [s[|s| - 1]];
        r
      else r
  }

  /** `s.rsplit(sep, 1)[0]`: the text before the last separator, or all of `s` when it has none. */
  function RSplitHead(s: string, sep: char): string
  {
    match LastIndexOf(s, sep)
    case None => s
    case Some(i) => s[..i]
  }

  /** A piece with no separator in it is what comes back from the head of an rsplit on it. */
  lemma RSplitHeadOfPair(head: string, sep: char, tail: string)
    requires sep !in tail
    ensures RSplitHead(head + [sep] + tail, sep) == head
  {
    var s := head + [sep] + tail;
    var r := LastIndexOf(s, sep);
    assert s[|head|] == sep;
    assert forall j :: |head| < j < |s| ==> s[j] == tail[j - |head| - 1];
  }

  predicate StartsWith(s: string, prefix: string)
  {
    |prefix| <= |s| && s[..|prefix|] == prefix
  }

  predicate IsDigit(c: char)
  {
    '0' <= c <= '9'
  }

  predicate AllDigits(s: string)
  {
    forall i :: 0 <= i < |s| ==> IsDigit(s[i])
  }

  function DigitChar(d: nat): char
    requires d < 10
  {
    ('0' as int + d) as char
  }

  /** The number a run of decimal digits denotes. */
  function DigitsValue(s: string): nat
    requires AllDigits(s)
  {
    if s == [] then 0
    else DigitsValue(s[..|s| - 1]) * 10 + (s[|s| - 1] as int - '0' as int)
  }

  /**
   * Python's `int(s)` for text: an optional sign and at least one ASCII digit.
   * `None` stands for the ValueError that int() raises on anything else.
   */
  function ParseInt(s: string): Option<int>
  {
    if |s| >= 1 && (s[0] == '-' || s[0] == '+') then
      if |s| >= 2 && AllDigits(s[1..]) then
        var magnitude: int := DigitsValue(s[1..]);
        Some(if s[0] == '-' then -magnitude else magnitude)
      else None
    else if |s| >= 1 && AllDigits(s) then Some(DigitsValue(s))
    else None
  }

  /** Python's `str(n)` for a non-negative integer. */
  function NatToString(n: nat): string
  {
    if n < 10 then [DigitChar(n)]
    else NatToString(n / 10) + [DigitChar(n % 10)]
  }

  /** Python's `str(i)` for an integer. */
  function IntToString(i: int): string
  {
    if i < 0 then "-" + NatToString(-i) else NatToString(i)
  }

  /** `str(n)` is a non-empty run of digits that denotes `n`, with no leading zero unless n is 0. */
  lemma {:induction false} NatToStringDigits(n: nat)
    ensures |NatToString(n)| >= 1 && AllDigits(NatToString(n))
    ensures DigitsValue(NatToString(n)) == n
    ensures n >= 1 ==> NatToString(n)[0] != '0'
  {
    var s := NatToString(n);
    if n >= 10 {
      NatToStringDigits(n / 10);
      assert s[..|s| - 1] == NatToString(n / 10);
    }
  }

  /** int(str(i)) == i. */
  lemma ParseIntToString(i: int)
    ensures ParseInt(IntToString(i)) == Some(i)
  {
    if i < 0 {
      NatToStringDigits(-i);
      assert IntToString(i)[1..] == NatToString(-i);
    } else {
      NatToStringDigits(i);
    }
  }

  function Pow10(k: nat): (p: nat)
    ensures p >= 1
  {
    if k == 0 then 1 else 10 * Pow10(k - 1)
  }

  /** A number with k digits, i.e. in [10^(k-1), 10^k), is printed with exactly k characters. */
  lemma {:induction false} NatToStringLength(n: nat, k: nat)
    requires k >= 1 && Pow10(k - 1) <= n < Pow10(k)
    ensures |NatToString(n)| == k
  {
    if k > 1 {
      assert Pow10(k - 1) == 10 * Pow10(k - 2);
      assert Pow10(k) == 10 * Pow10(k - 1);
      assert n / 10 >= Pow10(k - 2);
      assert n / 10 < Pow10(k - 1);
      NatToStringLength(n / 10, k - 1);
    }
  }
}
