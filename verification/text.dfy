/** Text primitives the telemetry code relies on: ASCII decimal digits,
    Python's `int(...)` on a digit string and `str(...)` on an integer,
    `str.startswith`, `str.split` on one separator and `''.join`. */
module Text {

  datatype Option<+T> = None | Some(value: T)

  predicate IsDigit(c: char) {
    '0' <= c <= '9'
  }

  predicate AllDigits(s: string) {
    forall i :: 0 <= i < |s| ==> IsDigit(s[i])
  }

  /** `s.startswith(prefix)` */
  predicate StartsWith(s: string, prefix: string) {
    |prefix| <= |s| && s[..|prefix|] == prefix
  }

  /** A string starts with a prefix exactly when it is that prefix followed
      by the rest of the string. */
  lemma StartsWithAppend(s: string, prefix: string)
    ensures StartsWith(prefix + s, prefix)
    ensures StartsWith(s, prefix) <==> |prefix| <= |s| && s == prefix + s[|prefix|..]
  {
    assert (prefix + s)[..|prefix|] == prefix;
    if |prefix| <= |s| {
      assert s == s[..|prefix|] + s[|prefix|..];
    }
  }

  function DigitValue(c: char): (d: nat)
    requires IsDigit(c)
    ensures d < 10
  {
    c as int - '0' as int
  }

  function DigitChar(d: nat): (c: char)
    requires d < 10
    ensures IsDigit(c) && DigitValue(c) == d
  {
    ('0' as int + d) as char
  }

  /** `int(ds)` for a non-empty run of ASCII digits (leading zeros allowed). */
  function DigitsValue(ds: string): nat
    requires AllDigits(ds)
  {
    if ds == [] then 0
    else DigitsValue(ds[..|ds| - 1]) * 10 + DigitValue(ds[|ds| - 1])
  }

  /** `str(n)` for a non-negative integer: canonical decimal, no leading zeros. */
  function NatToString(n: nat): (s: string)
    ensures 1 <= |s| && AllDigits(s)
    ensures |s| == 1 || s[0] != '0'
    ensures n < 10 <==> |s| == 1
  {
    if n < 10 then [DigitChar(n)]
    else NatToString(n / 10) + [DigitChar(n % 10)]
  }

  lemma {:induction false} DigitsValueOfNatToString(n: nat)
    ensures DigitsValue(NatToString(n)) == n
  {
    if n >= 10 {
      var s := NatToString(n);
      assert s[..|s| - 1] == NatToString(n / 10);
      DigitsValueOfNatToString(n / 10);
    }
  }

  /** `str(n)` / `'{}'.format(n)` for any Python integer: a minus sign
      before the digits of a negative number. Reading the digits back
      gives the magnitude. */
  function IntToString(n: int): (s: string)
    ensures n >= 0 ==> AllDigits(s) && DigitsValue(s) == n
    ensures n < 0 ==> 2 <= |s| && s[0] == '-' && AllDigits(s[1..]) && DigitsValue(s[1..]) == -n
    // no leading zeros
    ensures n >= 0 ==> 1 <= |s| && (|s| == 1 || s[0] != '0')
    ensures n < 0 ==> |s| == 2 || s[1] != '0'
    ensures forall i :: 0 <= i < |s| ==> IsDigit(s[i]) || (i == 0 && s[i] == '-')
  {
    if n >= 0 then
      DigitsValueOfNatToString(n);
      NatToString(n)
    else
      DigitsValueOfNatToString(-n);
      var s := "-" + NatToString(-n);
      assert s[1..] == NatToString(-n);
      s
  }

  /** Index of the first occurrence of `sep` in `s`. */
  function FirstIndex(s: string, sep: char): (i: nat)
    requires sep in s
    ensures i < |s| && s[i] == sep && sep !in s[..i]
  {
    if s[0] == sep then 0
    else
      assert sep in s[1..] by { assert s == [s[0]] + s[1..]; }
      var j := FirstIndex(s[1..], sep);
      assert s[..j + 1] == [s[0]] + s[1..][..j];
      j + 1
  }

  /** `sep.join(fields)` for a non-empty list of fields. */
  function JoinWith(fields: seq<string>, sep: char): string
    requires |fields| >= 1
  {
    if |fields| == 1 then fields[0]
    else fields[0] + [sep] + JoinWith(fields[1..], sep)
  }

  /** `s.split(sep)` for a one-character separator: always at least one
      field, no field holds the separator, and joining the fields back
      with the separator gives `s` again. */
  function Split(s: string, sep: char): (fields: seq<string>)
    ensures |fields| >= 1
    ensures forall k :: 0 <= k < |fields| ==> sep !in fields[k]
    ensures JoinWith(fields, sep) == s
    decreases |s|
  {
    if sep !in s then
      [s]
    else
      var i := FirstIndex(s, sep);
      var rest := Split(s[i + 1..], sep);
      assert s == s[..i] + [sep] + s[i + 1..];
      assert ([s[..i]] + rest)[1..] == rest;
      [s[..i]] + rest
  }

  /** `len(s.split(sep)) == s.count(sep) + 1` */
  lemma {:induction false} SplitCount(s: string, sep: char)
    ensures |Split(s, sep)| == Count(s, sep) + 1
    decreases |s|
  {
    if sep !in s {
      CountAbsent(s, sep);
    } else {
      var i := FirstIndex(s, sep);
      assert s == s[..i] + [sep] + s[i + 1..];
      SplitCount(s[i + 1..], sep);
      CountConcat(s[..i] + [sep], s[i + 1..], sep);
      CountConcat(s[..i], [sep], sep);
      CountAbsent(s[..i], sep);
    }
  }

  /** The first separator of `a + [sep] + b` is the one after `a` when `a`
      has none. */
  lemma {:induction false} FirstIndexAfter(a: string, sep: char, b: string)
    requires sep !in a
    ensures sep in a + [sep] + b && FirstIndex(a + [sep] + b, sep) == |a|
  {
    var s := a + [sep] + b;
    assert s[|a|] == sep;
    if a != [] {
      assert s[1..] == a[1..] + [sep] + b;
      FirstIndexAfter(a[1..], sep, b);
    }
  }

  /** `sep.join` of six fields, written out. */
  lemma JoinWithSix(a: string, b: string, c: string, d: string, e: string, f: string, sep: char)
    ensures JoinWith([a, b, c, d, e, f], sep) == a + [sep] + b + [sep] + c + [sep] + d + [sep] + e + [sep] + f
  {
    var fs := [a, b, c, d, e, f];
    assert fs[1..][1..][1..][1..][1..] == [f];
    assert JoinWith(fs[1..][1..][1..][1..], sep) == e + [sep] + f;
    assert JoinWith(fs[1..][1..][1..], sep) == d + [sep] + e + [sep] + f;
    assert JoinWith(fs[1..][1..], sep) == c + [sep] + d + [sep] + e + [sep] + f;
    assert JoinWith(fs[1..], sep) == b + [sep] + c + [sep] + d + [sep] + e + [sep] + f;
  }

  /** Splitting peels off a separator-free first field. */
  lemma SplitStep(a: string, sep: char, b: string)
    requires sep !in a
    ensures Split(a + [sep] + b, sep) == [a] + Split(b, sep)
  {
    FirstIndexAfter(a, sep, b);
    Slices(a, [sep], b, 0, 0);
  }

  // One unfolding of `JoinWith`, with a tail appended.
  lemma JoinWithCons(head: seq<string>, sep: char, rest: string)
    requires |head| >= 2
    ensures JoinWith(head, sep) + [sep] + rest == head[0] + [sep] + (JoinWith(head[1..], sep) + [sep] + rest)
  {
  }

  // A non-empty sequence is its head followed by its tail.
  lemma ConsAppend<T>(head: seq<T>, t: seq<T>)
    requires |head| >= 1
    ensures [head[0]] + (head[1..] + t) == head + t
  {
    assert head == [head[0]] + head[1..];
  }

  /** Splitting peels off separator-free leading fields. */
  lemma {:induction false} SplitFields(head: seq<string>, sep: char, rest: string)
    requires |head| >= 1
    requires forall k :: 0 <= k < |head| ==> sep !in head[k]
    ensures Split(JoinWith(head, sep) + [sep] + rest, sep) == head + Split(rest, sep)
  {
    if |head| == 1 {
      SplitStep(head[0], sep, rest);
    } else {
      var tail := JoinWith(head[1..], sep) + [sep] + rest;
      JoinWithCons(head, sep, rest);
      SplitStep(head[0], sep, tail);
      SplitFields(head[1..], sep, rest);
      ConsAppend(head, Split(rest, sep));
    }
  }

  /** The other round trip: splitting a join of separator-free fields
      gives the fields back. */
  lemma {:induction false} SplitJoinWith(fields: seq<string>, sep: char)
    requires |fields| >= 1
    requires forall k :: 0 <= k < |fields| ==> sep !in fields[k]
    ensures Split(JoinWith(fields, sep), sep) == fields
  {
    if |fields| > 1 {
      var rest := fields[1..];
      SplitStep(fields[0], sep, JoinWith(rest, sep));
      SplitJoinWith(rest, sep);
      assert fields == [fields[0]] + rest;
    }
  }

  /** Slices of a three-part concatenation. */
  lemma Slices(a: string, b: string, c: string, x: nat, y: nat)
    requires x <= y <= |b|
    ensures |a + b + c| == |a| + |b| + |c|
    ensures (a + b + c)[..|a|] == a
    ensures (a + b + c)[|a| + |b|..] == c
    ensures (a + b + c)[|a| + x..|a| + y] == b[x..y]
  {
  }

  /** Number of occurrences of `c` in `s` (`s.count(c)`). */
  function Count(s: string, c: char): nat {
    if s == [] then 0
    else Count(s[..|s| - 1], c) + (if s[|s| - 1] == c then 1 else 0)
  }

  lemma {:induction false} CountConcat(a: string, b: string, c: char)
    ensures Count(a + b, c) == Count(a, c) + Count(b, c)
  {
    if b != [] {
      assert (a + b)[..|a + b| - 1] == a + b[..|b| - 1];
      assert (a + b)[|a + b| - 1] == b[|b| - 1];
      CountConcat(a, b[..|b| - 1], c);
    } else {
      assert a + b == a;
    }
  }

  lemma {:induction false} CountAbsent(s: string, c: char)
    requires c !in s
    ensures Count(s, c) == 0
  {
    if s != [] {
      assert c !in s[..|s| - 1];
      CountAbsent(s[..|s| - 1], c);
    }
  }

  /** `''.join(parts)` */
  function Concat(parts: seq<string>): string {
    if parts == [] then ""
    else Concat(parts[..|parts| - 1]) + parts[|parts| - 1]
  }

  lemma ConcatAppend(parts: seq<string>, x: string)
    ensures Concat(parts + [x]) == Concat(parts) + x
  {
    assert (parts + [x])[..|parts|] == parts;
  }
}
