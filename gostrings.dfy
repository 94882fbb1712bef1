/** The pieces of Go's standard string handling the program relies on:
    byte-wise string order and sort.Strings, strings.TrimSpace,
    strings.HasPrefix/TrimPrefix and the decimal rendering of %d.

    Strings are sequences of Unicode scalar values. Go compares strings as
    UTF-8 byte sequences; UTF-8 preserves code point order, so comparing
    the characters gives the same order for text that is valid UTF-8. */
module GoStrings {

  /** Strict lexicographic order (Go's a < b on strings). */
  predicate Less(a: string, b: string)
  {
    if a == [] then b != []
    else if b == [] then false
    else if a[0] != b[0] then a[0] < b[0]
    else Less(a[1..], b[1..])
  }

  lemma {:induction false} LessIrreflexive(a: string)
    ensures !Less(a, a)
  {
    if a != [] { LessIrreflexive(a[1..]); }
  }

  lemma {:induction false} LessTransitive(a: string, b: string, c: string)
    requires Less(a, b) && Less(b, c)
    ensures Less(a, c)
  {
    if a != [] && b != [] && c != [] && a[0] == b[0] == c[0] {
      LessTransitive(a[1..], b[1..], c[1..]);
    }
  }

  lemma {:induction false} LessTotal(a: string, b: string)
    ensures a == b || Less(a, b) || Less(b, a)
  {
    if a != [] && b != [] && a[0] == b[0] {
      LessTotal(a[1..], b[1..]);
      if a[1..] == b[1..] {
        assert a == [a[0]] + a[1..] && b == [b[0]] + b[1..];
      }
    }
  }

  /** Ascending order, as sort.Strings leaves a slice. */
  predicate Sorted(s: seq<string>)
  {
    forall i, j | 0 <= i < j < |s| :: !Less(s[j], s[i])
  }

  /** x put in front of the first element of s that is not smaller. */
  function Insert(x: string, s: seq<string>): (r: seq<string>)
    requires Sorted(s)
    ensures Sorted(r)
    ensures multiset(r) == multiset(s) + multiset{x}
  {
    if s == [] then [x]
    else if Less(s[0], x) then
      var rest := Insert(x, s[1..]);
      assert s == [s[0]] + s[1..];
      HeadBelowInsertion(x, s, rest);
      [s[0]] + rest
    else
      InsertionBelowAll(x, s);
      [x] + s
  }

  /** The head of s stays below everything once x, larger than it, is
      inserted into the tail. */
  lemma HeadBelowInsertion(x: string, s: seq<string>, rest: seq<string>)
    requires Sorted(s) && s != [] && Less(s[0], x)
    requires multiset(rest) == multiset(s[1..]) + multiset{x}
    ensures forall k | 0 <= k < |rest| :: !Less(rest[k], s[0])
  {
    forall k | 0 <= k < |rest| ensures !Less(rest[k], s[0]) {
      assert rest[k] in multiset(rest);
      if rest[k] == x {
        LessIrreflexive(x);
        if Less(x, s[0]) { LessTransitive(x, s[0], x); }
      } else {
        assert rest[k] in multiset(s[1..]);
        var m :| 1 <= m < |s| && s[m] == rest[k];
        assert !Less(s[m], s[0]);
      }
    }
  }

  /** An x not above the head of s is not above any element. */
  lemma InsertionBelowAll(x: string, s: seq<string>)
    requires Sorted(s) && s != [] && !Less(s[0], x)
    ensures forall k | 0 <= k < |s| :: !Less(s[k], x)
  {
    forall k | 0 <= k < |s| ensures !Less(s[k], x) {
      LessTotal(s[0], x);
      if k > 0 && Less(s[k], x) {
        LessTotal(s[0], s[k]);
        if s[0] != s[k] { LessTransitive(s[0], s[k], x); }
      }
    }
  }

  /** sort.Strings: the same strings, in ascending order. */
  function SortStrings(s: seq<string>): (r: seq<string>)
    ensures Sorted(r)
    ensures multiset(r) == multiset(s)
  {
    if s == [] then []
    else
      assert s == s[..|s| - 1] + [s[|s| - 1]];
      Insert(s[|s| - 1], SortStrings(s[..|s| - 1]))
  }

  /** Two sorted arrangements of one multiset start with the same string. */
  lemma SortedSameHead(a: seq<string>, b: seq<string>)
    requires Sorted(a) && Sorted(b) && a != [] && |b| == |a|
    requires multiset(a) == multiset(b)
    ensures a[0] == b[0]
  {
    assert a[0] in multiset(b);
    var j :| 0 <= j < |b| && b[j] == a[0];
    assert b[0] in multiset(a);
    var i :| 0 <= i < |a| && a[i] == b[0];
    LessIrreflexive(a[0]);
    LessIrreflexive(b[0]);
    assert !Less(a[i], a[0]) && !Less(b[j], b[0]);
    LessTotal(a[0], b[0]);
  }

  /** A sorted arrangement of a multiset of strings is unique, so the
      order sort.Strings produces does not depend on how it sorts. */
  lemma {:induction false} SortedPermutationUnique(a: seq<string>, b: seq<string>)
    requires Sorted(a) && Sorted(b)
    requires multiset(a) == multiset(b)
    ensures a == b
  {
    if a != [] {
      assert |b| == |a| by { assert |multiset(a)| == |a| && |multiset(b)| == |b|; }
      SortedSameHead(a, b);
      assert a == [a[0]] + a[1..] && b == [b[0]] + b[1..];
      assert multiset(a) == multiset{a[0]} + multiset(a[1..]);
      assert multiset(b) == multiset{b[0]} + multiset(b[1..]);
      assert multiset(a[1..]) == multiset(a) - multiset{a[0]};
      assert multiset(b[1..]) == multiset(b) - multiset{b[0]};
      SortedPermutationUnique(a[1..], b[1..]);
    }
  }

  /** unicode.IsSpace: ASCII white space, NEL, NBSP and the Unicode
      White_Space characters. */
  predicate IsSpace(c: char)
  {
    var n := c as int;
    (9 <= n <= 13) || n == 32 || n == 0x85 || n == 0xA0 || n == 0x1680
    || (0x2000 <= n <= 0x200A) || n == 0x2028 || n == 0x2029
    || n == 0x202F || n == 0x205F || n == 0x3000
  }

  predicate AllSpace(s: string)
  {
    forall k | 0 <= k < |s| :: IsSpace(s[k])
  }

  /** strings.TrimLeft(s, white space). */
  function TrimLeftSpace(s: string): string
  {
    if s != [] && IsSpace(s[0]) then TrimLeftSpace(s[1..]) else s
  }

  /** strings.TrimRight(s, white space). */
  function TrimRightSpace(s: string): string
  {
    if s != [] && IsSpace(s[|s| - 1]) then TrimRightSpace(s[..|s| - 1]) else s
  }

  /** strings.TrimSpace: s without its leading and trailing white space. */
  function TrimSpace(s: string): string
  {
    TrimRightSpace(TrimLeftSpace(s))
  }

  /** TrimLeftSpace keeps a suffix, drops only white space and stops at
      the first other character. */
  lemma {:induction false} TrimLeftSpaceSpec(s: string)
    ensures var r := TrimLeftSpace(s);
      && |r| <= |s| && r == s[|s| - |r|..]
      && AllSpace(s[..|s| - |r|])
      && (r == [] || !IsSpace(r[0]))
  {
    if s != [] && IsSpace(s[0]) {
      TrimLeftSpaceSpec(s[1..]);
      var r := TrimLeftSpace(s);
      assert s[..|s| - |r|] == [s[0]] + s[1..][..|s| - 1 - |r|];
    }
  }

  /** TrimRightSpace keeps a prefix, drops only white space and stops at
      the last other character. */
  lemma {:induction false} TrimRightSpaceSpec(s: string)
    ensures var r := TrimRightSpace(s);
      && |r| <= |s| && r == s[..|r|]
      && AllSpace(s[|r|..])
      && (r == [] || !IsSpace(r[|r| - 1]))
  {
    if s != [] && IsSpace(s[|s| - 1]) {
      var t := s[..|s| - 1];
      TrimRightSpaceSpec(t);
      var r := TrimRightSpace(s);
      assert s[|r|..] == t[|r|..] + [s[|s| - 1]];
    }
  }

  /** TrimSpace leaves the middle of s, with only white space around it,
      and neither starts nor ends with white space. */
  lemma TrimSpaceSpec(s: string)
    ensures var r := TrimSpace(s);
      && (exists i | 0 <= i <= |s| - |r| ::
            r == s[i..i + |r|] && AllSpace(s[..i]) && AllSpace(s[i + |r|..]))
      && (r == [] || (!IsSpace(r[0]) && !IsSpace(r[|r| - 1])))
  {
    var t := TrimLeftSpace(s);
    TrimLeftSpaceSpec(s);
    var r := TrimRightSpace(t);
    TrimRightSpaceSpec(t);
    var i := |s| - |t|;
    assert t == s[i..];
    assert r == s[i..i + |r|] by { assert r == t[..|r|]; }
    assert AllSpace(s[i + |r|..]) by { assert s[i + |r|..] == t[|r|..]; }
    if r != [] {
      assert r[0] == t[0];
    }
  }

  /** Leading white space before a non-space is what TrimLeftSpace drops. */
  lemma {:induction false} TrimLeftOfSpaces(lead: string, rest: string)
    requires AllSpace(lead) && (rest == [] || !IsSpace(rest[0]))
    ensures TrimLeftSpace(lead + rest) == rest
  {
    if lead != [] {
      assert (lead + rest)[0] == lead[0] && (lead + rest)[1..] == lead[1..] + rest;
      TrimLeftOfSpaces(lead[1..], rest);
    } else {
      assert lead + rest == rest;
    }
  }

  /** Trailing white space after a non-space is what TrimRightSpace drops. */
  lemma {:induction false} TrimRightOfSpaces(rest: string, trail: string)
    requires AllSpace(trail) && (rest == [] || !IsSpace(rest[|rest| - 1]))
    ensures TrimRightSpace(rest + trail) == rest
  {
    if trail != [] {
      var s := rest + trail;
      assert s[|s| - 1] == trail[|trail| - 1];
      assert s[..|s| - 1] == rest + trail[..|trail| - 1];
      TrimRightOfSpaces(rest, trail[..|trail| - 1]);
    } else {
      assert rest + trail == rest;
    }
  }

  /** TrimSpace removes exactly the white space around a text that starts
      and ends with something else. */
  lemma TrimSpaceAround(lead: string, core: string, trail: string)
    requires core != [] && !IsSpace(core[0]) && !IsSpace(core[|core| - 1])
    requires AllSpace(lead) && AllSpace(trail)
    ensures TrimSpace(lead + core + trail) == core
  {
    assert lead + core + trail == lead + (core + trail);
    TrimLeftOfSpaces(lead, core + trail);
    TrimRightOfSpaces(core, trail);
  }

  /** strings.TrimPrefix: s without the leading prefix, or s unchanged
      when it does not start with it (strings.HasPrefix is prefix <= s). */
  function TrimPrefix(s: string, prefix: string): string
  {
    if prefix <= s then s[|prefix|..] else s
  }

  /** The decimal digit for 0..9. */
  function Digit(d: nat): (c: char)
    requires d < 10
    ensures '0' <= c <= '9' && (c as int) - ('0' as int) == d
  {
    (('0' as int) + d) as char
  }

  predicate AllDigits(s: string)
  {
    forall k | 0 <= k < |s| :: '0' <= s[k] <= '9'
  }

  /** The decimal rendering of a natural number, without leading zeros. */
  function NatToDecimal(n: nat): (r: string)
    ensures |r| > 0 && AllDigits(r)
    ensures r[0] == '0' ==> n == 0
  {
    if n < 10 then [Digit(n)] else NatToDecimal(n / 10) + [Digit(n % 10)]
  }

  /** The value of a string of decimal digits (the inverse of NatToDecimal). */
  function DecimalValue(s: string): nat
    requires AllDigits(s)
  {
    if s == [] then 0
    else 10 * DecimalValue(s[..|s| - 1]) + ((s[|s| - 1] as int) - ('0' as int))
  }

  lemma {:induction false} DecimalRoundTrip(n: nat)
    ensures DecimalValue(NatToDecimal(n)) == n
  {
    var r := NatToDecimal(n);
    if n >= 10 {
      DecimalRoundTrip(n / 10);
      assert r[..|r| - 1] == NatToDecimal(n / 10);
    }
  }

  /** fmt's %d for a signed integer. */
  function FormatInt(i: int): (r: string)
    ensures |r| > 0
    ensures i >= 0 ==> AllDigits(r)
    ensures i < 0 ==> r[0] == '-' && AllDigits(r[1..])
  {
    if i < 0 then "-" + NatToDecimal(-i) else NatToDecimal(i)
  }

  /** Two digit strings followed by '-' split a string the same way. */
  lemma DigitsThenDash(d1: string, d2: string, r1: string, r2: string)
    requires AllDigits(d1) && AllDigits(d2)
    requires d1 + "-" + r1 == d2 + "-" + r2
    ensures d1 == d2 && r1 == r2
  {
    var s := d1 + "-" + r1;
    assert |d1| == |d2| by {
      assert s[|d1|] == '-';
      assert s[|d2|] == '-';
    }
    assert d1 == s[..|d1|] == d2;
    assert r1 == s[|d1| + 1..] == r2;
  }

  /** %d renders distinct integers distinctly. */
  lemma FormatIntInjective(i: int, j: int)
    requires FormatInt(i) == FormatInt(j)
    ensures i == j
  {
    var x := FormatInt(i);
    if i < 0 && j < 0 {
      assert x == "-" + NatToDecimal(-i) && x == "-" + NatToDecimal(-j);
      assert NatToDecimal(-i) == x[1..] == NatToDecimal(-j);
      NatToDecimalInjective(-i, -j);
    } else if i >= 0 && j >= 0 {
      NatToDecimalInjective(i, j);
    }
  }

  /** Distinct naturals have distinct decimal renderings. */
  lemma NatToDecimalInjective(a: nat, b: nat)
    requires NatToDecimal(a) == NatToDecimal(b)
    ensures a == b
  {
    DecimalRoundTrip(a);
    DecimalRoundTrip(b);
  }

  /** fmt.Sprintf("%d-%s", n, s) is injective: the text before the first
      '-' that follows the number determines the number, the rest the name. */
  lemma FormatIntDashInjective(i: int, a: string, j: int, b: string)
    requires FormatInt(i) + "-" + a == FormatInt(j) + "-" + b
    ensures i == j && a == b
  {
    var x, y := FormatInt(i), FormatInt(j);
    var s := x + "-" + a;
    assert (i < 0) == (j < 0) by { assert s[0] == x[0] && s[0] == y[0]; }
    if i < 0 {
      assert s[1..] == x[1..] + "-" + a == y[1..] + "-" + b;
      DigitsThenDash(x[1..], y[1..], a, b);
      assert x == [x[0]] + x[1..] && y == [y[0]] + y[1..];
      FormatIntInjective(i, j);
    } else {
      DigitsThenDash(x, y, a, b);
      FormatIntInjective(i, j);
    }
  }
}
