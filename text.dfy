/**
 * Character-level helpers standing in for the JavaScript string library:
 * digit runs and their values, the restricted number grammar used for
 * `parseInt`/`parseFloat`, `split`, `includes`, `padStart`, ASCII case mapping,
 * and `filter` on sequences.
 */
module Text {
  import opened Wrappers

  predicate IsDigit(c: char) { '0' <= c <= '9' }

  predicate AllDigits(s: string) { forall i :: 0 <= i < |s| ==> IsDigit(s[i]) }

  function DigitValue(c: char): (d: nat)
    requires IsDigit(c)
    ensures d < 10
  {
    c as int - '0' as int
  }

  function DigitChar(d: nat): (c: char)
    requires d < 10
    ensures IsDigit(c) && DigitValue(c) == d
  {
    ('0' as int + d) as char
  }

  function Pow10(n: nat): (p: nat)
    ensures p >= 1
  {
    if n == 0 then 1 else 10 * Pow10(n - 1)
  }

  /** Value of a run of decimal digits, most significant digit first. */
  function DigitsValue(s: string): nat
    requires AllDigits(s)
  {
    if s == [] then 0 else 10 * DigitsValue(s[..|s| - 1]) + DigitValue(s[|s| - 1])
  }

  lemma AllDigitsConcat(a: string, b: string)
    requires AllDigits(a) && AllDigits(b)
    ensures AllDigits(a + b)
  {
    var ab := a + b;
    forall i | 0 <= i < |ab| ensures IsDigit(ab[i]) {
      if i < |a| { assert ab[i] == a[i]; } else { assert ab[i] == b[i - |a|]; }
    }
  }

  lemma {:induction false} DigitsValueAppend(a: string, b: string)
    requires AllDigits(a) && AllDigits(b)
    ensures AllDigits(a + b)
    ensures DigitsValue(a + b) == DigitsValue(a) * Pow10(|b|) + DigitsValue(b)
  {
    var ab := a + b;
    AllDigitsConcat(a, b);
    if b == [] {
      assert ab == a;
    } else {
      var b' := b[..|b| - 1];
      var d := DigitValue(b[|b| - 1]);
      assert ab[..|ab| - 1] == a + b';
      assert ab[|ab| - 1] == b[|b| - 1];
      DigitsValueAppend(a, b');
      assert DigitsValue(ab) == 10 * DigitsValue(a + b') + d;
      assert DigitsValue(b) == 10 * DigitsValue(b') + d;
      ShiftDigit(DigitsValue(a), DigitsValue(b'), Pow10(|b'|), d, DigitsValue(ab), DigitsValue(b), Pow10(|b|));
    }
  }

  /** Appending one digit `d` multiplies the place value of the leading part by ten. */
  lemma ShiftDigit(x: nat, y: nat, p: nat, d: nat, v: nat, w: nat, q: nat)
    requires v == 10 * (x * p + y) + d && w == 10 * y + d && q == 10 * p
    ensures v == x * q + w
  {
    assert 10 * (x * p) == x * (10 * p);
  }

  /** `n` copies of `x`. */
  /** `r` is `s` with some elements left out, the rest in their original order. */
  predicate IsSubsequence<T(==)>(r: seq<T>, s: seq<T>)
  {
    r == [] || (s != [] && ((r[0] == s[0] && IsSubsequence(r[1..], s[1..])) || IsSubsequence(r, s[1..])))
  }

  /**
   * `s.filter(keep)`: every occurrence of an element `keep` accepts, none of
   * the others, in their original order.
   */
  function Filter<T(==, !new)>(s: seq<T>, keep: T -> bool): (r: seq<T>)
    ensures IsSubsequence(r, s)
    ensures forall x :: multiset(r)[x] == if keep(x) then multiset(s)[x] else 0
    ensures forall x :: x in r <==> x in s && keep(x)
  {
    if s == [] then []
    else
      var rest := Filter(s[1..], keep);
      assert s == [s[0]] + s[1..];
      assert multiset(s) == multiset{s[0]} + multiset(s[1..]);
      if keep(s[0]) then
        assert ([s[0]] + rest)[1..] == rest;
        assert multiset([s[0]] + rest) == multiset{s[0]} + multiset(rest);
        [s[0]] + rest
      else rest
  }

  /** Filtering a sequence with a known first element. */
  lemma FilterCons<T(!new)>(a: T, t: seq<T>, keep: T -> bool)
    ensures Filter([a] + t, keep) == (if keep(a) then [a] else []) + Filter(t, keep)
  {
    assert ([a] + t)[1..] == t;
  }

  function Repeat<T>(x: T, n: nat): (s: seq<T>)
    ensures |s| == n && forall i :: 0 <= i < n ==> s[i] == x
  {
    if n == 0 then [] else Repeat(x, n - 1) + [x]
  }

  lemma {:induction false} LeadingZeros(n: nat, s: string)
    requires AllDigits(s)
    ensures AllDigits(Repeat('0', n) + s)
    ensures DigitsValue(Repeat('0', n) + s) == DigitsValue(s)
  {
    var z := Repeat('0', n);
    if n > 0 {
      LeadingZeros(n - 1, []);
      assert Repeat('0', n - 1) + [] == Repeat('0', n - 1);
      assert z[..|z| - 1] == Repeat('0', n - 1);
    }
    assert DigitsValue(z) == 0;
    DigitsValueAppend(z, s);
  }

  /** Decimal representation of `n` without leading zeros ("0" for zero). */
  function NatToString(n: nat): (s: string)
    ensures s != [] && AllDigits(s)
    ensures n < 10 <==> |s| == 1
    decreases n
  {
    if n < 10 then [DigitChar(n)] else NatToString(n / 10) + [DigitChar(n % 10)]
  }

  /** NatToString writes `n`: its digits have value `n`. */
  lemma {:induction false} NatToStringValue(n: nat)
    ensures DigitsValue(NatToString(n)) == n
    decreases n
  {
    var s := NatToString(n);
    if n < 10 {
      assert s[..0] == [];
    } else {
      var init := NatToString(n / 10);
      assert s == init + [DigitChar(n % 10)];
      assert s[..|s| - 1] == init;
      NatToStringValue(n / 10);
    }
  }

  lemma {:induction false} NatToStringLength(n: nat, k: nat)
    requires 0 < k && n < Pow10(k)
    ensures |NatToString(n)| <= k
    decreases n
  {
    if n >= 10 {
      assert k > 1;
      NatToStringLength(n / 10, k - 1);
    }
  }

  /** Position of the first `c` in `s`, or `|s|` when there is none (JavaScript's indexOf, with |s| for -1). */
  function IndexOf(s: string, c: char): (k: nat)
    ensures k <= |s|
    ensures forall i :: 0 <= i < k ==> s[i] != c
    ensures k < |s| ==> s[k] == c
  {
    if s == [] then 0 else if s[0] == c then 0 else 1 + IndexOf(s[1..], c)
  }

  lemma IndexOfAbsent(s: string, c: char)
    requires c !in s
    ensures IndexOf(s, c) == |s|
  {
  }

  lemma IndexOfJoin(a: string, c: char, b: string)
    requires c !in a
    ensures IndexOf(a + [c] + b, c) == |a|
  {
    var s := a + [c] + b;
    var k := IndexOf(s, c);
    assert s[|a|] == c;
    assert forall i :: 0 <= i < |a| ==> s[i] == a[i];
  }

  /**
   * parseInt restricted to a non-empty run of decimal digits; anything else
   * (sign, blanks, trailing text) is NaN, here None.
   */
  function ParseInt(s: string): Option<int>
  {
    if s != [] && AllDigits(s) then Some(DigitsValue(s)) else None
  }

  lemma ParseIntOfNatToString(n: nat)
    ensures ParseInt(NatToString(n)) == Some(n)
  {
    NatToStringValue(n);
  }

  /** Value of the digits after a decimal point: `0.d1 d2 d3 ...`. */
  function FractionValue(frac: string): (v: real)
    requires AllDigits(frac)
    ensures 0.0 <= v <= 1.0
  {
    if frac == [] then 0.0 else (DigitValue(frac[0]) as real + FractionValue(frac[1..])) / 10.0
  }

  /** Three digits after the point are that many thousandths. */
  lemma FractionOfThree(f: string)
    requires AllDigits(f) && |f| == 3
    ensures FractionValue(f) == DigitsValue(f) as real / 1000.0
  {
    var a, b, c := DigitValue(f[0]), DigitValue(f[1]), DigitValue(f[2]);
    assert f[1..][0] == f[1] && f[1..][1..] == [f[2]];
    assert FractionValue([f[2]]) == c as real / 10.0 by {
      assert [f[2]][1..] == [];
    }
    assert FractionValue(f[1..]) == (b as real + c as real / 10.0) / 10.0;
    assert FractionValue(f) == (a as real + (b as real + c as real / 10.0) / 10.0) / 10.0;
    assert DigitsValue([f[0]]) == a by {
      assert [f[0]][..0] == [];
    }
    assert f[..2][..1] == [f[0]] && f[..2] == [f[0], f[1]];
    assert DigitsValue(f[..2]) == 10 * a + b;
    assert DigitsValue(f) == 10 * (10 * a + b) + c;
  }

  /** Value of `whole.frac`; NaN unless both parts are digit runs and not both empty. */
  function DecimalParts(whole: string, frac: string): (r: Option<real>)
    ensures r.Some? ==> r.value >= 0.0
  {
    if AllDigits(whole) && AllDigits(frac) && |whole| + |frac| > 0 then
      Some(DigitsValue(whole) as real + FractionValue(frac))
    else
      None
  }

  /**
   * parseFloat restricted to `digits [ '.' digits ]` with at least one digit
   * in all (so "5", "5.", ".5" and "05.250" parse); anything else is NaN.
   */
  function ParseDecimal(s: string): (r: Option<real>)
    ensures r.Some? ==> r.value >= 0.0
  {
    var k := IndexOf(s, '.');
    DecimalParts(s[..k], if k < |s| then s[k + 1..] else [])
  }

  lemma DigitsHaveNoPoint(s: string)
    requires AllDigits(s)
    ensures '.' !in s && ':' !in s
  {
    forall i | 0 <= i < |s| ensures s[i] != '.' && s[i] != ':' { assert IsDigit(s[i]); }
  }

  lemma ParseDecimalOfDigits(s: string)
    requires s != [] && AllDigits(s)
    ensures ParseDecimal(s) == Some(DigitsValue(s) as real)
  {
    DigitsHaveNoPoint(s);
    IndexOfAbsent(s, '.');
    assert s[..|s|] == s;
    assert ParseDecimal(s) == DecimalParts(s, []);
  }

  /** parseFloat reads back what Number.toString writes for a whole number. */
  lemma ParseDecimalOfNatToString(n: nat)
    ensures ParseDecimal(NatToString(n)) == Some(n as real)
  {
    ParseDecimalOfDigits(NatToString(n));
    NatToStringValue(n);
  }

  lemma ParseDecimalWithPoint(a: string, b: string)
    requires AllDigits(a) && AllDigits(b) && |a| + |b| > 0
    ensures ParseDecimal(a + "." + b) == DecimalParts(a, b)
  {
    var s := a + ['.'] + b;
    assert s == a + "." + b;
    assert '.' !in a by {
      forall i | 0 <= i < |a| ensures a[i] != '.' { assert IsDigit(a[i]); }
    }
    IndexOfJoin(a, '.', b);
    var k := IndexOf(s, '.');
    assert k == |a| < |s|;
    assert s[..k] == a;
    assert s[k + 1..] == b;
  }

  /** JavaScript's `s.split(sep)` for a one-character separator. */
  function Split(s: string, sep: char): (parts: seq<string>)
    ensures |parts| >= 1
    ensures forall i :: 0 <= i < |parts| ==> sep !in parts[i]
    decreases |s|
  {
    var k := IndexOf(s, sep);
    if k == |s| then [s] else [s[..k]] + Split(s[k + 1..], sep)
  }

  /** JavaScript's `parts.join(sep)`. */
  function Join(parts: seq<string>, sep: char): string
    requires |parts| >= 1
  {
    if |parts| == 1 then parts[0] else parts[0] + [sep] + Join(parts[1..], sep)
  }

  /** Joining a leading part onto at least one more. */
  lemma JoinCons(p: string, rest: seq<string>, sep: char)
    requires |rest| >= 1
    ensures Join([p] + rest, sep) == p + [sep] + Join(rest, sep)
  {
    assert ([p] + rest)[1..] == rest;
  }

  lemma {:induction false} JoinSplit(s: string, sep: char)
    ensures Join(Split(s, sep), sep) == s
    decreases |s|
  {
    var k := IndexOf(s, sep);
    if k < |s| {
      var head, rest := s[..k], s[k + 1..];
      assert Split(s, sep) == [head] + Split(rest, sep);
      JoinCons(head, Split(rest, sep), sep);
      JoinSplit(rest, sep);
      assert s == head + [sep] + rest;
    }
  }

  lemma {:induction false} SplitJoin(parts: seq<string>, sep: char)
    requires |parts| >= 1
    requires forall i :: 0 <= i < |parts| ==> sep !in parts[i]
    ensures Split(Join(parts, sep), sep) == parts
  {
    var p := parts[0];
    assert sep !in p;
    if |parts| == 1 {
      var k := IndexOf(p, sep);
      assert k == |p| by {
        assert forall i :: 0 <= i < |p| ==> p[i] != sep;
      }
    } else {
      var rest := Join(parts[1..], sep);
      var s := p + [sep] + rest;
      assert Join(parts, sep) == s;
      IndexOfJoin(p, sep, rest);
      var k := IndexOf(s, sep);
      assert k == |p| < |s|;
      assert s[..k] == p;
      assert s[k + 1..] == rest;
      SplitJoin(parts[1..], sep);
      assert Split(s, sep) == [p] + Split(rest, sep);
      assert [p] + parts[1..] == parts;
    }
  }

  /** JavaScript's `s.padStart(width, [c])`. */
  function PadStart(s: string, width: nat, c: char): (r: string)
    ensures |r| == if |s| < width then width else |s|
  {
    if |s| < width then Repeat(c, width - |s|) + s else s
  }

  /** Padding only ever prepends copies of the fill character. */
  lemma PadStartPrepends(s: string, width: nat, c: char)
    ensures PadStart(s, width, c) == Repeat(c, if |s| < width then width - |s| else 0) + s
  {
    if |s| >= width {
      assert Repeat(c, 0) == [];
    }
  }

  predicate IsPrefix(p: string, s: string) { |p| <= |s| && s[..|p|] == p }

  /** JavaScript's `s.includes(sub)`. */
  predicate Contains(s: string, sub: string)
    decreases |s|
  {
    IsPrefix(sub, s) || (s != [] && Contains(s[1..], sub))
  }

  /** `sub` occurs in `s` starting at index `i`. */
  predicate OccursAt(s: string, sub: string, i: int)
  {
    0 <= i && i + |sub| <= |s| && s[i..i + |sub|] == sub
  }

  /** Contains agrees with the positional reading: `sub` occurs at some index of `s`. */
  lemma {:induction false} ContainsIff(s: string, sub: string)
    ensures Contains(s, sub) <==> exists i :: OccursAt(s, sub, i)
    decreases |s|
  {
    if s == [] {
      if exists i :: OccursAt(s, sub, i) {
        var i :| OccursAt(s, sub, i);
        assert i == 0 && sub == [];
        assert IsPrefix(sub, s);
      }
      if Contains(s, sub) {
        assert OccursAt(s, sub, 0);
      }
    } else {
      ContainsIff(s[1..], sub);
      if Contains(s[1..], sub) {
        var i :| OccursAt(s[1..], sub, i);
        assert s[i + 1..i + 1 + |sub|] == s[1..][i..i + |sub|];
        assert OccursAt(s, sub, i + 1);
      }
      if IsPrefix(sub, s) {
        assert OccursAt(s, sub, 0);
      }
      if exists i :: OccursAt(s, sub, i) {
        var i :| OccursAt(s, sub, i);
        if i > 0 {
          assert s[1..][i - 1..i - 1 + |sub|] == s[i..i + |sub|];
          assert OccursAt(s[1..], sub, i - 1);
        } else {
          assert IsPrefix(sub, s);
        }
      }
    }
  }

  /** The empty string is contained in every string, as with `includes("")`. */
  lemma ContainsEmpty(s: string)
    ensures Contains(s, "")
  {
    assert IsPrefix("", s);
  }

  /** An occurrence at a known index proves containment. */
  lemma ContainsAt(s: string, sub: string, i: nat)
    requires OccursAt(s, sub, i)
    ensures Contains(s, sub)
  {
    ContainsIff(s, sub);
  }

  /** A string that contains `sub` contains every character of `sub`. */
  lemma ContainedChars(s: string, sub: string, c: char)
    requires c in sub
    ensures Contains(s, sub) ==> c in s
  {
    ContainsIff(s, sub);
    if Contains(s, sub) {
      var i :| OccursAt(s, sub, i);
      var j :| 0 <= j < |sub| && sub[j] == c;
      assert s[i..i + |sub|][j] == s[i + j];
    }
  }

  function LowerChar(c: char): char
  {
    if 'A' <= c <= 'Z' then (c as int + 32) as char else c
  }

  function UpperChar(c: char): char
  {
    if 'a' <= c <= 'z' then (c as int - 32) as char else c
  }

  /** `toLowerCase` on the ASCII range. */
  function ToLower(s: string): (r: string)
    ensures |r| == |s|
  {
    seq(|s|, i requires 0 <= i < |s| => LowerChar(s[i]))
  }

  /** `toUpperCase` on the ASCII range. */
  function ToUpper(s: string): (r: string)
    ensures |r| == |s|
  {
    seq(|s|, i requires 0 <= i < |s| => UpperChar(s[i]))
  }
}
