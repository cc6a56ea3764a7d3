/** The Python `str` operations the pipeline relies on, over `seq<char>`: `split()`,
    `split(sep)`, `rsplit(sep, 1)`, `strip()`, `join`, `int()`, `lower()`, `isalpha()` and
    the order `<` of strings. */
module Strings {
  import opened Wrappers

  /** The characters `str.split()` and `str.strip()` treat as whitespace. */
  predicate IsSpace(c: char)
  {
    || (9 <= c as int <= 13) || (28 <= c as int <= 32)
    || c as int == 0x85 || c as int == 0xA0 || c as int == 0x1680
    || (0x2000 <= c as int <= 0x200A) || c as int == 0x2028 || c as int == 0x2029
    || c as int == 0x202F || c as int == 0x205F || c as int == 0x3000
  }

  /** What `split()` can return: a non-empty string without whitespace. */
  predicate IsToken(t: string)
  {
    t != [] && forall i :: 0 <= i < |t| ==> !IsSpace(t[i])
  }

  /** The length of the run of non-whitespace characters that starts `s`. */
  function TokenLen(s: string): (n: nat)
    ensures n <= |s|
    ensures forall i :: 0 <= i < n ==> !IsSpace(s[i])
    ensures n < |s| ==> IsSpace(s[n])
  {
    if s == [] || IsSpace(s[0]) then 0 else 1 + TokenLen(s[1..])
  }

  /** `s.split()`: the maximal runs of non-whitespace characters, in order. */
  function Split(s: string): (r: seq<string>)
    ensures forall i :: 0 <= i < |r| ==> IsToken(r[i])
    decreases |s|
  {
    if s == [] then []
    else if IsSpace(s[0]) then Split(s[1..])
    else
      var n := TokenLen(s);
      [s[..n]] + Split(s[n..])
  }

  /** `sep.join(parts)`. */
  function Join(sep: string, parts: seq<string>): string
    decreases |parts|
  {
    if parts == [] then []
    else if |parts| == 1 then parts[0]
    else parts[0] + sep + Join(sep, parts[1..])
  }

  lemma TokenLenOf(t: string, x: string)
    requires IsToken(t) && (x == [] || IsSpace(x[0]))
    ensures TokenLen(t + x) == |t|
  {
    assert forall i :: 0 <= i < |t| ==> (t + x)[i] == t[i];
    assert |t| < |t + x| ==> (t + x)[|t|] == x[0];
  }

  /** `split()` undoes `" ".join` of tokens: the encoding of tuple keys as strings is
      reversible. */
  lemma {:induction false} SplitJoin(ts: seq<string>)
    requires forall i :: 0 <= i < |ts| ==> IsToken(ts[i])
    ensures Split(Join(" ", ts)) == ts
    decreases |ts|
  {
    if ts == [] {
    } else if |ts| == 1 {
      var t := ts[0];
      TokenLenOf(t, []);
      assert t + [] == t;
      assert t[|t|..] == [];
    } else {
      var t, rest := ts[0], Join(" ", ts[1..]);
      var s := t + " " + rest;
      TokenLenOf(t, " " + rest);
      assert s == t + (" " + rest);
      assert s[..|t|] == t;
      assert s[|t|..] == " " + rest;
      assert (" " + rest)[1..] == rest;
      SplitJoin(ts[1..]);
      assert [ts[0]] + ts[1..] == ts;
    }
  }

  /** `s.split(sep)` for a non-empty separator: the pieces between the occurrences of `sep`
      found from left to right without overlap. There is always at least one piece. */
  function SplitOn(s: string, sep: string): (r: seq<string>)
    requires sep != []
    ensures |r| >= 1
    decreases |s|
  {
    if |s| < |sep| then [s]
    else if s[..|sep|] == sep then [[]] + SplitOn(s[|sep|..], sep)
    else
      var r := SplitOn(s[1..], sep);
      [[s[0]] + r[0]] + r[1..]
  }

  lemma JoinEmptyHead(sep: string, r: seq<string>)
    requires |r| >= 1
    ensures Join(sep, [[]] + r) == sep + Join(sep, r)
  {
    assert ([[]] + r)[1..] == r;
  }

  lemma JoinConsHead(sep: string, c: char, r: seq<string>)
    requires |r| >= 1
    ensures Join(sep, [[c] + r[0]] + r[1..]) == [c] + Join(sep, r)
  {
    var r' := [[c] + r[0]] + r[1..];
    assert r'[1..] == r[1..];
  }

  /** Joining the pieces with the separator gives the string back. */
  lemma {:induction false} JoinSplitOn(s: string, sep: string)
    requires sep != []
    ensures Join(sep, SplitOn(s, sep)) == s
    decreases |s|
  {
    if |s| < |sep| {
    } else if s[..|sep|] == sep {
      JoinSplitOn(s[|sep|..], sep);
      JoinEmptyHead(sep, SplitOn(s[|sep|..], sep));
      assert s == sep + s[|sep|..];
    } else {
      JoinSplitOn(s[1..], sep);
      JoinConsHead(sep, s[0], SplitOn(s[1..], sep));
      assert s == [s[0]] + s[1..];
    }
  }

  /** A string without the separator character is one piece. */
  lemma {:induction false} SplitOnNone(s: string, c: char)
    requires c !in s
    ensures SplitOn(s, [c]) == [s]
    decreases |s|
  {
    if s != [] {
      assert s[..1] == [s[0]];
      SplitOnNone(s[1..], c);
      assert [s[0]] + s[1..] == s;
    }
  }

  /** The first occurrence of a one-character separator ends the first piece. */
  lemma {:induction false} SplitOnFirst(a: string, c: char, b: string)
    requires c !in a
    ensures SplitOn(a + [c] + b, [c]) == [a] + SplitOn(b, [c])
    decreases |a|
  {
    var s := a + [c] + b;
    if a == [] {
      assert s == [c] + b && s[..1] == [c] && s[1..] == b;
    } else {
      assert s[..1] == [a[0]] && s[1..] == a[1..] + [c] + b;
      SplitOnFirst(a[1..], c, b);
      assert [a[0]] + a[1..] == a;
    }
  }

  /** Splitting at a one-character separator undoes joining pieces free of it. */
  lemma {:induction false} SplitOnJoin(ts: seq<string>, c: char)
    requires |ts| >= 1 && forall i :: 0 <= i < |ts| ==> c !in ts[i]
    ensures SplitOn(Join([c], ts), [c]) == ts
    decreases |ts|
  {
    if |ts| == 1 {
      SplitOnNone(ts[0], c);
    } else {
      SplitOnFirst(ts[0], c, Join([c], ts[1..]));
      SplitOnJoin(ts[1..], c);
      assert [ts[0]] + ts[1..] == ts;
    }
  }

  /** The last index of `c` in `s`, if any. */
  function LastIndexOf(s: string, c: char): (r: Option<nat>)
    ensures r.Some? ==> r.value < |s|
    decreases |s|
  {
    if s == [] then None
    else if s[|s| - 1] == c then Some(|s| - 1)
    else LastIndexOf(s[..|s| - 1], c)
  }

  /** `LastIndexOf` finds `c` exactly when it occurs, and no `c` comes after what it finds. */
  lemma {:induction false} LastIndexOfMeaning(s: string, c: char)
    ensures LastIndexOf(s, c).None? <==> c !in s
    ensures LastIndexOf(s, c).Some? ==> var i := LastIndexOf(s, c).value; s[i] == c && c !in s[i + 1..]
    decreases |s|
  {
    if s != [] {
      var n := |s| - 1;
      if s[n] == c {
        assert s[n + 1..] == [];
      } else {
        LastIndexOfMeaning(s[..n], c);
        assert s == s[..n] + [s[n]];
        var r := LastIndexOf(s[..n], c);
        if r.Some? {
          assert s[r.value + 1..] == s[..n][r.value + 1..] + [s[n]];
        }
      }
    }
  }

  /** `s.rsplit(c, 1)` for a one-character separator. */
  function RSplitOnce(s: string, c: char): (r: seq<string>)
  {
    match LastIndexOf(s, c)
    case None => [s]
    case Some(i) => [s[..i], s[i + 1..]]
  }

  /** The whole string when `c` does not occur, otherwise the parts before and after its
      last occurrence. */
  lemma RSplitOnceMeaning(s: string, c: char)
    ensures var r := RSplitOnce(s, c);
            && (|r| == 1 <==> c !in s)
            && (|r| == 1 ==> r[0] == s)
            && (|r| != 1 ==> |r| == 2 && r[0] + [c] + r[1] == s && c !in r[1])
  {
    LastIndexOfMeaning(s, c);
    var i := LastIndexOf(s, c);
    if i.Some? {
      assert s == s[..i.value] + [c] + s[i.value + 1..];
    }
  }

  /** `s.lstrip()`. */
  function StripLeft(s: string): (r: string)
    ensures |r| <= |s|
    decreases |s|
  {
    if s != [] && IsSpace(s[0]) then StripLeft(s[1..]) else s
  }

  /** `s.lstrip()` removes exactly the leading whitespace: what is left is a suffix of `s`
      that does not start with whitespace, and everything before it is whitespace. */
  lemma {:induction false} StripLeftMeaning(s: string)
    ensures var r := StripLeft(s);
            && (r == [] || !IsSpace(r[0]))
            && r == s[|s| - |r|..]
            && forall i :: 0 <= i < |s| - |r| ==> IsSpace(s[i])
    decreases |s|
  {
    if s != [] && IsSpace(s[0]) {
      StripLeftMeaning(s[1..]);
    }
  }

  /** `s.rstrip()`. */
  function StripRight(s: string): (r: string)
    ensures |r| <= |s|
    decreases |s|
  {
    if s != [] && IsSpace(s[|s| - 1]) then StripRight(s[..|s| - 1]) else s
  }

  /** `s.rstrip()` removes exactly the trailing whitespace. */
  lemma {:induction false} StripRightMeaning(s: string)
    ensures var r := StripRight(s);
            && (r == [] || !IsSpace(r[|r| - 1]))
            && r == s[..|r|]
            && forall i :: |r| <= i < |s| ==> IsSpace(s[i])
    decreases |s|
  {
    if s != [] && IsSpace(s[|s| - 1]) {
      StripRightMeaning(s[..|s| - 1]);
    }
  }

  /** `s.strip()`: `s` without its leading and trailing whitespace. */
  function Strip(s: string): string
  {
    StripRight(StripLeft(s))
  }

  /** `s.strip()` is the piece `s[k..k + |r|]` of `s` with only whitespace before and after
      it, and none at its ends. */
  lemma StripMeaning(s: string)
    ensures var r, k := Strip(s), |s| - |StripLeft(s)|;
            && (r == [] || (!IsSpace(r[0]) && !IsSpace(r[|r| - 1])))
            && k + |r| <= |s| && r == s[k..k + |r|]
            && (forall i :: 0 <= i < k ==> IsSpace(s[i]))
            && (forall i :: k + |r| <= i < |s| ==> IsSpace(s[i]))
  {
    var l := StripLeft(s);
    var r, k := StripRight(l), |s| - |l|;
    assert l == s[k..] && forall i :: 0 <= i < k ==> IsSpace(s[i]) by {
      StripLeftMeaning(s);
    }
    assert r == l[..|r|] && forall i :: |r| <= i < |l| ==> IsSpace(l[i]) by {
      StripRightMeaning(l);
    }
    assert r == [] || (!IsSpace(r[0]) && !IsSpace(r[|r| - 1])) by {
      StripLeftMeaning(s);
      StripRightMeaning(l);
      if r != [] {
        assert r[0] == l[0];
      }
    }
    assert s[k..][..|r|] == s[k..k + |r|];
    forall i | k + |r| <= i < |s|
      ensures IsSpace(s[i])
    {
      assert s[i] == l[i - k];
    }
  }

  /** `c.lower()` on ASCII letters. */
  function LowerChar(c: char): (r: char)
    ensures 'A' <= c <= 'Z' ==> r as int == c as int + 32
    ensures !('A' <= c <= 'Z') ==> r == c
    ensures !('A' <= r <= 'Z')
  {
    if 'A' <= c <= 'Z' then (c as int + 32) as char else c
  }

  /** `s.lower()`. */
  function Lower(s: string): (r: string)
    ensures |r| == |s| && forall i :: 0 <= i < |s| ==> r[i] == LowerChar(s[i])
  {
    seq(|s|, i requires 0 <= i < |s| => LowerChar(s[i]))
  }

  /** Lowering twice is lowering once. */
  lemma LowerIdempotent(s: string)
    ensures Lower(Lower(s)) == Lower(s)
  {
    forall i | 0 <= i < |s| ensures LowerChar(LowerChar(s[i])) == LowerChar(s[i]) {}
  }

  predicate IsAlphaChar(c: char)
  {
    'a' <= c <= 'z' || 'A' <= c <= 'Z'
  }

  /** `s.isalpha()`: non-empty and made of letters. */
  predicate IsAlpha(s: string)
  {
    s != [] && forall i :: 0 <= i < |s| ==> IsAlphaChar(s[i])
  }

  // int()

  predicate IsDigit(c: char)
  {
    '0' <= c <= '9'
  }

  /** Digits, with single underscores allowed between two digits. */
  predicate IsNumeral(t: string)
  {
    && t != [] && IsDigit(t[0]) && IsDigit(t[|t| - 1])
    && (forall i :: 0 <= i < |t| ==> IsDigit(t[i]) || t[i] == '_')
    && (forall i :: 0 <= i < |t| - 1 ==> t[i] == '_' ==> t[i + 1] != '_')
  }

  /** The value of a numeral, underscores skipped. */
  function NumeralValue(t: string): nat
    decreases |t|
  {
    if t == [] then 0
    else
      var last := t[|t| - 1];
      var rest := NumeralValue(t[..|t| - 1]);
      if IsDigit(last) then rest * 10 + (last as int - '0' as int) else rest
  }

  /** `int(s)` on a string without surrounding whitespace: an optional sign and a numeral,
      and `ValueError` for anything else. */
  function ParseInt(s: string): (r: Result<int>)
    ensures r.Err? ==> r.error == ValueError
  {
    if s != [] && (s[0] == '+' || s[0] == '-') then
      if IsNumeral(s[1..]) then
        var v: int := NumeralValue(s[1..]);
        Ok(if s[0] == '-' then -v else v)
      else Err(ValueError)
    else if IsNumeral(s) then Ok(NumeralValue(s))
    else Err(ValueError)
  }

  function DigitChar(d: nat): (c: char)
    requires d < 10
    ensures IsDigit(c) && c as int - '0' as int == d
  {
    ('0' as int + d) as char
  }

  /** `str(n)` for a natural number. */
  function Decimal(n: nat): (r: string)
    ensures r != [] && forall i :: 0 <= i < |r| ==> IsDigit(r[i])
  {
    if n < 10 then [DigitChar(n)] else Decimal(n / 10) + [DigitChar(n % 10)]
  }

  lemma {:induction false} DecimalValue(n: nat)
    ensures NumeralValue(Decimal(n)) == n
  {
    var r := Decimal(n);
    if n < 10 {
      assert r[..0] == [];
    } else {
      assert r[..|r| - 1] == Decimal(n / 10);
      DecimalValue(n / 10);
    }
  }

  /** `int(str(n)) == n`. */
  lemma ParseDecimal(n: nat)
    ensures ParseInt(Decimal(n)) == Ok(n)
  {
    DecimalValue(n);
  }

  // float()

  predicate AllDigits(t: string)
  {
    forall i :: 0 <= i < |t| ==> IsDigit(t[i])
  }

  function Pow10(n: nat): (r: nat)
    ensures r >= 1
  {
    if n == 0 then 1 else 10 * Pow10(n - 1)
  }

  /** The value of `digits.digits`, where either side may be empty but not both. */
  function PointValue(whole: string, frac: string): real
  {
    NumeralValue(whole) as real + NumeralValue(frac) as real / Pow10(|frac|) as real
  }

  /** An unsigned plain decimal: digits, or digits around one point with at least one digit
      in all. */
  function UnsignedValue(s: string): Option<real>
  {
    var parts := SplitOn(s, ".");
    if |parts| == 1 then
      if s != [] && AllDigits(s) then Some(NumeralValue(s) as real) else None
    else if |parts| == 2 && AllDigits(parts[0]) && AllDigits(parts[1]) && parts[0] + parts[1] != [] then
      Some(PointValue(parts[0], parts[1]))
    else None
  }

  /** `float(s)` on a plain decimal: an optional sign, then digits with at most one point;
      `ValueError` for anything else. */
  function ParseFloat(s: string): (r: Result<real>)
    ensures r.Err? ==> r.error == ValueError
  {
    var signed := s != [] && (s[0] == '+' || s[0] == '-');
    var v := UnsignedValue(if signed then s[1..] else s);
    if v.None? then Err(ValueError)
    else if signed && s[0] == '-' then Ok(-v.value)
    else Ok(v.value)
  }

  /** `float(str(n)) == n`. */
  lemma ParseFloatDecimal(n: nat)
    ensures ParseFloat(Decimal(n)) == Ok(n as real)
  {
    var d := Decimal(n);
    SplitOnNone(d, '.');
    DecimalValue(n);
  }

  /** `float("-" + str(n)) == -n`. */
  lemma ParseFloatNegative(n: nat)
    ensures ParseFloat("-" + Decimal(n)) == Ok(-(n as real))
  {
    var d := Decimal(n);
    assert ("-" + d)[1..] == d;
    SplitOnNone(d, '.');
    DecimalValue(n);
  }

  /** `float(str(i) + "." + str(f))` is `i` plus `f` shifted right by its own number of
      digits. */
  lemma ParseFloatPoint(i: nat, f: nat)
    ensures ParseFloat(Decimal(i) + "." + Decimal(f)) == Ok(PointValue(Decimal(i), Decimal(f)))
  {
    var a, b := Decimal(i), Decimal(f);
    var s := a + "." + b;
    SplitOnFirst(a, '.', b);
    SplitOnNone(b, '.');
    assert SplitOn(s, ".") == [a, b];
    assert UnsignedValue(s) == Some(PointValue(a, b));
    assert s[0] == a[0];
  }

  // The order of strings

  /** `a < b` on strings: the first differing character decides, and a proper prefix comes
      first. */
  predicate StrLess(a: string, b: string)
    decreases |a|
  {
    if a == [] then b != []
    else if b == [] then false
    else a[0] < b[0] || (a[0] == b[0] && StrLess(a[1..], b[1..]))
  }

  lemma {:induction false} StrLessIrreflexive(a: string)
    ensures !StrLess(a, a)
    decreases |a|
  {
    if a != [] {
      StrLessIrreflexive(a[1..]);
    }
  }

  lemma {:induction false} StrLessTransitive(a: string, b: string, c: string)
    requires StrLess(a, b) && StrLess(b, c)
    ensures StrLess(a, c)
    decreases |a|
  {
    if a != [] && a[0] == b[0] && b[0] == c[0] {
      StrLessTransitive(a[1..], b[1..], c[1..]);
    }
  }

  /** Any two different strings are ordered one way or the other. */
  lemma {:induction false} StrLessTotal(a: string, b: string)
    requires a != b
    ensures StrLess(a, b) || StrLess(b, a)
    decreases |a|
  {
    if a != [] && b != [] && a[0] == b[0] {
      assert a == [a[0]] + a[1..] && b == [b[0]] + b[1..];
      StrLessTotal(a[1..], b[1..]);
    }
  }
}
