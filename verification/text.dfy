/** String helpers with the meaning JavaScript gives them: `String(n)` for a
    non-negative integer, `padStart`, `trim`, `startsWith`, `includes`,
    `join` and the relational `<` on strings. */
module Text {
  import opened Wrappers


  function Digit(n: nat): (c: char)
    requires n < 10
    ensures '0' <= c <= '9'
  {
    (('0' as int) + n) as char
  }

  predicate IsDigit(c: char) { '0' <= c <= '9' }

  function DigitValue(c: char): (n: nat)
    requires IsDigit(c)
    ensures n < 10 && Digit(n) == c
  {
    (c as int) - ('0' as int)
  }

  /** `String(n)` for a non-negative integer: decimal digits, no leading zero. */
  function NatToString(n: nat): (s: string)
    ensures 1 <= |s|
    ensures forall i :: 0 <= i < |s| ==> IsDigit(s[i])
    ensures n >= 10 <==> |s| >= 2
    decreases n
  {
    if n < 10 then [Digit(n)] else NatToString(n / 10) + [Digit(n % 10)]
  }

  /** Dropping the last digit keeps the leading one. */
  lemma NatToStringFirst(n: nat)
    requires n >= 10
    ensures NatToString(n)[0] == NatToString(n / 10)[0]
  {
  }

  /** Reads a string of decimal digits back as a number. */
  function DigitsToNat(s: string): nat
    requires forall i :: 0 <= i < |s| ==> IsDigit(s[i])
  {
    if s == [] then 0 else DigitsToNat(s[..|s| - 1]) * 10 + DigitValue(s[|s| - 1])
  }

  lemma {:induction false} DigitsRoundTrip(n: nat)
    ensures DigitsToNat(NatToString(n)) == n
    decreases n
  {
    var s := NatToString(n);
    if n >= 10 {
      DigitsRoundTrip(n / 10);
      assert s[..|s| - 1] == NatToString(n / 10);
      assert DigitValue(s[|s| - 1]) == n % 10;
    }
  }

  /** The leading run of decimal digits of a text, read as a number: what a
      reader takes as the count a body announces. */
  function LeadingCount(s: string): nat
  {
    DigitsToNat(LeadingDigits(s))
  }

  function LeadingDigits(s: string): (r: string)
    ensures forall i :: 0 <= i < |r| ==> IsDigit(r[i])
    ensures |r| <= |s| && r == s[..|r|]
    ensures |r| < |s| ==> !IsDigit(s[|r|])
  {
    if s != [] && IsDigit(s[0]) then [s[0]] + LeadingDigits(s[1..]) else []
  }

  lemma {:induction false} LeadingDigitsOf(digits: string, rest: string)
    requires forall i :: 0 <= i < |digits| ==> IsDigit(digits[i])
    requires rest != [] && !IsDigit(rest[0])
    ensures LeadingDigits(digits + rest) == digits
    decreases |digits|
  {
    if digits == [] {
      assert digits + rest == rest;
    } else {
      assert (digits + rest)[1..] == digits[1..] + rest;
      LeadingDigitsOf(digits[1..], rest);
    }
  }

  lemma NatToStringInjective(a: nat, b: nat)
    requires NatToString(a) == NatToString(b)
    ensures a == b
  {
    DigitsRoundTrip(a);
    DigitsRoundTrip(b);
  }

  /** `s.padStart(width, c)` for a one-character pad string. */
  function PadStart(s: string, width: nat, c: char): (r: string)
    ensures |r| == if |s| >= width then |s| else width
    ensures r[|r| - |s|..] == s
    ensures forall i :: 0 <= i < |r| - |s| ==> r[i] == c
    decreases width - |s|
  {
    if |s| >= width then s else PadStart([c] + s, width, c)
  }

  /** Two decimal digits, the tens first. */
  function TwoDigits(n: nat): (r: string)
    requires n < 100
  {
    [Digit(n / 10), Digit(n % 10)]
  }

  /** `String(n).padStart(2, '0')` is the two-digit form of any n below 100. */
  lemma Pad2IsTwoDigits(n: nat)
    requires n < 100
    ensures PadStart(NatToString(n), 2, '0') == TwoDigits(n)
  {
    if n < 10 {
      Pad2OneDigit(n);
    } else {
      Pad2TwoDigits(n);
    }
  }

  lemma Pad2OneDigit(n: nat)
    requires n < 10
    ensures PadStart(NatToString(n), 2, '0') == TwoDigits(n)
  {
    var s := NatToString(n);
    assert s == [Digit(n)];
    PadOne(s);
    assert n / 10 == 0 && n % 10 == n;
    assert Digit(0) == '0';
  }

  lemma Pad2TwoDigits(n: nat)
    requires 10 <= n < 100
    ensures PadStart(NatToString(n), 2, '0') == TwoDigits(n)
  {
    var q, r := n / 10, n % 10;
    assert q < 10;
    assert NatToString(q) == [Digit(q)];
    assert NatToString(n) == [Digit(q), Digit(r)];
  }

  lemma PadOne(s: string)
    requires |s| == 1
    ensures PadStart(s, 2, '0') == ['0'] + s
  {
    assert PadStart(['0'] + s, 2, '0') == ['0'] + s;
  }

  /** Two-digit strings compare as the numbers they spell. */
  lemma TwoDigitsOrder(a: nat, b: nat)
    requires a < 100 && b < 100
    ensures StrLess(TwoDigits(a), TwoDigits(b)) <==> a < b
    ensures TwoDigits(a) == TwoDigits(b) <==> a == b
  {
    var x, y := TwoDigits(a), TwoDigits(b);
    assert x[1..] == [Digit(a % 10)] && y[1..] == [Digit(b % 10)];
    assert x == y ==> x[0] == y[0] && x[1] == y[1];
    assert a == 10 * (a / 10) + a % 10 && b == 10 * (b / 10) + b % 10;
    assert a < b <==> a / 10 < b / 10 || (a / 10 == b / 10 && a % 10 < b % 10);
    assert Digit(a / 10) < Digit(b / 10) <==> a / 10 < b / 10;
    assert Digit(a % 10) < Digit(b % 10) <==> a % 10 < b % 10;
    assert StrLess(x[1..], y[1..]) <==> x[1] < y[1] by {
      assert x[1..][1..] == [] && y[1..][1..] == [];
    }
    assert StrLess(x, y) <==> if x[0] != y[0] then x[0] < y[0] else StrLess(x[1..], y[1..]);
  }

  /** The four digits of a four-digit number, as two two-digit halves. */
  lemma FourDigits(y: nat)
    requires 1000 <= y <= 9999
    ensures NatToString(y) == TwoDigits(y / 100) + TwoDigits(y % 100)
  {
    var a := y / 10;
    var b := a / 10;
    DecimalSplit(y);
    var s := NatToString(y);
    assert s == NatToString(a) + [Digit(y % 10)];
    assert NatToString(a) == NatToString(b) + [Digit(a % 10)];
    assert NatToString(b) == TwoDigits(b);
    assert TwoDigits(y % 100) == [Digit(a % 10), Digit(y % 10)];
  }

  /** The last two decimal digits of `y` are the last digit of `y / 10`
      and the last digit of `y`. */
  lemma DecimalSplit(y: nat)
    ensures (y / 10) / 10 == y / 100
    ensures (y % 100) / 10 == (y / 10) % 10 && (y % 100) % 10 == y % 10
  {
  }

  /** JavaScript's `a < b` on strings: lexicographic order of the characters,
      a proper prefix sorting first. */
  predicate StrLess(a: string, b: string)
  {
    if b == [] then false
    else if a == [] then true
    else if a[0] != b[0] then a[0] < b[0]
    else StrLess(a[1..], b[1..])
  }

  lemma {:induction false} StrLessIrreflexive(a: string)
    ensures !StrLess(a, a)
  {
    if a != [] { StrLessIrreflexive(a[1..]); }
  }

  /** Comparing two concatenations whose first parts have the same length
      compares the first parts, and the second parts only on a tie. */
  lemma {:induction false} StrLessConcat(p: string, x: string, q: string, z: string)
    requires |p| == |q|
    ensures StrLess(p + x, q + z) <==> StrLess(p, q) || (p == q && StrLess(x, z))
    ensures p + x == q + z <==> p == q && x == z
  {
    if p == [] {
      assert p + x == x && q + z == z;
    } else {
      assert (p + x)[1..] == p[1..] + x && (q + z)[1..] == q[1..] + z;
      StrLessConcat(p[1..], x, q[1..], z);
      assert p == q <==> p[0] == q[0] && p[1..] == q[1..];
      assert p + x == q + z <==> (p + x)[0] == (q + z)[0] && (p + x)[1..] == (q + z)[1..];
    }
  }

  /** The whitespace and line terminators that `String.prototype.trim` removes. */
  predicate IsJsSpace(c: char)
  {
    c == '\t' || c == '\n' || c == '\U{000B}' || c == '\U{000C}' || c == '\r' || c == ' '
    || c == '\U{00A0}' || c == '\U{1680}' || ('\U{2000}' <= c <= '\U{200A}')
    || c == '\U{2028}' || c == '\U{2029}' || c == '\U{202F}' || c == '\U{205F}'
    || c == '\U{3000}' || c == '\U{FEFF}'
  }

  function TrimStart(s: string): string
  {
    if s != [] && IsJsSpace(s[0]) then TrimStart(s[1..]) else s
  }

  /** `TrimStart` drops exactly the leading whitespace. */
  lemma {:induction false} TrimStartSpec(s: string)
    ensures |TrimStart(s)| <= |s| && TrimStart(s) == s[|s| - |TrimStart(s)|..]
    ensures forall i :: 0 <= i < |s| - |TrimStart(s)| ==> IsJsSpace(s[i])
    ensures TrimStart(s) != [] ==> !IsJsSpace(TrimStart(s)[0])
    decreases |s|
  {
    if s != [] && IsJsSpace(s[0]) {
      TrimStartSpec(s[1..]);
      forall i | 1 <= i < |s| - |TrimStart(s)| ensures IsJsSpace(s[i]) {
        assert s[i] == s[1..][i - 1];
      }
    }
  }

  function TrimEnd(s: string): string
  {
    if s != [] && IsJsSpace(s[|s| - 1]) then TrimEnd(s[..|s| - 1]) else s
  }

  /** `TrimEnd` drops exactly the trailing whitespace. */
  lemma {:induction false} TrimEndSpec(s: string)
    ensures |TrimEnd(s)| <= |s| && TrimEnd(s) == s[..|TrimEnd(s)|]
    ensures forall i :: |TrimEnd(s)| <= i < |s| ==> IsJsSpace(s[i])
    ensures TrimEnd(s) != [] ==> !IsJsSpace(TrimEnd(s)[|TrimEnd(s)| - 1])
    decreases |s|
  {
    if s != [] && IsJsSpace(s[|s| - 1]) {
      TrimEndSpec(s[..|s| - 1]);
      forall i | |TrimEnd(s)| <= i < |s| - 1 ensures IsJsSpace(s[i]) {
        assert s[i] == s[..|s| - 1][i];
      }
    }
  }

  /** `s.trim()`. */
  function Trim(s: string): string
  {
    TrimEnd(TrimStart(s))
  }

  /** `trim` keeps a contiguous middle part of the text, `s[i..j]`, and
      drops only whitespace around it; the part kept neither starts nor ends
      with whitespace. */
  lemma TrimSpec(s: string) returns (i: nat, j: nat)
    ensures i <= j <= |s| && Trim(s) == s[i..j]
    ensures forall k :: 0 <= k < i ==> IsJsSpace(s[k])
    ensures forall k :: j <= k < |s| ==> IsJsSpace(s[k])
    ensures i < j ==> !IsJsSpace(s[i]) && !IsJsSpace(s[j - 1])
  {
    var t := TrimStart(s);
    TrimStartSpec(s);
    TrimEndSpec(t);
    i, j := MiddlePart(s, t, TrimEnd(t), IsJsSpace);
  }

  /** Dropping a run of `blank` characters from the front and then from
      the back keeps a middle slice `s[i..j]`, with only `blank`
      characters around it and none at either of its ends. */
  lemma MiddlePart(s: string, t: string, r: string, blank: char -> bool) returns (i: nat, j: nat)
    requires |t| <= |s| && t == s[|s| - |t|..]
    requires forall k :: 0 <= k < |s| - |t| ==> blank(s[k])
    requires t != [] ==> !blank(t[0])
    requires |r| <= |t| && r == t[..|r|]
    requires forall k :: |r| <= k < |t| ==> blank(t[k])
    requires r != [] ==> !blank(r[|r| - 1])
    ensures i <= j <= |s| && r == s[i..j]
    ensures forall k :: 0 <= k < i ==> blank(s[k])
    ensures forall k :: j <= k < |s| ==> blank(s[k])
    ensures i < j ==> !blank(s[i]) && !blank(s[j - 1])
  {
    i := |s| - |t|;
    j := i + |r|;
    assert r == s[i..][..|r|];
    assert s[i..][..|r|] == s[i..j];
    forall k | j <= k < |s|
      ensures blank(s[k])
    {
      assert s[k] == t[k - i];
    }
    if i < j {
      assert s[i] == t[0];
    }
  }

  /** Trimming twice is trimming once. */
  lemma TrimIdempotent(s: string)
    ensures Trim(Trim(s)) == Trim(s)
  {
    var r := Trim(s);
    var i, j := TrimSpec(s);
    if r != [] {
      assert r[0] == s[i] && r[|r| - 1] == s[j - 1];
      TrimKeeps(r);
    }
  }

  /** A text with no whitespace at either end trims to itself. */
  lemma TrimKeeps(r: string)
    requires r != [] && !IsJsSpace(r[0]) && !IsJsSpace(r[|r| - 1])
    ensures Trim(r) == r
  {
    assert TrimStart(r) == r;
    assert TrimEnd(r) == r;
  }

  /** A text trims to nothing exactly when every character is whitespace. */
  lemma TrimEmpty(s: string)
    ensures Trim(s) == [] <==> forall k :: 0 <= k < |s| ==> IsJsSpace(s[k])
  {
    var i, j := TrimSpec(s);
    if Trim(s) == [] {
      forall k | 0 <= k < |s| ensures IsJsSpace(s[k]) {
        if k >= i { assert k >= j; }
      }
    } else {
      assert !IsJsSpace(s[i]);
    }
  }

  /** A form field or prompt answer that exists and whose value is not
      empty after `trim()`. */
  predicate FilledTrimmed(field: Option<string>)
  {
    field.Some? && Trim(field.value) != []
  }

  predicate StartsWith(s: string, prefix: string)
  {
    |prefix| <= |s| && s[..|prefix|] == prefix
  }

  /** `s.endsWith(suffix)`. */
  predicate EndsWith(s: string, suffix: string)
  {
    |suffix| <= |s| && s[|s| - |suffix|..] == suffix
  }

  lemma EndsWithConcat(s: string, suffix: string)
    ensures EndsWith(s + suffix, suffix)
  {
    assert (s + suffix)[|s|..] == suffix;
  }

  /** `s.includes(sub)`. */
  predicate Contains(s: string, sub: string)
    decreases |s|
  {
    StartsWith(s, sub) || (s != [] && Contains(s[1..], sub))
  }

  /** `parts.join(sep)`. */
  function Join(parts: seq<string>, sep: string): string
  {
    if parts == [] then ""
    else if |parts| == 1 then parts[0]
    else parts[0] + sep + Join(parts[1..], sep)
  }
}
