// Strings, decimal numerals and substring search, shared by the other modules.

module Text {
  datatype Option<+T> = None | Some(value: T)

  predicate IsDigit(c: char) {
    '0' <= c <= '9'
  }

  // A letter or digit of ASCII, or '_'.
  predicate IsWordChar(c: char) {
    'A' <= c <= 'Z' || 'a' <= c <= 'z' || '0' <= c <= '9' || c == '_'
  }

  // The ranges in full: their ends are in, and what is next to them in ASCII is not.
  lemma WordCharsAre()
    ensures forall c :: c in ['A', 'M', 'Z', 'a', 'm', 'z', '0', '5', '9', '_'] ==> IsWordChar(c)
    ensures forall c :: c in ['@', '[', '`', '{', '/', ':', '^', '-', '.', ' '] ==> !IsWordChar(c)
  {
  }

  predicate AllDigits(s: string) {
    forall i :: 0 <= i < |s| ==> IsDigit(s[i])
  }

  function DigitChar(d: nat): (c: char)
    requires d < 10
    ensures IsDigit(c)
  {
    '0' + d as char
  }

  function DigitValue(c: char): (d: nat)
    requires IsDigit(c)
    ensures d < 10 && DigitChar(d) == c
  {
    (c - '0') as nat
  }

  // The shortest decimal numeral of n.
  function Dec(n: nat): (s: string)
    ensures |s| > 0 && AllDigits(s)
    ensures s[0] == '0' ==> n == 0 && s == "0"
  {
    if n < 10 then [DigitChar(n)] else Dec(n / 10) + [DigitChar(n % 10)]
  }

  // The value of a string of decimal digits; leading zeros are harmless.
  function Value(s: string): nat
    requires AllDigits(s)
  {
    if s == "" then 0 else 10 * Value(s[..|s| - 1]) + DigitValue(s[|s| - 1])
  }

  lemma {:induction false} ValueOfDec(n: nat)
    ensures Value(Dec(n)) == n
  {
    if n >= 10 {
      ValueOfDec(n / 10);
      assert Dec(n)[..|Dec(n)| - 1] == Dec(n / 10);
    } else {
      assert Dec(n)[..0] == "";
    }
  }

  lemma {:induction false} DecOfValue(s: string)
    requires AllDigits(s) && s != ""
    requires s[0] == '0' ==> |s| == 1
    ensures Dec(Value(s)) == s
  {
    var init, last := s[..|s| - 1], s[|s| - 1];
    assert s == init + [last];
    if init != "" {
      DecOfValue(init);
      var v := Value(init);
      assert Dec(0) == "0";
      assert Value(s) / 10 == v && Value(s) % 10 == DigitValue(last);
    }
  }

  lemma DecInjective(m: nat, n: nat)
    requires Dec(m) == Dec(n)
    ensures m == n
  {
    ValueOfDec(m);
    ValueOfDec(n);
  }

  lemma DecIsDecimal()
    ensures Dec(51820) == "51820" && Dec(7936) == "7936"
  {
    assert Dec(5) == "5" && Dec(51) == "51" && Dec(518) == "518" && Dec(5182) == "5182";
    assert Dec(7) == "7" && Dec(79) == "79" && Dec(793) == "793";
  }

  // The longest prefix of s made of digits.
  function Digits(s: string): (d: string)
    ensures |d| <= |s| && AllDigits(d) && d == s[..|d|]
    ensures |d| < |s| ==> !IsDigit(s[|d|])
  {
    if s == "" || !IsDigit(s[0]) then "" else [s[0]] + Digits(s[1..])
  }

  lemma {:induction false} DigitsOfNumeral(d: string, rest: string)
    requires AllDigits(d)
    requires rest == "" || !IsDigit(rest[0])
    ensures Digits(d + rest) == d
  {
    if d == "" {
      assert d + rest == rest;
    } else {
      assert (d + rest)[1..] == d[1..] + rest;
      DigitsOfNumeral(d[1..], rest);
    }
  }

  predicate OccursAt(s: string, p: string, i: nat) {
    i + |p| <= |s| && s[i..i + |p|] == p
  }

  predicate StartsWith(s: string, p: string) {
    OccursAt(s, p, 0)
  }

  predicate Contains(s: string, p: string) {
    exists i: nat :: i <= |s| && OccursAt(s, p, i)
  }

  lemma OccursAtTail(s: string, p: string, i: nat)
    requires s != "" && i > 0
    ensures OccursAt(s, p, i) <==> OccursAt(s[1..], p, i - 1)
  {
    if i + |p| <= |s| {
      assert s[i..i + |p|] == s[1..][i - 1..i - 1 + |p|];
    }
  }

  // The position of the first occurrence of p in s.
  function IndexOf(s: string, p: string): (r: Option<nat>)
    ensures r.None? ==> forall i: nat :: !OccursAt(s, p, i)
    ensures r.Some? ==> OccursAt(s, p, r.value)
    ensures r.Some? ==> forall i: nat :: i < r.value ==> !OccursAt(s, p, i)
  {
    if StartsWith(s, p) then Some(0)
    else if s == "" then None
    else
      var tail := IndexOf(s[1..], p);
      assert forall i: nat :: i > 0 ==> (OccursAt(s, p, i) <==> OccursAt(s[1..], p, i - 1)) by {
        forall i: nat | i > 0 ensures OccursAt(s, p, i) <==> OccursAt(s[1..], p, i - 1) {
          OccursAtTail(s, p, i);
        }
      }
      if tail.Some? then Some(tail.value + 1) else None
  }
}
