// Instance names as file names: the Go encoder (status/status.go), its shell
// counterpart (qnatter-common.sh), and how far they can be undone and agree.

module RuntimeSlug {
  import opened Text
  import opened Hexadecimal

  // ---- Hexadecimal ----

  // At least width digits, more if the number needs them ("%02x", "%04x").
  function Hex(n: nat, width: nat): (s: string)
    ensures forall i :: 0 <= i < |s| ==> IsHex(s[i])
    decreases n + width
  {
    if n < 16 && width <= 1 then [HexDigit(n)]
    else Hex(n / 16, if width > 0 then width - 1 else 0) + [HexDigit(n % 16)]
  }

  // ---- The encoders ----

  predicate HasByteEscape(s: string) {
    |s| >= 3 && s[0] == 'x' && IsHex(s[1]) && IsHex(s[2])
  }

  predicate HasRuneEscape(s: string) {
    |s| >= 5 && s[0] == 'u' && IsHex(s[1]) && IsHex(s[2]) && IsHex(s[3]) && IsHex(s[4])
  }

  function Piece(c: char, rest: string): string {
    if c == '_' && (HasByteEscape(rest) || HasRuneEscape(rest)) then "_x5f"
    else if IsWordChar(c) then [c]
    else if c as int < 128 then "_x" + Hex(c as int, 2)
    else "_u" + Hex(c as int, 4)
  }

  function Encode(name: string): string {
    if name == "" then "" else Piece(name[0], name[1..]) + Encode(name[1..])
  }

  function Slug(name: string): string {
    Encode(if name == "" then "default" else name)
  }

  method RuntimeSlug(name: string) returns (out: string)
    ensures out == Slug(name)
  {
    var runes := if name == "" then "default" else name;
    out := "";
    var i := 0;
    while i < |runes|
      invariant 0 <= i <= |runes|
      invariant out + Encode(runes[i..]) == Encode(runes)
      invariant i > 0 ==> out != ""
    {
      var c, rest := runes[i], runes[i + 1..];
      var piece;
      if c == '_' && (HasByteEscape(rest) || HasRuneEscape(rest)) {
        piece := "_x5f";
      } else if IsWordChar(c) {
        piece := [c];
      } else if c as int < 128 {
        piece := "_x" + Hex(c as int, 2);
      } else {
        piece := "_u" + Hex(c as int, 4);
      }
      EncodeStep(runes, i, out, piece);
      out := out + piece;
      i := i + 1;
    }
    assert runes[i..] == "";
    if out == "" {
      return "default";
    }
  }

  lemma EncodeStep(runes: string, i: nat, out: string, piece: string)
    requires i < |runes| && piece == Piece(runes[i], runes[i + 1..])
    ensures out + Encode(runes[i..]) == (out + piece) + Encode(runes[i + 1..])
    ensures piece != ""
  {
    assert runes[i..][1..] == runes[i + 1..];
  }

  // awk works on single bytes: other characters become '_', and only "_xHH" is protected.
  function ShellPiece(c: char, rest: string): string {
    if c == '_' && HasByteEscape(rest) then "_x5f"
    else if IsWordChar(c) then [c]
    else if 0 < c as int < 128 then "_x" + Hex(c as int, 2)
    else "_"
  }

  function ShellEncode(name: string): string {
    if name == "" then "" else ShellPiece(name[0], name[1..]) + ShellEncode(name[1..])
  }

  function ShellSlug(name: string): string {
    ShellEncode(if name == "" then "default" else name)
  }

  method RuntimeSlugShell(name: string) returns (out: string)
    ensures out == ShellSlug(name)
  {
    var record := if name == "" then "default" else name;
    out := "";
    var i := 0;
    while i < |record|
      invariant 0 <= i <= |record|
      invariant out + ShellEncode(record[i..]) == ShellEncode(record)
      invariant i > 0 ==> out != ""
    {
      assert record[i..][1..] == record[i + 1..];
      out := out + ShellPiece(record[i], record[i + 1..]);
      i := i + 1;
    }
    assert record[i..] == "";
    if out == "" {
      out := "default";
    }
  }

  // ---- The left inverse ----

  predicate IsScalar(n: nat) {
    n < 0xD800 || 0xE000 <= n < 0x110000
  }

  function ByteEscapeValue(s: string): nat
    requires HasByteEscape(s)
  {
    16 * HexValue(s[1]) + HexValue(s[2])
  }

  function RuneEscapeValue(s: string): nat
    requires HasRuneEscape(s)
  {
    4096 * HexValue(s[1]) + 256 * HexValue(s[2]) + 16 * HexValue(s[3]) + HexValue(s[4])
  }

  // The four digits of a rune escape are followed by a fifth only if they make no scalar.
  function Decode(s: string): string {
    if s == "" then ""
    else if s[0] == '_' && HasByteEscape(s[1..]) then [ByteEscapeValue(s[1..]) as char] + Decode(s[4..])
    else if s[0] == '_' && HasRuneEscape(s[1..]) && IsScalar(RuneEscapeValue(s[1..])) then
      [RuneEscapeValue(s[1..]) as char] + Decode(s[6..])
    else if s[0] == '_' && HasRuneEscape(s[1..]) && |s| > 6 && IsHex(s[6]) then
      [(16 * RuneEscapeValue(s[1..]) + HexValue(s[6])) as char] + Decode(s[7..])
    else [s[0]] + Decode(s[1..])
  }

  predicate InPlane0(name: string) {
    forall i :: 0 <= i < |name| ==> name[i] as int <= 0xFFFF
  }

  // Characters printed with four digits, and those printed with five of which the first
  // four make no scalar.
  predicate IsSafe(c: char) {
    c as int <= 0xFFFF || 0xD8000 <= c as int < 0xE0000
  }

  predicate Safe(name: string) {
    forall i :: 0 <= i < |name| ==> IsSafe(name[i])
  }

  // Characters of the code other than '_' at its start are the characters of the name.
  lemma {:induction false} PlainStart(name: string, k: nat)
    requires k <= |Encode(name)| && forall i :: 0 <= i < k ==> Encode(name)[i] != '_'
    ensures k <= |name| && forall i :: 0 <= i < k ==> name[i] == Encode(name)[i]
  {
    if k > 0 {
      var c, rest := name[0], name[1..];
      assert Encode(name)[0] == Piece(c, rest)[0];
      assert Piece(c, rest) == [c];
      assert Encode(rest) == Encode(name)[1..];
      PlainStart(rest, k - 1);
      forall i | 0 < i < k ensures name[i] == Encode(name)[i] {
        assert name[i] == rest[i - 1] && Encode(name)[i] == Encode(rest)[i - 1];
      }
    }
  }

  lemma EscapesShowThrough(name: string)
    ensures HasByteEscape(Encode(name)) ==> HasByteEscape(name)
    ensures HasRuneEscape(Encode(name)) ==> HasRuneEscape(name)
  {
    if HasByteEscape(Encode(name)) {
      PlainStart(name, 3);
    }
    if HasRuneEscape(Encode(name)) {
      PlainStart(name, 5);
    }
  }

  lemma TwoDigits(n: nat)
    requires n < 256
    ensures Hex(n, 2) == [HexDigit(n / 16), HexDigit(n % 16)]
  {
  }

  lemma Sixteenths(n: nat)
    ensures n / 16 / 16 == n / 256 && n / 256 / 16 == n / 4096
  {
  }

  lemma HexStep(n: nat, width: nat)
    requires width > 1
    ensures Hex(n, width) == Hex(n / 16, width - 1) + [HexDigit(n % 16)]
  {
  }

  lemma FourDigits(n: nat)
    requires n < 0x10000
    ensures Hex(n, 4) == [HexDigit(n / 4096), HexDigit(n / 256 % 16), HexDigit(n / 16 % 16), HexDigit(n % 16)]
  {
    Sixteenths(n);
    HexStep(n, 4);
    HexStep(n / 16, 3);
    TwoDigits(n / 256);
  }

  lemma DecodeByteEscape(n: nat, code: string)
    requires n < 128
    ensures Decode("_x" + Hex(n, 2) + code) == [n as char] + Decode(code)
  {
    TwoDigits(n);
    var s := "_x" + Hex(n, 2) + code;
    assert s[1..][0] == 'x' && s[1..][1] == HexDigit(n / 16) && s[1..][2] == HexDigit(n % 16);
    assert s[4..] == code;
  }

  lemma DecodeFour(a: char, b: char, c: char, d: char, code: string)
    requires IsHex(a) && IsHex(b) && IsHex(c) && IsHex(d)
    requires IsScalar(RuneEscapeValue(['u', a, b, c, d]))
    ensures Decode("_u" + [a, b, c, d] + code) == [RuneEscapeValue(['u', a, b, c, d]) as char] + Decode(code)
  {
    var s := "_u" + [a, b, c, d] + code;
    assert s[1..] == ['u', a, b, c, d] + code;
    assert s[6..] == code;
  }

  lemma FourDigitValue(n: nat)
    requires n < 0x10000
    ensures 4096 * (n / 4096) + 256 * (n / 256 % 16) + 16 * (n / 16 % 16) + n % 16 == n
  {
    assert n / 16 == 16 * (n / 256) + n / 16 % 16;
    assert n / 256 == 16 * (n / 4096) + n / 256 % 16;
  }

  lemma ValueOfFour(n: nat, digits: string)
    requires n < 0x10000 && digits == Hex(n, 4)
    ensures |digits| == 4 && HasRuneEscape("u" + digits) && RuneEscapeValue("u" + digits) == n
  {
    FourDigits(n);
    FourDigitValue(n);
  }

  lemma DecodeRuneEscape(c: char, code: string)
    requires c as int < 0x10000
    ensures Decode("_u" + Hex(c as int, 4) + code) == [c] + Decode(code)
  {
    var digits := Hex(c as int, 4);
    ValueOfFour(c as int, digits);
    assert digits == [digits[0], digits[1], digits[2], digits[3]];
    assert "u" + digits == ['u', digits[0], digits[1], digits[2], digits[3]];
    DecodeFour(digits[0], digits[1], digits[2], digits[3], code);
  }

  lemma DecodeFive(a: char, b: char, c: char, d: char, e: char, code: string)
    requires IsHex(a) && IsHex(b) && IsHex(c) && IsHex(d) && IsHex(e)
    requires !IsScalar(RuneEscapeValue(['u', a, b, c, d]))
    ensures Decode("_u" + [a, b, c, d, e] + code)
            == [(16 * RuneEscapeValue(['u', a, b, c, d]) + HexValue(e)) as char] + Decode(code)
  {
    var s := "_u" + [a, b, c, d, e] + code;
    assert s[1..] == ['u', a, b, c, d] + ([e] + code);
    assert RuneEscapeValue(s[1..]) == RuneEscapeValue(['u', a, b, c, d]);
    assert s[7..] == code;
  }

  lemma DecodeSurrogateEscape(c: char, code: string)
    requires 0xD8000 <= c as int < 0xE0000
    ensures Decode("_u" + Hex(c as int, 4) + code) == [c] + Decode(code)
  {
    var n := c as int;
    var digits, e := Hex(n / 16, 4), HexDigit(n % 16);
    ValueOfFour(n / 16, digits);
    FiveDigits(n / 16);
    HexStep(n, 4);
    assert digits == [digits[0], digits[1], digits[2], digits[3]];
    assert "u" + digits == ['u', digits[0], digits[1], digits[2], digits[3]];
    DecodeFive(digits[0], digits[1], digits[2], digits[3], e, code);
    assert Hex(n, 4) == [digits[0], digits[1], digits[2], digits[3], e];
  }

  lemma DecodePlain(c: char, rest: string)
    requires IsWordChar(c) && (c == '_' ==> !HasByteEscape(rest) && !HasRuneEscape(rest))
    ensures Decode([c] + Encode(rest)) == [c] + Decode(Encode(rest))
  {
    EscapesShowThrough(rest);
    assert ([c] + Encode(rest))[1..] == Encode(rest);
  }

  lemma DecodePiece(c: char, rest: string)
    requires IsSafe(c)
    ensures Decode(Piece(c, rest) + Encode(rest)) == [c] + Decode(Encode(rest))
  {
    if c == '_' && (HasByteEscape(rest) || HasRuneEscape(rest)) {
      TwoDigits(0x5f);
      assert "_x" + Hex(0x5f, 2) == "_x5f";
      DecodeByteEscape(0x5f, Encode(rest));
    } else if IsWordChar(c) {
      DecodePlain(c, rest);
    } else if c as int < 128 {
      DecodeByteEscape(c as int, Encode(rest));
    } else if c as int <= 0xFFFF {
      DecodeRuneEscape(c, Encode(rest));
    } else {
      DecodeSurrogateEscape(c, Encode(rest));
    }
  }

  // The encoding can be undone on every name of safe characters.
  lemma {:induction false} DecodeUndoesEncode(name: string)
    requires Safe(name)
    ensures Decode(Encode(name)) == name
  {
    if name != "" {
      DecodePiece(name[0], name[1..]);
      DecodeUndoesEncode(name[1..]);
    }
  }

  lemma SlugIsInjective(a: string, b: string)
    requires a != "" && b != "" && Safe(a) && Safe(b)
    requires Slug(a) == Slug(b)
    ensures a == b
  {
    DecodeUndoesEncode(a);
    DecodeUndoesEncode(b);
  }

  lemma {:induction false} SlugAlphabet(name: string)
    ensures forall i :: 0 <= i < |Encode(name)| ==> IsWordChar(Encode(name)[i])
    ensures name != "" ==> Encode(name) != ""
  {
    if name != "" {
      SlugAlphabet(name[1..]);
    }
  }

  // Escapes as they are printed.
  lemma ByteForm(c: char, rest: string)
    requires c == '-'
    ensures Piece(c, rest) == "_x2d" == ShellPiece(c, rest)
  {
    TwoDigits(c as int);
  }

  lemma RuneForm(c: char, rest: string)
    requires c as int == 0x4e2d
    ensures Piece(c, rest) == "_u4e2d"
  {
    FourDigits(c as int);
  }

  lemma EncodeEscape(c: char, rest: string)
    requires c as int >= 128
    ensures Encode([c] + rest) == "_u" + Hex(c as int, 4) + Encode(rest)
  {
    assert ([c] + rest)[1..] == rest;
  }

  lemma EncodeDigits(d: nat, e: nat)
    requires d < 16 && e < 16
    ensures Encode([HexDigit(d)]) == [HexDigit(d)]
    ensures Encode([HexDigit(d), HexDigit(e)]) == [HexDigit(d), HexDigit(e)]
  {
    assert [HexDigit(d), HexDigit(e)][1..] == [HexDigit(e)];
    assert forall x: char :: [x][1..] == "";
    assert Encode([HexDigit(e)]) == [HexDigit(e)] + Encode("");
  }

  lemma CollisionWithOneDigit(c: char, m: char)
    requires 0xFFFF < c as int < 0x100000 && m as int == c as int / 16
    ensures Slug([m] + [HexDigit(c as int % 16)]) == Slug([c])
  {
    var n := c as int;
    EncodeEscape(c, "");
    assert [c] + "" == [c];
    EncodeDigits(n % 16, 0);
    EncodeEscape(m, [HexDigit(n % 16)]);
    FiveDigits(n / 16);
    assert Hex(n, 4) == Hex(n / 16, 3) + [HexDigit(n % 16)];
  }

  lemma CollisionWithTwoDigits(c: char, m: char)
    requires 0x100000 <= c as int && m as int == c as int / 256
    ensures Slug([m] + [HexDigit(c as int / 16 % 16), HexDigit(c as int % 16)]) == Slug([c])
  {
    var n := c as int;
    EncodeEscape(c, "");
    assert [c] + "" == [c];
    EncodeDigits(n / 16 % 16, n % 16);
    EncodeEscape(m, [HexDigit(n / 16 % 16), HexDigit(n % 16)]);
    SixDigits(n);
    assert "_u" + Hex(m as int, 4) + [HexDigit(n / 16 % 16), HexDigit(n % 16)] == "_u" + Hex(n, 4) + "";
  }

  lemma SixDigits(n: nat)
    requires 0x100000 <= n < 0x110000
    ensures Hex(n, 4) == Hex(n / 256, 4) + [HexDigit(n / 16 % 16), HexDigit(n % 16)]
  {
    Sixteenths(n);
    FiveDigits(n / 256);
    HexStep(n, 4);
    HexStep(n / 16, 3);
  }

  // Any other character shares its slug with a longer name.
  lemma AboveTheBoundCollides(c: char) returns (other: string)
    requires !IsSafe(c)
    ensures other != [c] && Slug(other) == Slug([c]) && InPlane0(other)
  {
    var n := c as int;
    if n < 0x100000 {
      var m := (n / 16) as char;
      CollisionWithOneDigit(c, m);
      other := [m] + [HexDigit(n % 16)];
    } else {
      var m := (n / 256) as char;
      CollisionWithTwoDigits(c, m);
      other := [m] + [HexDigit(n / 16 % 16), HexDigit(n % 16)];
    }
  }

  // The safe characters are exactly those whose slug no other safe name has.
  lemma SafeExactly(c: char)
    ensures IsSafe(c) <==> forall other :: Safe(other) && other != [c] ==> Slug(other) != Slug([c])
  {
    if IsSafe(c) {
      forall other | Safe(other) && other != [c] ensures Slug(other) != Slug([c]) {
        var name := if other == "" then "default" else other;
        assert Slug(other) == Slug(name);
        if Slug(name) == Slug([c]) {
          SlugIsInjective(name, [c]);
        }
      }
    } else {
      var other := AboveTheBoundCollides(c);
      assert Safe(other);
    }
  }

  // A number of four digits prints alike whatever smaller width is asked for.
  lemma FiveDigits(n: nat)
    requires 0x1000 <= n < 0x10000
    ensures Hex(n, 4) == Hex(n, 3) == Hex(n, 2)
  {
    Sixteenths(n);
    HexStep(n, 4);
    HexStep(n, 3);
    HexStep(n, 2);
    ThreeDigits(n / 16);
  }

  lemma ThreeDigits(n: nat)
    requires 0x100 <= n < 0x1000
    ensures Hex(n, 3) == Hex(n, 2) == Hex(n, 1)
  {
    HexStep(n, 3);
    HexStep(n, 2);
    assert Hex(n, 1) == Hex(n / 16, 0) + [HexDigit(n % 16)];
    TwoDigits(n / 16);
    assert Hex(n / 16, 1) == Hex(n / 256, 0) + [HexDigit(n / 16 % 16)] by {
      Sixteenths(n);
    }
    assert Hex(n / 16, 0) == Hex(n / 256, 0) + [HexDigit(n / 16 % 16)] by {
      Sixteenths(n);
    }
  }

  // ---- The two encoders side by side ----

  predicate IsAscii(name: string) {
    forall i :: 0 <= i < |name| ==> 0 < name[i] as int < 128
  }

  // How often '_' is followed by 'u' and four hex digits.
  function RuneEscapes(name: string): nat {
    if name == "" then 0
    else (if name[0] == '_' && HasRuneEscape(name[1..]) then 1 else 0) + RuneEscapes(name[1..])
  }

  lemma {:induction false} ShellIsShorter(name: string)
    requires IsAscii(name)
    ensures |Encode(name)| == |ShellEncode(name)| + 3 * RuneEscapes(name)
    ensures RuneEscapes(name) == 0 ==> Encode(name) == ShellEncode(name)
  {
    if name != "" {
      ShellIsShorter(name[1..]);
    }
  }

  // A '_' at i that is followed by 'u' and four hex digits.
  predicate EscapeAt(name: string, i: nat)
    requires i < |name|
  {
    name[i] == '_' && HasRuneEscape(name[i + 1..])
  }

  lemma EscapeAtTail(name: string, i: nat)
    requires 0 < i < |name|
    ensures EscapeAt(name, i) <==> EscapeAt(name[1..], i - 1)
  {
    assert name[1..][i..] == name[i + 1..];
  }

  lemma {:induction false} CountsEscapes(name: string)
    ensures RuneEscapes(name) > 0 <==> exists i :: 0 <= i < |name| && EscapeAt(name, i)
  {
    if name != "" {
      var rest := name[1..];
      CountsEscapes(rest);
      if RuneEscapes(rest) > 0 {
        var i :| 0 <= i < |rest| && EscapeAt(rest, i);
        EscapeAtTail(name, i + 1);
      } else if EscapeAt(name, 0) {
        assert RuneEscapes(name) > 0;
      } else {
        forall i | 0 <= i < |name| ensures !EscapeAt(name, i) {
          if i > 0 {
            EscapeAtTail(name, i);
            assert !EscapeAt(rest, i - 1);
          }
        }
      }
    }
  }

  // On newline-free ASCII the Go and the shell side name the same file exactly when
  // the name nowhere contains "_u" followed by four hex digits.
  lemma SlugsAgreeExactly(name: string)
    requires IsAscii(name) && '\n' !in name
    ensures Slug(name) == ShellSlug(name)
            <==> !exists i :: 0 <= i < |name| && EscapeAt(name, i)
  {
    var s := if name == "" then "default" else name;
    ShellIsShorter(s);
    CountsEscapes(name);
    if name == "" {
      assert RuneEscapes("default") == 0 by {
        CountsEscapes("default");
      }
    }
  }
}
