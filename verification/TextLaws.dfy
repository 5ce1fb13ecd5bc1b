/** What the character classes and number scanners of CText amount to, said without them. */
module TextLaws {
  import opened CText

  // -------------------------------------------------------------- characters

  lemma SpaceCharacters(c: char)
    ensures IsSpace(c) <==> c in " \t\n\U{0b}\U{0c}\r"
  {
  }

  lemma DigitCharacters(c: char)
    ensures IsDigit(c) <==> c in "0123456789"
  {
    assert forall d :: d in "0123456789" <==> '0' <= d <= '9' by { TenDigits(); }
  }

  lemma TenDigits()
    ensures forall d :: d in "0123456789" <==> '0' <= d <= '9'
  {
    forall d: char | '0' <= d <= '9' ensures d in "0123456789" {
      assert "0123456789"[d as int - '0' as int] == d;
    }
  }

  /** Two characters are the same but for case. */
  predicate SameLetter(c: char, d: char) {
    || c == d
    || ('a' <= c <= 'z' && c as int == d as int + ('a' as int - 'A' as int))
    || ('a' <= d <= 'z' && d as int == c as int + ('a' as int - 'A' as int))
  }

  /** `strcasecmp` compares letter by letter and heeds nothing but case. */
  lemma SameButForCase(a: string, b: string)
    ensures SameIgnoringCase(a, b) <==> |a| == |b| && forall i :: 0 <= i < |a| ==> SameLetter(a[i], b[i])
  {
  }

  lemma LetterMeans(c: char, small: char, large: char)
    requires 'a' <= small <= 'z' && small as int == large as int + ('a' as int - 'A' as int)
    ensures SameLetter(c, small) <==> c == small || c == large
  {
  }

  predicate SaysTrue(v: string) {
    && |v| == 4
    && (v[0] == 't' || v[0] == 'T') && (v[1] == 'r' || v[1] == 'R')
    && (v[2] == 'u' || v[2] == 'U') && (v[3] == 'e' || v[3] == 'E')
  }

  predicate SaysOn(v: string) {
    |v| == 2 && (v[0] == 'o' || v[0] == 'O') && (v[1] == 'n' || v[1] == 'N')
  }

  lemma TrueInAnyCase(v: string)
    ensures SameIgnoringCase(v, "true") <==> SaysTrue(v)
  {
    SameButForCase(v, "true");
    if |v| == 4 {
      LetterMeans(v[0], 't', 'T');
      LetterMeans(v[1], 'r', 'R');
      LetterMeans(v[2], 'u', 'U');
      LetterMeans(v[3], 'e', 'E');
      assert "true"[0] == 't' && "true"[1] == 'r' && "true"[2] == 'u' && "true"[3] == 'e';
      hide SameLetter, SameIgnoringCase;
      assert (forall i :: 0 <= i < 4 ==> SameLetter(v[i], "true"[i]))
         <==> SameLetter(v[0], 't') && SameLetter(v[1], 'r') && SameLetter(v[2], 'u') && SameLetter(v[3], 'e');
    }
  }

  lemma OnInAnyCase(v: string)
    ensures SameIgnoringCase(v, "on") <==> SaysOn(v)
  {
    SameButForCase(v, "on");
    if |v| == 2 {
      LetterMeans(v[0], 'o', 'O');
      LetterMeans(v[1], 'n', 'N');
      assert "on"[0] == 'o' && "on"[1] == 'n';
      hide SameLetter, SameIgnoringCase;
      assert (forall i :: 0 <= i < 2 ==> SameLetter(v[i], "on"[i])) <==> SameLetter(v[0], 'o') && SameLetter(v[1], 'n');
    }
  }

  // ----------------------------------------------------------------- numbers

  predicate AllDigits(a: string) {
    forall i :: 0 <= i < |a| ==> '0' <= a[i] <= '9'
  }

  /** The number that digits spell. */
  function Numeral(a: string): nat
    requires AllDigits(a)
  {
    if a == "" then 0 else 10 * Numeral(a[..|a| - 1]) + (a[|a| - 1] as int - '0' as int)
  }

  lemma {:induction false} DigitsAppend(a: string, c: char, acc: int)
    requires AllDigits(a) && '0' <= c <= '9'
    ensures DigitsValue(a + [c], acc) == 10 * DigitsValue(a, acc) + (c as int - '0' as int)
  {
    if a == "" {
      assert [c][1..] == "";
      assert a + [c] == [c];
    } else {
      assert (a + [c])[1..] == a[1..] + [c];
      DigitsAppend(a[1..], c, 10 * acc + (a[0] as int - '0' as int));
    }
  }

  lemma {:induction false} DigitsStop(a: string, rest: string, acc: int)
    requires AllDigits(a) && (rest != "" ==> !('0' <= rest[0] <= '9'))
    ensures DigitsValue(a + rest, acc) == DigitsValue(a, acc)
  {
    if a == "" {
      assert a + rest == rest;
    } else {
      assert (a + rest)[1..] == a[1..] + rest;
      DigitsStop(a[1..], rest, 10 * acc + (a[0] as int - '0' as int));
    }
  }

  lemma {:induction false} DigitsSpell(a: string)
    requires AllDigits(a)
    ensures DigitsValue(a, 0) == Numeral(a)
  {
    if a != "" {
      var front := a[..|a| - 1];
      DigitsSpell(front);
      DigitsAppend(front, a[|a| - 1], 0);
      assert a == front + [a[|a| - 1]];
    }
  }

  lemma {:induction false} SpaceIsSkipped(ws: string, s: string)
    requires (forall i :: 0 <= i < |ws| ==> IsSpace(ws[i])) && (s != "" ==> !IsSpace(s[0]))
    ensures SkipSpace(ws + s) == s
  {
    if ws == "" {
      assert ws + s == s;
    } else {
      assert (ws + s)[1..] == ws[1..] + s;
      SpaceIsSkipped(ws[1..], s);
    }
  }

  /** `strtol` saturates at 64 bits, and 32 of them are kept. */
  function Kept(v: int): int {
    if v > 0x7fff_ffff_ffff_ffff then -1
    else if v < -0x8000_0000_0000_0000 then 0
    else (v + 0x8000_0000) % 0x1_0000_0000 - 0x8000_0000
  }

  lemma KeptInRange(v: int)
    requires -0x8000_0000 <= v <= 0x7fff_ffff
    ensures Kept(v) == v
  {
  }

  function Signed(sign: string, v: int): int {
    if sign == "-" then -v else v
  }

  predicate IsSign(sign: string) {
    sign == "" || sign == "-" || sign == "+"
  }

  function Saturated(v: int): int {
    if v > LONG_MAX then LONG_MAX else if v < LONG_MIN then LONG_MIN else v
  }

  lemma KeptIsLowWord(v: int)
    ensures (Saturated(v) + 0x8000_0000) % 0x1_0000_0000 - 0x8000_0000 == Kept(v)
  {
  }

  lemma StrtolReads(s: string, sign: string, digits: string)
    requires IsSign(sign) && SkipSpace(s) == sign + digits
    requires sign == "" && digits != "" ==> digits[0] != '-' && digits[0] != '+'
    ensures Strtol(s) == Saturated(Signed(sign, DigitsValue(digits, 0)))
  {
    var t := sign + digits;
    hide SkipSpace, DigitsValue;
    if sign == "" {
      assert t == digits;
    } else {
      assert t[0] == sign[0] && t[1..] == digits;
    }
  }

  /** White space, a sign, digits, and anything behind them that is no digit: the number is what the
      digits spell, with the sign. */
  lemma AtoiReads(ws: string, sign: string, a: string, rest: string)
    requires (forall i :: 0 <= i < |ws| ==> IsSpace(ws[i])) && IsSign(sign) && AllDigits(a)
    requires rest != "" ==> !('0' <= rest[0] <= '9')
    requires sign + a == "" && rest != "" ==> !IsSpace(rest[0]) && rest[0] != '-' && rest[0] != '+'
    ensures Atoi(ws + (sign + (a + rest))) == Kept(Signed(sign, Numeral(a)))
  {
    SpaceIsSkipped(ws, sign + (a + rest));
    hide SkipSpace, Numeral, DigitsValue, Strtol, Kept, Signed, Saturated;
    DigitsStop(a, rest, 0);
    DigitsSpell(a);
    StrtolReads(ws + (sign + (a + rest)), sign, a + rest);
    KeptIsLowWord(Signed(sign, Numeral(a)));
  }

  lemma AtoiOfDigits(a: string)
    requires AllDigits(a) && Numeral(a) <= 0x7fff_ffff
    ensures Atoi(a) == Numeral(a)
  {
    AtoiReads("", "", a, "");
    assert "" + ("" + (a + "")) == a;
  }

  /** A digit more makes the number ten times as large and adds the digit. */
  lemma {:induction false} NumberGrows(a: string, c: char)
    requires AllDigits(a) && '0' <= c <= '9' && Numeral(a + [c]) <= 0x7fff_ffff
    ensures Atoi(a + [c]) == 10 * Atoi(a) + (c as int - '0' as int)
  {
    assert (a + [c])[..|a|] == a;
    AtoiOfDigits(a);
    AtoiOfDigits(a + [c]);
  }

  lemma OneDigitMore(a: string, c: char)
    requires AllDigits(a) && '0' <= c <= '9'
    ensures AllDigits(a + [c]) && Numeral(a + [c]) == 10 * Numeral(a) + (c as int - '0' as int)
  {
    assert (a + [c])[..|a|] == a;
  }

  lemma {:induction false} DecimalSpells(n: nat)
    ensures AllDigits(Decimal(n)) && Decimal(n) != "" && Numeral(Decimal(n)) == n
  {
    var front, c := if n < 10 then "" else Decimal(n / 10), '0' + (n % 10) as char;
    assert Decimal(n) == front + [c];
    if n >= 10 {
      DecimalSpells(n / 10);
    }
    assert c as int - '0' as int == n % 10;
    hide Decimal, Numeral;
    OneDigitMore(front, c);
    NothingSpelled();
  }

  lemma NothingSpelled()
    ensures Numeral("") == 0
  {
  }

  function Magnitude(n: int): nat {
    if n < 0 then -n else n
  }

  lemma DecimalSign(n: int)
    ensures Decimal(n) == if n < 0 then "-" + Decimal(Magnitude(n)) else Decimal(Magnitude(n))
  {
  }

  lemma {:induction false} DecimalHasNoEnd(n: int)
    ensures NulFree(Decimal(n)) && Decimal(n) != "" && CStr(Decimal(n)) == Decimal(n)
  {
    hide Decimal, Numeral, CStr;
    DecimalSign(n);
    DecimalSpells(Magnitude(n));
    CStrUnique(Decimal(n), Decimal(n));
  }

  /** Printing a number and reading it gives it back, for every 32-bit number. */
  lemma {:induction false} AtoiUndoesDecimal(n: int)
    requires -0x8000_0000 <= n <= 0x7fff_ffff
    ensures Atoi(Decimal(n)) == n
  {
    hide Decimal, Numeral, Atoi, Kept;
    var sign, digits := if n < 0 then "-" else "", Decimal(Magnitude(n));
    DecimalSign(n);
    DecimalSpells(Magnitude(n));
    KeptInRange(n);
    AtoiReads("", sign, digits, "");
    assert Decimal(n) == "" + (sign + (digits + ""));
  }

  function TenTo(k: nat): nat {
    if k == 0 then 1 else 10 * TenTo(k - 1)
  }

  lemma {:induction false} DecimalIsShort(n: nat, k: nat)
    requires k > 0 && n < TenTo(k)
    ensures |Decimal(n)| <= k
  {
    if n >= 10 {
      DecimalIsShort(n / 10, k - 1);
    }
  }

  /** A 32-bit number takes at most eleven characters. */
  lemma {:induction false} DecimalFits(n: int)
    requires -0x8000_0000 <= n <= 0x7fff_ffff
    ensures |Decimal(n)| <= 11
  {
    assert TenTo(5) == 100000;
    assert TenTo(10) == 10000000000 by {
      assert TenTo(7) == 10000000 && TenTo(9) == 1000000000;
    }
    DecimalIsShort(Magnitude(n), 10);
    DecimalSign(n);
  }
}
