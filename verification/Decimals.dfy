/**
 What the number parser accepts, against the decimal notation itself: white space, a sign, digits of the
 alphabet 0123456789, and anything else after them.
 */
module Decimals {
  import opened Options
  import opened Ledger

  const DIGITS := "0123456789"

  // The six characters the C locale counts as white space.
  const BLANKS := [' ', '\t', '\n', 11 as char, 12 as char, '\r']

  // ---------------------------------------------------------------- printing

  function Digits(n: nat): (s: string)
    ensures s != ""
  {
    if n < 10 then [DIGITS[n]] else Digits(n / 10) + [DIGITS[n % 10]]
  }

  function Decimal(n: int): string {
    if n < 0 then "-" + Digits(-n) else Digits(n)
  }

  // ---------------------------------------------------------------- what a numeral means

  predicate Numeral(s: string) {
    forall i :: 0 <= i < |s| ==> s[i] in DIGITS
  }

  // The place of a digit in the alphabet.
  function Place(c: char): (n: nat)
    requires c in DIGITS
    ensures n < 10 && DIGITS[n] == c
  {
    var n :| 0 <= n < 10 && DIGITS[n] == c;
    n
  }

  // Positional value, most significant digit first.
  function Value(s: string): (n: int)
    requires Numeral(s)
    ensures n >= 0
  {
    if s == "" then 0 else 10 * Value(s[..|s| - 1]) + Place(s[|s| - 1])
  }

  lemma DigitIff(c: char)
    ensures IsDigit(c) <==> c in DIGITS
    ensures c in DIGITS ==> Place(c) == c as int - '0' as int
  {
    if IsDigit(c) {
      assert DIGITS[c as int - '0' as int] == c;
    }
    if c in DIGITS {
      assert DIGITS[Place(c)] == '0' + Place(c) as char;
    }
  }

  // Nothing after the digits continues them.
  predicate Stops(t: string) {
    t == "" || t[0] !in DIGITS
  }

  lemma {:induction false} ReadsNumeral(s: string, t: string)
    requires Numeral(s)
    ensures ReadDigits(s + t, 0) == ReadDigits(t, Value(s))
    decreases |s|
  {
    if s == "" {
      assert s + t == t;
    } else {
      var init, c := s[..|s| - 1], s[|s| - 1];
      assert s + t == init + ([c] + t);
      ReadsNumeral(init, [c] + t);
      DigitIff(c);
      assert ([c] + t)[1..] == t;
    }
  }

  lemma {:induction false} SkipsBlanks(ws: string, u: string)
    requires (forall i :: 0 <= i < |ws| ==> ws[i] in BLANKS) && (u == "" || u[0] !in BLANKS)
    ensures SkipSpace(ws + u) == u
    decreases |ws|
  {
    if ws == "" {
      assert ws + u == u;
    } else {
      assert (ws + u)[1..] == ws[1..] + u;
      assert ws[0] in BLANKS;
      SkipsBlanks(ws[1..], u);
    }
  }

  // The signed number, if 64 bits hold it.
  function Held(n: int): Option<int> {
    if -9223372036854775808 <= n <= 9223372036854775807 then Some(n) else None
  }

  /** White space, at most one sign, digits, and then anything that is no digit: the number is that of the
      digits, negated by a minus sign, and there is none where it does not fit in 64 bits. */
  lemma StollReads(ws: string, sign: string, s: string, t: string)
    requires (forall i :: 0 <= i < |ws| ==> ws[i] in BLANKS) && sign in {"", "+", "-"}
    requires Numeral(s) && s != "" && Stops(t)
    ensures Stoll(ws + (sign + (s + t))) == Held(if sign == "-" then -Value(s) else Value(s))
  {
    var u := sign + (s + t);
    assert s[0] in DIGITS;
    DigitIff(s[0]);
    assert u[0] == if sign == "" then s[0] else sign[0];
    SkipsBlanks(ws, u);
    if sign == "" { assert u == s + t; } else { assert u[1..] == s + t; }
    assert (s + t)[0] == s[0];
    ReadsNumeral(s, t);
    if t != "" { DigitIff(t[0]); }
  }

  /** Where no digit follows the white space and the sign there is no number. */
  lemma StollRefuses(ws: string, sign: string, t: string)
    requires (forall i :: 0 <= i < |ws| ==> ws[i] in BLANKS) && sign in {"", "+", "-"}
    requires Stops(t) && (sign == "" ==> t == "" || (t[0] !in BLANKS && t[0] !in ['+', '-']))
    ensures Stoll(ws + (sign + t)) == None
  {
    var u := sign + t;
    if sign != "" { assert u[0] == sign[0] && u[1..] == t; } else { assert u == t; }
    SkipsBlanks(ws, u);
    if t != "" { DigitIff(t[0]); }
  }

  lemma {:induction false} DigitsValue(n: nat)
    ensures Numeral(Digits(n)) && Value(Digits(n)) == n
  {
    if n < 10 {
      PlaceOf(n);
      assert Digits(n)[..0] == "";
    } else {
      DigitsValue(n / 10);
      PlaceOf(n % 10);
      assert Digits(n)[..|Digits(n)| - 1] == Digits(n / 10);
    }
  }

  lemma PlaceOf(n: nat)
    requires n < 10
    ensures DIGITS[n] in DIGITS && Place(DIGITS[n]) == n
  {
    DigitIff(DIGITS[n]);
    assert DIGITS[n] == '0' + n as char;
  }

  lemma StollPlain(sign: string, s: string, n: int)
    requires sign in {"", "+", "-"} && Numeral(s) && s != "" && n == if sign == "-" then -Value(s) else Value(s)
    ensures Stoll(sign + s) == Held(n)
  {
    StollReads("", sign, s, "");
    assert "" + (sign + (s + "")) == sign + s;
  }

  /** Parsing inverts printing on every number of 64 bits, and refuses every other. */
  lemma StollDecimal(n: int)
    ensures Stoll(Decimal(n)) == Held(n)
  {
    if n < 0 {
      DigitsValue(-n);
      StollPlain("-", Digits(-n), n);
    } else {
      DigitsValue(n);
      StollPlain("", Digits(n), n);
      assert "" + Digits(n) == Digits(n);
    }
  }
}
