/** Decimal integers: how Python prints one, and how `int` reads text. */
module Decimal {
  import opened Common
  import opened Text

  predicate IsDigit(c: char) { '0' <= c <= '9' }

  function Digit(d: nat): char
    requires d < 10
  {
    ('0' as int + d) as char
  }

  function Digits(n: nat): string {
    if n < 10 then [Digit(n)] else Digits(n / 10) + [Digit(n % 10)]
  }

  /** `str` of an integer. */
  function Show(n: int): string {
    if n < 0 then "-" + Digits(-n) else Digits(n)
  }

  /** Digits, with single underscores between them. */
  function ReadDigits(s: string): Option<nat>
    decreases |s|
  {
    if s == "" || !IsDigit(s[|s| - 1]) then None
    else
      var d := s[|s| - 1] as int - '0' as int;
      if |s| == 1 then Some(d)
      else
        var front := s[..|s| - 1];
        match ReadDigits(if front[|front| - 1] == '_' then front[..|front| - 1] else front)
        case None => None
        case Some(n) => Some(n * 10 + d)
  }

  function Signed(n: Option<nat>, sign: int): Option<int> {
    match n case None => None case Some(m) => Some(sign * m)
  }

  /** Digits after an optional sign. */
  function ReadSigned(s: string): Option<int> {
    if s == "" then None
    else if s[0] == '-' then Signed(ReadDigits(s[1..]), -1)
    else if s[0] == '+' then Signed(ReadDigits(s[1..]), 1)
    else Signed(ReadDigits(s), 1)
  }

  /** `int` of a text over ASCII digits; None where it raises. */
  function Read(text: string): Option<int> {
    ReadSigned(Strip(text))
  }

  lemma {:induction false} DigitsAreDigits(n: nat)
    ensures Digits(n) != "" && forall i :: 0 <= i < |Digits(n)| ==> IsDigit(Digits(n)[i])
  {
    if n >= 10 {
      DigitsAreDigits(n / 10);
    }
  }

  lemma {:induction false} ReadDigitsUndoes(n: nat)
    ensures ReadDigits(Digits(n)) == Some(n)
  {
    if n >= 10 {
      var front := Digits(n / 10);
      DigitsAreDigits(n / 10);
      ReadDigitsUndoes(n / 10);
      assert Digits(n)[..|front|] == front;
      assert IsDigit(front[|front| - 1]);
    }
  }

  lemma {:induction false} ReadSignedUndoes(n: int)
    ensures ReadSigned(Show(n)) == Some(n)
  {
    var m := if n < 0 then -n else n;
    DigitsAreDigits(m);
    ReadDigitsUndoes(m);
    assert IsDigit(Digits(m)[0]);
    if n < 0 {
      assert Show(n)[1..] == Digits(m);
    }
  }

  lemma {:induction false} ShowIsStripped(n: int)
    ensures Strip(Show(n)) == Show(n)
  {
    var d := Digits(if n < 0 then -n else n);
    DigitsAreDigits(if n < 0 then -n else n);
    assert IsDigit(d[0]) && IsDigit(d[|d| - 1]);
    StripId(Show(n));
  }

  /** Reading undoes printing, for every integer. */
  lemma {:induction false} ReadUndoesShow(n: int)
    ensures Read(Show(n)) == Some(n)
  {
    ShowIsStripped(n);
    ReadSignedUndoes(n);
  }

  /** Printed integers hold digits and a minus sign only. */
  lemma {:induction false} ShowHolds(n: int, c: char)
    requires !IsDigit(c) && c != '-'
    ensures forall i :: 0 <= i < |Show(n)| ==> Show(n)[i] != c
  {
    DigitsAreDigits(if n < 0 then -n else n);
  }
}
