/** Numbers written in decimal, and read back. */
module Decimals {
  predicate IsDigit(c: char) {
    '0' <= c <= '9'
  }

  predicate AllDigits(text: string) {
    text != "" && forall k :: 0 <= k < |text| ==> IsDigit(text[k])
  }

  function Decimal(n: nat): (text: string)
    ensures AllDigits(text)
  {
    var digit := ['0' + (n % 10) as char];
    if n < 10 then digit else Decimal(n / 10) + digit
  }

  function Value(text: string): nat {
    if text == "" then 0
    else Value(text[..|text| - 1]) * 10 + (if IsDigit(text[|text| - 1]) then (text[|text| - 1] - '0') as nat else 0)
  }

  lemma {:induction false} DecimalValue(n: nat)
    ensures Value(Decimal(n)) == n
  {
    var text, digit := Decimal(n), ['0' + (n % 10) as char];
    assert text[|text| - 1] == digit[0];
    if n >= 10 {
      DecimalValue(n / 10);
      assert text[..|text| - 1] == Decimal(n / 10);
    } else {
      assert text[..|text| - 1] == "";
    }
  }

  lemma {:induction false} DecimalLeads(n: nat)
    requires n > 0
    ensures Decimal(n)[0] != '0'
  {
    if n >= 10 {
      DecimalLeads(n / 10);
    }
  }

  lemma LastDigit(c: char, n: nat)
    requires IsDigit(c)
    ensures var d := (c - '0') as nat; d < 10 && (n * 10 + d) / 10 == n && '0' + ((n * 10 + d) % 10) as char == c
  {
  }

  /** A number has one text with no leading zero. */
  lemma {:induction false} OneDecimal(text: string)
    requires AllDigits(text) && text[0] != '0'
    ensures text == Decimal(Value(text)) && Value(text) > 0
  {
    var k := |text| - 1;
    assert text == text[..k] + [text[k]];
    LastDigit(text[k], Value(text[..k]));
    if k > 0 {
      OneDecimal(text[..k]);
    } else {
      assert text[..k] == "";
    }
  }
}
