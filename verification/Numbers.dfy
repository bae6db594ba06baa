/** Printing and reading decimal numbers. */
module Numbers {
  import opened Wrappers
  import opened Text

  function Digits(n: nat): (s: string)
    ensures s != "" && forall i :: 0 <= i < |s| ==> '0' <= s[i] <= '9'
  {
    (if n < 10 then "" else Digits(n / 10)) + ['0' + (n % 10) as char]
  }

  function Decimal(i: int): string {
    if i < 0 then "-" + Digits(-i) else Digits(i)
  }

  // None where a character is not a digit, or there is none.
  function DigitsValue(s: string): Option<nat> {
    if s == "" || !('0' <= s[|s| - 1] <= '9') then None
    else
      var last := (s[|s| - 1] - '0') as nat;
      if |s| == 1 then Some(last)
      else
        var front := DigitsValue(s[..|s| - 1]);
        if front.Some? then Some(10 * front.value + last) else None
  }

  const MAX_INT: int := 0x7fff_ffff_ffff_ffff

  // A Go int on a 64-bit machine.
  predicate IsInt(i: int) {
    -MAX_INT - 1 <= i <= MAX_INT
  }

  // strconv.Atoi: digits after an optional sign, in the range of an int.
  function Atoi(s: string): Option<int> {
    var negative := s != "" && s[0] == '-';
    var digits := if s != "" && (s[0] == '-' || s[0] == '+') then s[1..] else s;
    var n := DigitsValue(digits);
    if n.None? then None
    else
      var abs: int := n.value;
      var i := if negative then -abs else abs;
      if IsInt(i) then Some(i) else None
  }

  lemma {:induction false} DigitsRoundTrip(n: nat)
    ensures DigitsValue(Digits(n)) == Some(n)
  {
    var s := Digits(n);
    assert (s[|s| - 1] - '0') as nat == n % 10;
    if n >= 10 {
      DigitsRoundTrip(n / 10);
      assert s[..|s| - 1] == Digits(n / 10);
    }
  }

  lemma AtoiOfDigits(s: string, n: nat)
    requires s != "" && '0' <= s[0] <= '9' && DigitsValue(s) == Some(n) && IsInt(n)
    ensures Atoi(s) == Some(n)
  {
  }

  lemma AtoiOfNegative(s: string, i: int)
    requires i < 0 && DigitsValue(s) == Some(-i) && IsInt(i)
    ensures Atoi("-" + s) == Some(i)
  {
    assert ("-" + s)[1..] == s;
  }

  lemma AtoiOfPositive(i: int)
    requires 0 <= i && IsInt(i)
    ensures Atoi(Digits(i)) == Some(i)
  {
    DigitsRoundTrip(i);
    AtoiOfDigits(Digits(i), i);
  }

  lemma AtoiOfOpposite(i: int)
    requires i < 0 && IsInt(i)
    ensures Atoi("-" + Digits(-i)) == Some(i)
  {
    DigitsRoundTrip(-i);
    AtoiOfNegative(Digits(-i), i);
  }

  lemma AtoiOfDecimal(i: int)
    requires IsInt(i)
    ensures Atoi(Decimal(i)) == Some(i)
  {
    if i < 0 {
      AtoiOfOpposite(i);
    } else {
      AtoiOfPositive(i);
    }
  }

  predicate AllDigits(s: string) {
    s != "" && forall i :: 0 <= i < |s| ==> '0' <= s[i] <= '9'
  }

  lemma {:induction false} ValueIffDigits(s: string)
    ensures DigitsValue(s).Some? <==> AllDigits(s)
  {
    if |s| > 1 {
      ValueIffDigits(s[..|s| - 1]);
      assert forall i :: 0 <= i < |s| ==> (i == |s| - 1 || s[i] == s[..|s| - 1][i]);
    }
  }

  // The number in the range of an int that the digits stand for, taken once or as its opposite.
  function InRange(digits: string, factor: int): Option<int> {
    var n := DigitsValue(digits);
    if n.None? then None
    else if -0x8000_0000_0000_0000 <= factor * n.value < 0x8000_0000_0000_0000 then Some(factor * n.value)
    else None
  }

  lemma AtoiUnsigned(digits: string)
    requires digits == "" || (digits[0] != '+' && digits[0] != '-')
    ensures Atoi(digits) == InRange(digits, 1)
  {
  }

  lemma AtoiPlus(digits: string)
    ensures Atoi("+" + digits) == InRange(digits, 1)
  {
    assert ("+" + digits)[1..] == digits;
  }

  lemma AtoiMinus(digits: string)
    ensures Atoi("-" + digits) == InRange(digits, -1)
  {
    assert ("-" + digits)[1..] == digits;
  }

  // A text without a sign is a number exactly when it consists of digits and fits; with a plus it reads as without,
  // and with a minus as the opposite.
  lemma AtoiReads(digits: string)
    requires digits == "" || (digits[0] != '+' && digits[0] != '-')
    ensures Atoi(digits) == Atoi("+" + digits) == InRange(digits, 1)
    ensures Atoi("-" + digits) == InRange(digits, -1)
    ensures Atoi(digits).Some? ==> AllDigits(digits)
  {
    ValueIffDigits(digits);
    AtoiUnsigned(digits);
    AtoiPlus(digits);
    AtoiMinus(digits);
  }

  // Numbers contain neither letters nor separators.
  lemma DecimalIsPlain(i: int)
    ensures ToLower(Decimal(i)) == Decimal(i) && ',' !in Decimal(i)
  {
  }
}
