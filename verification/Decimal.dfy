/** Signed decimal text as printed by fmt's %d and strconv.FormatInt and read by strconv.ParseInt(s, 10, 64). */
module Decimal {
  import opened Wrappers
  import opened Domain

  function DigitChar(d: nat): char
    requires d < 10
  {
    ('0' as int + d) as char
  }

  predicate IsDigit(c: char) {
    '0' <= c <= '9'
  }

  function Digits(n: nat): string {
    if n < 10 then [DigitChar(n)] else Digits(n / 10) + [DigitChar(n % 10)]
  }

  function FormatInt(n: int): string {
    if n < 0 then "-" + Digits(-n) else Digits(n)
  }

  predicate AllDigits(s: string) {
    forall i | 0 <= i < |s| :: IsDigit(s[i])
  }

  function NatOf(s: string): nat
    requires AllDigits(s)
  {
    if s == [] then 0
    else
      assert IsDigit(s[|s| - 1]);
      10 * NatOf(s[..|s| - 1]) + (s[|s| - 1] as int - '0' as int)
  }

  /** None is any error of strconv.ParseInt: no digits, a foreign character, or a value outside 64 bits. */
  function ParseInt(s: string): Option<Int64> {
    var negative := s != [] && s[0] == '-';
    var body := if s != [] && (s[0] == '-' || s[0] == '+') then s[1..] else s;
    if body == [] || !AllDigits(body) then None
    else
      var v: int := if negative then -(NatOf(body) as int) else NatOf(body);
      if MIN_INT64 <= v <= MAX_INT64 then Some(v) else None
  }

  lemma {:induction false} DigitsRead(n: nat)
    ensures Digits(n) != [] && AllDigits(Digits(n)) && NatOf(Digits(n)) == n
  {
    if n >= 10 {
      DigitsRead(n / 10);
      var s := Digits(n);
      assert s[..|s| - 1] == Digits(n / 10);
    }
  }

  /** A printed integer is negative exactly when it starts with a minus sign. */
  lemma FormatSign(n: int)
    ensures FormatInt(n) != [] && (FormatInt(n)[0] == '-' <==> n < 0)
    ensures n < 0 ==> FormatInt(n)[1..] == Digits(-n)
  {
    hide NatOf, Digits;
    if n < 0 {
      assert FormatInt(n) == "-" + Digits(-n);
    } else {
      DigitsRead(n);
      assert IsDigit(Digits(n)[0]);
    }
  }

  /** Reading back a printed 64-bit integer gives that integer. */
  lemma FormatParse(n: Int64)
    ensures ParseInt(FormatInt(n)) == Some(n)
  {
    var m: int := n;
    if m < 0 {
      DigitsRead(-m);
      ParseSigned(Digits(-m));
    } else {
      DigitsRead(m);
      ParseUnsigned(Digits(m));
    }
  }

  lemma ParseSigned(body: string)
    requires body != [] && AllDigits(body) && -(NatOf(body) as int) >= MIN_INT64
    ensures ParseInt("-" + body) == Some(-(NatOf(body) as int))
  {
  }

  lemma ParseUnsigned(body: string)
    requires body != [] && AllDigits(body) && NatOf(body) <= MAX_INT64
    ensures ParseInt(body) == Some(NatOf(body))
  {
  }

  lemma DigitsInjective(a: nat, b: nat)
    requires Digits(a) == Digits(b)
    ensures a == b
  {
    DigitsRead(a);
    DigitsRead(b);
  }

  /** Printing is injective on all integers. */
  lemma FormatInjective(a: int, b: int)
    requires FormatInt(a) == FormatInt(b)
    ensures a == b
  {
    hide Digits;
    FormatSign(a);
    FormatSign(b);
    if a < 0 {
      DigitsInjective(-a, -b);
    } else {
      DigitsInjective(a, b);
    }
  }

  /** Printed integers start with a digit or a minus sign and contain only those. */
  lemma FormatChars(n: int)
    ensures FormatInt(n) != []
    ensures forall i | 0 <= i < |FormatInt(n)| :: IsDigit(FormatInt(n)[i]) || FormatInt(n)[i] == '-'
  {
    DigitsRead(if n < 0 then -n else n);
  }

  /** The texts ParseInt accepts: digits with at most one sign, within 64 bits. */
  lemma ParseIntMeans(s: string, v: Int64)
    ensures ParseInt(s) == Some(v) <==>
            exists body: string :: body != [] && AllDigits(body)
              && ((s == body && v == NatOf(body)) || (s == "+" + body && v == NatOf(body))
                  || (s == "-" + body && v == -(NatOf(body) as int)))
  {
    if ParseInt(s) == Some(v) {
      var body := if s[0] == '-' || s[0] == '+' then s[1..] else s;
      assert body != [] && AllDigits(body);
      assert s == body || s == "+" + body || s == "-" + body;
    }
    forall body: string | body != [] && AllDigits(body)
      ensures !IsSign(body[0]) && ("+" + body)[1..] == body && ("-" + body)[1..] == body
    {
      assert IsDigit(body[0]);
    }
  }

  predicate IsSign(c: char) {
    c == '-' || c == '+'
  }

  /** Base ten, most significant digit first. */
  lemma Spelled()
    ensures FormatInt(9876543210) == "9876543210" && FormatInt(-105) == "-105" && FormatInt(0) == "0"
  {
    assert Digits(98) == "98";
    assert Digits(987) == "987";
    assert Digits(9876) == "9876";
    assert Digits(98765) == "98765";
    assert Digits(987654) == "987654";
    assert Digits(9876543) == "9876543";
    assert Digits(98765432) == "98765432";
    assert Digits(987654321) == "987654321";
    assert Digits(9876543210) == "9876543210";
    assert Digits(10) == "10";
    assert Digits(105) == "105";
  }
}
