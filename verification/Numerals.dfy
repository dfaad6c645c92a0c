/** Numbers as text: what str, int and the digit loops of strtoul make of each other. */
module Numerals {
  import opened Tokens

  /** isspace */
  predicate IsSpace(c: char)
  {
    c == ' ' || '\t' <= c <= '\r'
  }

  function SkipSpace(s: string): (r: string)
  {
    if s != "" && IsSpace(s[0]) then SkipSpace(s[1..]) else s
  }

  function CutSpace(s: string): (r: string)
  {
    if s != "" && IsSpace(s[|s| - 1]) then CutSpace(s[..|s| - 1]) else s
  }

  predicate AllDigits(s: string)
  {
    forall i | 0 <= i < |s| :: '0' <= s[i] <= '9'
  }

  function DecimalNumber(s: string): (v: nat)
    requires AllDigits(s)
  {
    if s == [] then 0 else 10 * DecimalNumber(s[..|s| - 1]) + (s[|s| - 1] as int - '0' as int)
  }

  datatype Number = NotANumber | Number(value: int)

  /** int(s) */
  function ReadInt(s: string): (r: Number)
  {
    var t := CutSpace(SkipSpace(s));
    var d := if t != "" && (t[0] == '-' || t[0] == '+') then t[1..] else t;
    if d == "" || !AllDigits(d) then NotANumber
    else
      var n: int := DecimalNumber(d);
      Number(if t[0] == '-' then -n else n)
  }

  function Digits(n: nat): (s: string)
  {
    if n < 10 then ['0' + n as char] else Digits(n / 10) + ['0' + (n % 10) as char]
  }

  /** str(n) */
  function Decimal(n: int): (s: string)
  {
    if n < 0 then "-" + Digits(-n) else Digits(n)
  }

  lemma {:induction false} DigitsRead(n: nat)
    ensures Digits(n) != "" && AllDigits(Digits(n)) && DecimalNumber(Digits(n)) == n
  {
    if n < 10 {
      assert Digits(n)[..0] == "";
    } else {
      DigitsRead(n / 10);
      assert Digits(n)[..|Digits(n)| - 1] == Digits(n / 10);
    }
  }

  /** Reading a written number gives the number, and its text holds nothing but digits and a sign. */
  lemma ReadDecimal(n: int)
    ensures ReadInt(Decimal(n)) == Number(n)
    ensures forall i | 0 <= i < |Decimal(n)| :: Decimal(n)[i] == '-' || '0' <= Decimal(n)[i] <= '9'
  {
    var s := Decimal(n);
    DigitsRead(if n < 0 then -n else n);
    assert SkipSpace(s) == s && CutSpace(s) == s;
    if n < 0 {
      assert s[1..] == Digits(-n);
    }
  }
}
