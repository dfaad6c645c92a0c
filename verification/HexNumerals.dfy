/**
  Which texts parse_hex_mask reads as which byte: the number that strtoul finds, capped at 64 bits, cut to 32 bits
  and then compared with 255, so that numbers far beyond a byte can be read as one.
 */
module HexNumerals {
  import opened Agent
  import opened Tokens
  import opened Numerals
  import opened HexMask

  /** The numeral of n in base 16, with small or capital letters. */
  function HexText(n: nat, capital: bool): (s: string)
  {
    if n < 16 then [HexChar(n, capital)] else HexText(n / 16, capital) + [HexChar(n % 16, capital)]
  }

  function HexChar(v: nat, capital: bool): (c: char)
    requires v < 16
  {
    if v < 10 then '0' + v as char else if capital then 'A' + (v - 10) as char else 'a' + (v - 10) as char
  }

  lemma {:induction false} HexTextRead(n: nat, capital: bool)
    ensures HexText(n, capital) != "" && AllHex(HexText(n, capital)) && HexNumber(HexText(n, capital)) == n
    ensures forall i | 0 <= i < |HexText(n, capital)| ::
              && HexText(n, capital)[i] != 'x' && HexText(n, capital)[i] != 'X' && HexText(n, capital)[i] != '-'
              && HexText(n, capital)[i] != '+' && !IsSpace(HexText(n, capital)[i])
  {
    var s := HexText(n, capital);
    if n < 16 {
      assert s[..0] == "";
    } else {
      HexTextRead(n / 16, capital);
      assert s[..|s| - 1] == HexText(n / 16, capital);
    }
  }

  /** What an unsigned long makes of the number. */
  function Capped(n: nat): (v: nat)
  {
    if n > 0xffff_ffff_ffff_ffff then 0xffff_ffff_ffff_ffff else n
  }

  /** A value is taken for a byte if its lower 32 bits are one. */
  function ByteOf(v: nat): (t: Token)
  {
    if v % 0x1_0000_0000 < 256 then Cell(Some(v % 0x1_0000_0000)) else Bad
  }

  lemma ValueToByte(tok: string, masked: bool, v: nat)
    requires tok !in {"-", "xx", "--"} && StrtoulWhole(tok) == Some(v)
    ensures ReadToken(tok, masked) == ByteOf(v)
  {
  }

  /** A numeral, with small or capital letters, is read as its number, capped and cut. */
  lemma NumeralRead(n: nat, capital: bool, masked: bool)
    ensures ReadToken(HexText(n, capital), masked) == ByteOf(Capped(n))
  {
    var s := HexText(n, capital);
    HexTextRead(n, capital);
    assert SkipSpace(s) == s;
    ValueToByte(s, masked, Capped(n));
  }

  /** So it is behind 0x or 0X. */
  lemma PrefixedRead(n: nat, capital: bool, large: bool, masked: bool)
    ensures ReadToken((if large then "0X" else "0x") + HexText(n, capital), masked) == ByteOf(Capped(n))
  {
    var s := HexText(n, capital);
    var t := (if large then "0X" else "0x") + s;
    HexTextRead(n, capital);
    assert t[0] == '0' && t[1] == (if large then 'X' else 'x') && t[2] == s[0] && t[2..] == s;
    assert SkipSpace(t) == t;
    ValueToByte(t, masked, Capped(n));
  }

  function Negated(n: nat): (v: nat)
  {
    if n > 0xffff_ffff_ffff_ffff then 0xffff_ffff_ffff_ffff
    else if n == 0 then 0 else 0x1_0000_0000_0000_0000 - n
  }

  lemma NegatedIsMod(n: nat)
    requires n <= 0xffff_ffff_ffff_ffff
    ensures (ULONG_SIZE - n) % ULONG_SIZE == Negated(n)
  {
  }

  lemma SignSkipped(c: char, s: string)
    requires s != "" && AllHex(s) && (|s| > 1 ==> s[1] != 'x' && s[1] != 'X') && (c == '-' || c == '+')
    ensures StrtoulWhole([c] + s)
         == Some(if HexNumber(s) >= ULONG_SIZE then ULONG_SIZE - 1
                 else if c == '-' then (ULONG_SIZE - HexNumber(s)) % ULONG_SIZE else HexNumber(s))
  {
    var t := [c] + s;
    assert t[0] == c && t[1..] == s;
    assert SkipSpace(t) == t;
  }

  lemma SignedValue(c: char, s: string, n: nat)
    requires s != "" && AllHex(s) && HexNumber(s) == n && (|s| > 1 ==> s[1] != 'x' && s[1] != 'X')
    requires c == '-' || c == '+'
    ensures StrtoulWhole([c] + s) == Some(if c == '-' then Negated(n) else Capped(n))
  {
    SignSkipped(c, s);
    if n <= 0xffff_ffff_ffff_ffff {
      NegatedIsMod(n);
    }
  }

  /** A minus sign takes the number from 2 to the 64th. */
  lemma MinusRead(n: nat, capital: bool, masked: bool)
    ensures ReadToken(['-'] + HexText(n, capital), masked) == ByteOf(Negated(n))
  {
    var s := HexText(n, capital);
    HexTextRead(n, capital);
    SignedValue('-', s, n);
    assert (['-'] + s)[1] == s[0];
    ValueToByte(['-'] + s, masked, Negated(n));
  }

  /** A plus sign changes nothing. */
  lemma PlusRead(n: nat, capital: bool, masked: bool)
    ensures ReadToken(['+'] + HexText(n, capital), masked) == ByteOf(Capped(n))
  {
    var s := HexText(n, capital);
    HexTextRead(n, capital);
    SignedValue('+', s, n);
    assert (['+'] + s)[0] == '+';
    ValueToByte(['+'] + s, masked, Capped(n));
  }

  /** Leading white space is skipped. */
  lemma SpacedRead(c: char, n: nat, capital: bool, masked: bool)
    requires c in {' ', '\t', '\n', '\r'} || c as int == 11 || c as int == 12
    ensures ReadToken([c] + HexText(n, capital), masked) == ByteOf(Capped(n))
  {
    var s := HexText(n, capital);
    HexTextRead(n, capital);
    var t := [c] + s;
    assert t[0] == c && t[1..] == s;
    assert SkipSpace(t) == SkipSpace(s) == s;
    assert t[0] != '-' && t[0] != 'x';
    ValueToByte(t, masked, Capped(n));
  }

  /** A character that belongs to no numeral makes the token unreadable. */
  lemma ForeignEnd(tok: string, c: char, masked: bool)
    requires tok != "" && tok[|tok| - 1] == c && DigitValue(c).None? && !IsSpace(c) && c != '-' && c != '+'
    requires masked ==> tok != "xx"
    ensures ReadToken(tok, masked) == Bad
  {
    SkipEnd(tok);
    var t := SkipSpace(tok);
    var u := if t[0] == '-' || t[0] == '+' then t[1..] else t;
    assert u != "" && u[|u| - 1] == c;
    var prefixed := |u| >= 3 && u[0] == '0' && (u[1] == 'x' || u[1] == 'X') && DigitValue(u[2]).Some?;
    var d := if prefixed then u[2..] else u;
    assert d[|d| - 1] == c;
    assert !AllHex(d);
  }

  lemma {:induction false} SkipEnd(s: string)
    requires s != "" && !IsSpace(s[|s| - 1])
    ensures SkipSpace(s) != "" && SkipSpace(s)[|SkipSpace(s)| - 1] == s[|s| - 1]
  {
    if IsSpace(s[0]) {
      SkipEnd(s[1..]);
    }
  }

  /** The three don't-care tokens are those, and only where there is a mask. */
  lemma DontCareExactly(tok: string, masked: bool)
    ensures ReadToken(tok, masked) == Cell(None) <==> masked && tok in {"-", "xx", "--"}
  {
  }

  /** So every number below 2 to the 64th whose lower 32 bits are a byte is read as that byte. */
  lemma FarBeyond(n: nat, capital: bool, masked: bool)
    requires n <= 0xffff_ffff_ffff_ffff && n % 0x1_0000_0000 < 256
    ensures ReadToken(HexText(n, capital), masked) == Cell(Some(n % 0x1_0000_0000))
  {
    NumeralRead(n, capital, masked);
  }
}
