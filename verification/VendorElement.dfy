/**
  The way of a ResFi element: framework/utils.py writes it as dotted hex, parse_hex reads that, the element
  walker and the vendor dump of iw-4.3/scan.c print it, and framework/connectors.py and framework/utils.py
  take the dump apart again.
 */
module VendorElement {
  import opened Agent
  import opened Tokens
  import opened HexMask

  // ---------------------------------------------------------------- hex strings

  /** A string that decode("hex") accepts. */
  predicate IsHexString(s: string)
  {
    |s| % 2 == 0 && AllHex(s)
  }

  function ByteAt(s: string, i: nat): (b: Byte)
    requires 2 * i + 1 < |s| && AllHex(s)
  {
    16 * DigitValue(s[2 * i]).value + DigitValue(s[2 * i + 1]).value
  }

  function Unhex(s: string): (bs: seq<Byte>)
    requires IsHexString(s)
    ensures |bs| == |s| / 2
  {
    seq(|s| / 2, i requires 0 <= i < |s| / 2 => ByteAt(s, i))
  }

  function Hexlify(bs: seq<Byte>): (s: string)
    ensures |s| == 2 * |bs|
  {
    seq(2 * |bs|, i requires 0 <= i < 2 * |bs| => Hex2(bs[i / 2])[i % 2])
  }

  lemma UnhexHexlify(bs: seq<Byte>)
    ensures IsHexString(Hexlify(bs)) && Unhex(Hexlify(bs)) == bs
  {
    var s := Hexlify(bs);
    forall i | 0 <= i < |bs| ensures ByteAt(s, i) == bs[i] {
      assert s[2 * i] == Hex2(bs[i])[0] && s[2 * i + 1] == Hex2(bs[i])[1];
    }
  }

  lemma HexlifyAppend(xs: seq<Byte>, ys: seq<Byte>)
    ensures Hexlify(xs + ys) == Hexlify(xs) + Hexlify(ys)
  {
  }

  /** The digits two by two. */
  function Pairs(s: string): (toks: seq<string>)
    requires |s| % 2 == 0
    ensures |toks| == |s| / 2
  {
    seq(|s| / 2, i requires 0 <= i < |s| / 2 => s[2 * i..2 * i + 2])
  }

  // ---------------------------------------------------------------- hex_to_vendor_spec_ie

  datatype Formatted = FormatError(code: int) | Formatted(text: string)

  const PREFIX: seq<Byte> := [0xb1, 0x6b, 0x00, 0xb5]

  function IeTokens(hex: string): (toks: seq<string>)
    requires |hex| % 2 == 0 && |hex| <= 498
  {
    ["dd", Hex2(|hex| / 2 + 4), "b1", "6b", "00", "b5"] + Pairs(hex)
  }

  /** Every pair followed by a colon. */
  function Trail(toks: seq<string>): (s: string)
  {
    if toks == [] then "" else Join(toks, ':') + ":"
  }

  /** The dotting loop. */
  method Dotted(hex: string) returns (dotted: string)
    requires |hex| % 2 == 0
    ensures dotted == Trail(Pairs(hex))
  {
    dotted := "";
    var iter := 1;
    for i := 0 to |hex|
      invariant iter == i + 1
      invariant dotted == DottedUpTo(hex, i)
    {
      DottedStep(hex, i);
      if iter % 2 == 0 {
        dotted := dotted + [hex[i]] + ":";
      } else {
        dotted := dotted + [hex[i]];
      }
      iter := iter + 1;
    }
    assert Pairs(hex)[..|hex| / 2] == Pairs(hex);
  }

  ghost function DottedUpTo(hex: string, i: nat): (s: string)
    requires |hex| % 2 == 0 && i <= |hex|
  {
    Trail(Pairs(hex)[..i / 2]) + if i % 2 == 0 then "" else [hex[i - 1]]
  }

  lemma DottedStep(hex: string, i: nat)
    requires |hex| % 2 == 0 && i < |hex|
    ensures (i + 1) % 2 == 0 ==> DottedUpTo(hex, i + 1) == DottedUpTo(hex, i) + [hex[i]] + ":"
    ensures (i + 1) % 2 != 0 ==> DottedUpTo(hex, i + 1) == DottedUpTo(hex, i) + [hex[i]]
  {
    if i % 2 == 0 {
      assert (i + 1) / 2 == i / 2 && (i + 1) % 2 == 1;
    } else {
      var k := i / 2;
      assert i == 2 * k + 1 && (i + 1) / 2 == k + 1 && k < |hex| / 2;
      TrailStep(Pairs(hex), k);
      assert Pairs(hex)[k] == [hex[i - 1]] + [hex[i]];
    }
  }

  lemma TrailStep(toks: seq<string>, k: nat)
    requires k < |toks|
    ensures Trail(toks[..k + 1]) == Trail(toks[..k]) + toks[k] + ":"
  {
    assert toks[..k + 1] == toks[..k] + [toks[k]];
    if k > 0 {
      JoinGrows(toks[..k], toks[k], ':');
    }
  }

  method HexToVendorSpecIe(hex: string, dotFormatted: bool) returns (r: Formatted)
    ensures |hex| % 2 != 0 ==> r == FormatError(-1)
    ensures |hex| % 2 == 0 && |hex| > 498 ==> r == FormatError(-2)
    ensures |hex| % 2 == 0 && |hex| <= 498 ==>
              r == Formatted(if !dotFormatted then "dd" + Hex2(|hex| / 2 + 4) + "b16b00b5" + hex
                             else if hex == "" then "dd:04:b1:6b:00:b5:"
                             else Join(IeTokens(hex), ':'))
  {
    if |hex| % 2 != 0 {
      return FormatError(-1);
    }
    if |hex| > 249 * 2 {
      return FormatError(-2);
    }
    var lengthHex := Hex2(|hex| / 2 + 4);
    if dotFormatted {
      var dotted := Dotted(hex);
      DottedIe(hex);
      r := Formatted("dd:" + lengthHex + ":" + "b1:6b:00:b5:" + if dotted == "" then "" else dotted[..|dotted| - 1]);
    } else {
      r := Formatted("dd" + lengthHex + "b16b00b5" + hex);
    }
  }

  lemma DottedIe(hex: string)
    requires |hex| % 2 == 0 && |hex| <= 498
    ensures hex != "" ==> Join(IeTokens(hex), ':') == "dd:" + Hex2(|hex| / 2 + 4) + ":" + "b1:6b:00:b5:" + Join(Pairs(hex), ':')
    ensures hex == "" ==> Hex2(|hex| / 2 + 4) == "04"
  {
    if hex != "" {
      var l := Hex2(|hex| / 2 + 4);
      var head := ["dd", l, "b1", "6b", "00", "b5"];
      JoinAppend(head, Pairs(hex), ':');
      assert head[1..] == [l, "b1", "6b", "00", "b5"];
      assert head[1..][1..] == ["b1", "6b", "00", "b5"];
      assert ["b1", "6b", "00", "b5"][1..] == ["6b", "00", "b5"];
      assert ["6b", "00", "b5"][1..] == ["00", "b5"];
      assert ["00", "b5"][1..] == ["b5"];
      assert Join(["b1", "6b", "00", "b5"], ':') == "b1:6b:00:b5";
      assert Join(head, ':') == "dd:" + l + ":" + "b1:6b:00:b5";
    }
  }

  // ---------------------------------------------------------------- elements

  datatype RawElement = Element(id: Byte, body: seq<Byte>)

  type Element = e: RawElement | |e.body| <= 255 witness RawElement.Element(0, [])

  function EncodeElement(e: Element): (s: seq<Byte>)
  {
    [e.id, |e.body|] + e.body
  }

  function EncodeAll(es: seq<Element>): (s: seq<Byte>)
  {
    if es == [] then [] else EncodeElement(es[0]) + EncodeAll(es[1..])
  }

  function ResFiElement(payload: seq<Byte>): (e: Element)
    requires |payload| <= 249
  {
    Element(0xdd, PREFIX + payload)
  }

  /** A list of bytes as parse_hex delivers it. */
  function Plain(bs: seq<Byte>): (p: Pattern)
  {
    seq(|bs|, i requires 0 <= i < |bs| => Some(bs[i]))
  }

  lemma PairToken(s: string, i: nat)
    requires IsHexString(s) && i < |s| / 2
    ensures Reads(Pairs(s)[i], Unhex(s)[i])
  {
    var t := Pairs(s)[i];
    assert t[0] == s[2 * i] && t[1] == s[2 * i + 1];
    TwoDigits(t);
  }

  lemma HexTokens(toks: seq<string>, bs: seq<Byte>)
    requires |toks| == |bs| > 0
    requires forall i | 0 <= i < |toks| :: Reads(toks[i], bs[i])
    ensures ParseText(Join(toks, ':'), false) == Parsed(Plain(bs))
  {
    SplitJoin(toks, ':');
    NonEmptyTokensFit(Join(toks, ':'), false);
    ParsesAs(Join(toks, ':'), toks, false, Plain(bs));
  }

  lemma Hex2Token(b: Byte)
    ensures Reads(Hex2(b), b)
  {
    TwoDigits(Hex2(b));
  }

  lemma HeadTokens(l: Byte, i: nat)
    requires i < 6
    ensures Reads(["dd", Hex2(l), "b1", "6b", "00", "b5"][i], ([0xdd, l] + PREFIX)[i])
  {
    var b: Byte := ([0xdd, l] + PREFIX)[i];
    assert ["dd", Hex2(l), "b1", "6b", "00", "b5"][i] == Hex2(b);
    Hex2Token(b);
  }

  /** A token that reads as the byte without a mask. */
  predicate Reads(t: string, b: Byte)
  {
    |t| > 0 && Lacks(t, ':') && ReadToken(t, false) == Cell(Some(b))
  }

  lemma ElementByte(payload: seq<Byte>, i: nat)
    requires |payload| <= 249 && i < |payload| + 6
    ensures var s := EncodeElement(ResFiElement(payload));
            && |s| == |payload| + 6
            && s[i] == if i < 6 then ([0xdd, |payload| + 4] + PREFIX)[i] else payload[i - 6]
  {
  }

  lemma ElementToken(hex: string, i: nat)
    requires |hex| % 2 == 0 && |hex| <= 498 && i < |IeTokens(hex)|
    ensures |IeTokens(hex)| == |hex| / 2 + 6
    ensures IeTokens(hex)[i] == if i < 6 then ["dd", Hex2(|hex| / 2 + 4), "b1", "6b", "00", "b5"][i] else Pairs(hex)[i - 6]
  {
  }

  lemma ElementTokens(hex: string, i: nat)
    requires IsHexString(hex) && |hex| <= 498 && i < |IeTokens(hex)|
    ensures i < |EncodeElement(ResFiElement(Unhex(hex)))|
    ensures Reads(IeTokens(hex)[i], EncodeElement(ResFiElement(Unhex(hex)))[i])
  {
    ElementToken(hex, i);
    ElementByte(Unhex(hex), i);
    if i < 6 {
      HeadTokens(|hex| / 2 + 4, i);
    } else {
      PairToken(hex, i - 6);
    }
  }

  /** parse_hex of the dotted form of a non-empty payload is exactly the encoding of one vendor element. */
  lemma DottedIsOneElement(hex: string)
    requires IsHexString(hex) && 0 < |hex| <= 498
    ensures ParseText(Join(IeTokens(hex), ':'), false) == Parsed(Plain(EncodeElement(ResFiElement(Unhex(hex)))))
  {
    forall i | 0 <= i < |IeTokens(hex)|
      ensures i < |EncodeElement(ResFiElement(Unhex(hex)))|
      ensures Reads(IeTokens(hex)[i], EncodeElement(ResFiElement(Unhex(hex)))[i])
    {
      ElementTokens(hex, i);
    }
    HexTokens(IeTokens(hex), EncodeElement(ResFiElement(Unhex(hex))));
  }

  /** Two dotted elements joined by a colon, as the active scan passes them, are two elements. */
  lemma DottedPairIsTwoElements(hex: string, more: string)
    requires IsHexString(hex) && 0 < |hex| <= 498 && IsHexString(more) && 0 < |more| <= 498
    ensures ParseText(Join(IeTokens(hex), ':') + ":" + Join(IeTokens(more), ':'), false)
         == Parsed(Plain(EncodeAll([ResFiElement(Unhex(hex)), ResFiElement(Unhex(more))])))
  {
    var e, f := ResFiElement(Unhex(hex)), ResFiElement(Unhex(more));
    var toks := IeTokens(hex) + IeTokens(more);
    var bs := EncodeElement(e) + EncodeElement(f);
    JoinAppend(IeTokens(hex), IeTokens(more), ':');
    forall i | 0 <= i < |toks|
      ensures i < |bs| && Reads(toks[i], bs[i])
    {
      if i < |IeTokens(hex)| {
        ElementTokens(hex, i);
      } else {
        ElementTokens(more, i - |IeTokens(hex)|);
      }
    }
    HexTokens(toks, bs);
    assert EncodeAll([e, f]) == bs by {
      assert [e, f][1..] == [f] && [f][1..] == [];
      assert EncodeAll([f]) == EncodeElement(f) + [];
    }
  }

  /** Without payload the trailing colon reads as one more byte, which the length octet does not cover. */
  lemma EmptyPayloadIsNoElement(text: string, e: Element)
    requires text == "dd:04:b1:6b:00:b5:"
    ensures ParseText(text, false) != Parsed(Plain(EncodeElement(e)))
  {
    EmptyPayloadParses(text);
    var bs := EncodeElement(e);
    assert Plain(bs)[1] == Some(|bs| - 2);
  }

  lemma EmptyPayloadParses(text: string)
    requires text == "dd:04:b1:6b:00:b5:"
    ensures ParseText(text, false) == Parsed(Plain([0xdd, 4, 0xb1, 0x6b, 0x00, 0xb5, 0]))
  {
    var toks := ["dd", "04", "b1", "6b", "00", "b5", ""];
    var p := Plain([0xdd, 4, 0xb1, 0x6b, 0x00, 0xb5, 0]);
    forall i | 0 <= i < |toks| ensures Lacks(toks[i], ':') && ReadToken(toks[i], false) == Cell(p[i]) {
      EmptyToken(i);
    }
    SplitJoin(toks, ':');
    EmptyTokens();
    ParsesAs(text, toks, false, p);
  }

  lemma EmptyToken(i: nat)
    requires i < 7
    ensures var t := ["dd", "04", "b1", "6b", "00", "b5", ""][i];
            Lacks(t, ':') && ReadToken(t, false) == Cell(Some([0xdd, 4, 0xb1, 0x6b, 0x00, 0xb5, 0][i]))
  {
    if i < 6 {
      assert Hex2(4) == "04";
      HeadTokens(4, i);
    }
  }

  lemma EmptyTokens()
    ensures Join(["dd", "04", "b1", "6b", "00", "b5", ""], ':') == "dd:04:b1:6b:00:b5:"
  {
    assert ["dd", "04", "b1", "6b", "00", "b5", ""][1..] == ["04", "b1", "6b", "00", "b5", ""];
    assert ["04", "b1", "6b", "00", "b5", ""][1..] == ["b1", "6b", "00", "b5", ""];
    assert ["b1", "6b", "00", "b5", ""][1..] == ["6b", "00", "b5", ""];
    assert ["6b", "00", "b5", ""][1..] == ["00", "b5", ""];
    assert ["00", "b5", ""][1..] == ["b5", ""];
    assert ["b5", ""][1..] == [""];
    assert Join(["b1", "6b", "00", "b5", ""], ':') == "b1:6b:00:b5:";
  }
}
