/**
  What iw makes of a vendor element: which ones it looks up in its tables, when it is silent, and that the dump of
  all others says everything about them.
 */
module VendorDump {
  import opened Agent
  import opened Tokens
  import opened Numerals
  import opened HexMask
  import opened VendorElement
  import opened ScanDump

  /** At least four octets that begin with the OUI of Microsoft or of the WFA. */
  predicate InTables(body: seq<Byte>)
  {
    |body| >= 4 && ((body[0] == 0x00 && body[1] == 0x50 && body[2] == 0xf2)
                    || (body[0] == 0x50 && body[1] == 0x6f && body[2] == 0x9a))
  }

  lemma InTablesMeans(body: seq<Byte>)
    ensures InTables(body) <==> |body| >= 4 && (body[..3] == MS_OUI || body[..3] == WFA_OUI)
  {
    if |body| >= 4 {
      assert body[..3] == [body[0], body[1], body[2]];
    }
  }

  /** Exactly those are looked up: for all others the tables do not matter. */
  lemma LookedUpExactly(body: seq<Byte>, unknown: bool)
    ensures InTables(body) <==> exists s, t :: VendorText(body, unknown, s) != VendorText(body, unknown, t)
    ensures forall t: Tables | InTables(body) && t.vendor(body).Some? ::
              VendorText(body, unknown, t) == t.vendor(body).value
  {
    InTablesMeans(body);
    var s := Tables(e => None, b => Some("0"));
    var t := Tables(e => None, b => Some("1"));
    if InTables(body) {
      assert "0"[0] != "1"[0];
      assert VendorText(body, unknown, s) != VendorText(body, unknown, t);
    }
  }

  /** Without the option for unknown elements, an element without printer is not shown, unless it is too short. */
  lemma SilentExactly(body: seq<Byte>, tables: Tables)
    requires InTables(body) ==> tables.vendor(body).None?
    ensures VendorText(body, false, tables) == "" <==> |body| >= 3
  {
    InTablesMeans(body);
  }

  lemma DumpInjective(a: seq<Byte>, b: seq<Byte>)
    requires Dump(a) == Dump(b)
    ensures a == b
  {
    DumpShape(a);
    DumpShape(b);
    UnhexHexlify(a);
    UnhexHexlify(b);
  }

  lemma Cancel(p: string, x: string, y: string)
    requires p + x == p + y
    ensures x == y
  {
    assert (p + x)[|p|..] == x && (p + y)[|p|..] == y;
  }

  lemma CancelEnd(x: string, y: string, s: string)
    requires x + s == y + s
    ensures x == y
  {
    assert |x| == |y|;
    assert (x + s)[..|x|] == x && (y + s)[..|y|] == y;
  }

  // ---------------------------------------------------------------- a dump says everything

  lemma Hex2Injective(a: Byte, b: Byte)
    requires Hex2(a) == Hex2(b)
    ensures a == b
  {
    assert DigitChar(a / 16) == DigitChar(b / 16) && DigitChar(a % 16) == DigitChar(b % 16);
  }

  /** The data at the end of every form. */
  function Data(bs: seq<Byte>): (s: string)
  {
    ", data:" + (Dump(bs) + "\n")
  }

  lemma DataInjective(a: seq<Byte>, b: seq<Byte>)
    requires Data(a) == Data(b)
    ensures a == b
  {
    Cancel(", data:", Dump(a) + "\n", Dump(b) + "\n");
    CancelEnd(Dump(a), Dump(b), "\n");
    DumpInjective(a, b);
  }

  const SHORT: string := "\tVendor specific: <too short> data:"
  const OUI: string := "\tVendor specific: OUI "
  const MS: string := "\tMS/WiFi "
  const WFA: string := "\tWFA "

  function ShortForm(body: seq<Byte>): (s: string)
  {
    SHORT + (Dump(body) + "\n")
  }

  function TypedForm(head: string, body: seq<Byte>): (s: string)
    requires |body| >= 4
  {
    head + (AltHex2(body[3]) + Data(body[4..]))
  }

  function OuiForm(body: seq<Byte>): (s: string)
    requires |body| >= 3
  {
    OUI + (Hex2(body[0]) + ":" + Hex2(body[1]) + ":" + Hex2(body[2]) + Data(body[3..]))
  }

  lemma Regroup5(a: string, b: string, c: string, d: string, e: string)
    ensures a + b + c + d + e == a + (b + (c + (d + e)))
  {
  }

  lemma RegroupOui(h: string, x: string, y: string, z: string, t: string, d: string, e: string)
    ensures h + x + ":" + y + ":" + z + t + d + e == h + (x + ":" + y + ":" + z + (t + (d + e)))
  {
  }

  /** Which form a body without table entry is shown in, with the option for unknown elements. */
  function Form(body: seq<Byte>): (s: string)
  {
    if |body| < 3 then ShortForm(body)
    else if !InTables(body) then OuiForm(body)
    else if body[0] == 0 then TypedForm(MS, body)
    else TypedForm(WFA, body)
  }

  lemma ShownInForm(body: seq<Byte>, tables: Tables)
    requires InTables(body) ==> tables.vendor(body).None?
    ensures VendorText(body, true, tables) == Form(body)
  {
    InTablesMeans(body);
    if |body| < 3 {
      assert SHORT + Dump(body) + "\n" == SHORT + (Dump(body) + "\n");
    } else if !InTables(body) {
      RegroupOui(OUI, Hex2(body[0]), Hex2(body[1]), Hex2(body[2]), ", data:", Dump(body[3..]), "\n");
    } else if body[0] == 0 {
      assert body[..3][0] == 0;
      assert "\t" + "MS/WiFi" + " " == MS;
      Regroup5(MS, AltHex2(body[3]), ", data:", Dump(body[4..]), "\n");
    } else {
      assert body[..3][0] == body[0];
      assert "\t" + "WFA" + " " == WFA;
      Regroup5(WFA, AltHex2(body[3]), ", data:", Dump(body[4..]), "\n");
    }
  }

  /** The form of a text shows in its characters 1 and 18. */
  lemma FormShows(body: seq<Byte>)
    ensures |Form(body)| > 18 || (|Form(body)| > 1 && InTables(body))
    ensures InTables(body) && body[0] == 0 ==> Form(body)[1] == 'M'
    ensures InTables(body) && body[0] != 0 ==> Form(body)[1] == 'W'
    ensures !InTables(body) ==> Form(body)[1] == 'V' && Form(body)[18] == (if |body| < 3 then '<' else 'O')
  {
    assert SHORT[1] == 'V' && SHORT[18] == '<' && |SHORT| > 18;
    assert OUI[1] == 'V' && OUI[18] == 'O' && |OUI| > 18;
    assert MS[1] == 'M' && WFA[1] == 'W';
  }

  lemma TypedInjective(head: string, a: seq<Byte>, b: seq<Byte>)
    requires |a| >= 4 && |b| >= 4 && TypedForm(head, a) == TypedForm(head, b)
    ensures a[3..] == b[3..]
  {
    var x, y := AltHex2(a[3]) + Data(a[4..]), AltHex2(b[3]) + Data(b[4..]);
    Cancel(head, x, y);
    AltInjective(a[3], b[3], Data(a[4..]), Data(b[4..]));
    DataInjective(a[4..], b[4..]);
    assert a[3..] == [a[3]] + a[4..] && b[3..] == [b[3]] + b[4..];
  }

  lemma AltInjective(a: Byte, b: Byte, s: string, t: string)
    requires AltHex2(a) + s == AltHex2(b) + t
    ensures a == b && s == t
  {
    var x, y := AltHex2(a), AltHex2(b);
    assert (x + s)[1] == x[1] && (y + t)[1] == y[1];
    if a != 0 && b != 0 {
      assert (x + s)[..4] == x && (y + t)[..4] == y;
      assert x[2..] == Hex2(a) && y[2..] == Hex2(b);
      Hex2Injective(a, b);
    }
    Cancel(x, s, t);
  }

  lemma OuiInjective(a: seq<Byte>, b: seq<Byte>)
    requires |a| >= 3 && |b| >= 3 && OuiForm(a) == OuiForm(b)
    ensures a == b
  {
    var x := Hex2(a[0]) + ":" + Hex2(a[1]) + ":" + Hex2(a[2]);
    var y := Hex2(b[0]) + ":" + Hex2(b[1]) + ":" + Hex2(b[2]);
    Cancel(OUI, x + Data(a[3..]), y + Data(b[3..]));
    assert (x + Data(a[3..]))[..8] == x && (y + Data(b[3..]))[..8] == y;
    assert x[..2] == Hex2(a[0]) && x[3..5] == Hex2(a[1]) && x[6..] == Hex2(a[2]);
    assert y[..2] == Hex2(b[0]) && y[3..5] == Hex2(b[1]) && y[6..] == Hex2(b[2]);
    Hex2Injective(a[0], b[0]);
    Hex2Injective(a[1], b[1]);
    Hex2Injective(a[2], b[2]);
    Cancel(x, Data(a[3..]), Data(b[3..]));
    DataInjective(a[3..], b[3..]);
    assert a == [a[0], a[1], a[2]] + a[3..] && b == [b[0], b[1], b[2]] + b[3..];
  }

  lemma TableInjective(a: seq<Byte>, b: seq<Byte>)
    requires InTables(a) && InTables(b) && a[0] == b[0] && Form(a) == Form(b)
    ensures a == b
  {
    TypedInjective(if a[0] == 0 then MS else WFA, a, b);
    assert a == [a[0], a[1], a[2]] + a[3..] && b == [b[0], b[1], b[2]] + b[3..];
  }

  lemma ShortInjective(a: seq<Byte>, b: seq<Byte>)
    requires ShortForm(a) == ShortForm(b)
    ensures a == b
  {
    Cancel(SHORT, Dump(a) + "\n", Dump(b) + "\n");
    CancelEnd(Dump(a), Dump(b), "\n");
    DumpInjective(a, b);
  }

  lemma SameForm(a: seq<Byte>, b: seq<Byte>)
    requires Form(a) == Form(b)
    ensures InTables(a) == InTables(b) && (InTables(a) ==> a[0] == b[0]) && (|a| < 3 <==> |b| < 3)
  {
    FormShows(a);
    FormShows(b);
  }

  /** No two bodies without table entry are shown alike: the dump says everything about an element. */
  lemma DumpsDiffer(a: seq<Byte>, b: seq<Byte>, tables: Tables)
    requires (InTables(a) ==> tables.vendor(a).None?) && (InTables(b) ==> tables.vendor(b).None?)
    requires VendorText(a, true, tables) == VendorText(b, true, tables)
    ensures a == b
  {
    ShownInForm(a, tables);
    ShownInForm(b, tables);
    SameForm(a, b);
    if InTables(a) {
      TableInjective(a, b);
    } else if |a| >= 3 {
      OuiInjective(a, b);
    } else {
      ShortInjective(a, b);
    }
  }

  // ---------------------------------------------------------------- elements of other kinds

  function UnknownForm(e: Element): (s: string)
  {
    "\tUnknown IE (" + (Decimal(e.id) + ("):" + (Dump(e.body) + "\n")))
  }

  /** An element without printer other than a vendor element is shown by its number and its octets, or not at all. */
  lemma UnknownShown(e: Element, unknown: bool, tables: Tables)
    requires tables.plain(e).None? && e.id != 221
    ensures ElementText(e, unknown, tables) == if unknown then UnknownForm(e) else ""
  {
    Regroup5("\tUnknown IE (", Decimal(e.id), "):", Dump(e.body), "\n");
  }

  /** What is printed for two such elements differs. */
  lemma UnknownDiffer(a: Element, b: Element)
    requires UnknownForm(a) == UnknownForm(b)
    ensures a == b
  {
    var x, y := "):" + (Dump(a.body) + "\n"), "):" + (Dump(b.body) + "\n");
    Cancel("\tUnknown IE (", Decimal(a.id) + x, Decimal(b.id) + y);
    ReadDecimal(a.id);
    ReadDecimal(b.id);
    SameUpTo(Decimal(a.id), x, Decimal(b.id), y, ')');
    Cancel("):", Dump(a.body) + "\n", Dump(b.body) + "\n");
    CancelEnd(Dump(a.body), Dump(b.body), "\n");
    DumpInjective(a.body, b.body);
  }

  lemma SameUpTo(s: string, x: string, t: string, y: string, c: char)
    requires s + x == t + y && Lacks(s, c) && Lacks(t, c) && x != "" && y != "" && x[0] == c && y[0] == c
    ensures s == t && x == y
  {
    IndexOfIs(s + x, c, |s|);
    IndexOfIs(t + y, c, |t|);
    assert (s + x)[..|s|] == s && (t + y)[..|t|] == t;
    Cancel(s, x, y);
  }

  // ---------------------------------------------------------------- samples

  lemma MicrosoftSample(tables: Tables)
    requires forall b :: tables.vendor(b).None?
    ensures VendorText([0x00, 0x50, 0xf2, 0x00], true, tables) == "\tMS/WiFi 00, data:\n"
  {
    var body: seq<Byte> := [0x00, 0x50, 0xf2, 0x00];
    DumpNone(body[4..]);
    Twos();
    ShownInForm(body, tables);
  }

  lemma WfaSample(tables: Tables)
    requires forall b :: tables.vendor(b).None?
    ensures VendorText([0x50, 0x6f, 0x9a, 0x1c], true, tables) == "\tWFA 0x1c, data:\n"
  {
    var body: seq<Byte> := [0x50, 0x6f, 0x9a, 0x1c];
    DumpNone(body[4..]);
    Twos();
    ShownInForm(body, tables);
  }

  lemma ShortSample(tables: Tables)
    ensures VendorText([0x00], true, tables) == "\tVendor specific: <too short> data: 00\n"
  {
    DumpSingle(0);
    Twos();
  }

  lemma UnknownSample(tables: Tables)
    requires forall e :: tables.plain(e).None?
    ensures ElementText(Element(7, [0x01]), true, tables) == "\tUnknown IE (7): 01\n"
  {
    DumpSingle(1);
    Twos();
  }

  lemma DumpNone(bs: seq<Byte>)
    requires bs == []
    ensures Dump(bs) == ""
  {
  }

  lemma DumpSingle(b: Byte)
    ensures Dump([b]) == " " + Hex2(b)
  {
    DumpNone([b][..0]);
  }

  lemma Twos()
    ensures Hex2(0) == "00" && Hex2(1) == "01" && AltHex2(0) == "00" && AltHex2(0x1c) == "0x1c" && Decimal(7) == "7"
  {
  }
}
