/**
  The second half of the way of a ResFi element: iw walks the elements of a beacon and dumps vendor elements
  (iw-4.3/scan.c), framework/connectors.py picks the dumps out of the scan output, and framework/utils.py
  cuts them into key, IV, public key and IP address.
 */
module ScanDump {
  import opened Agent
  import opened Tokens
  import opened Numerals
  import opened HexMask
  import opened VendorElement

  // ---------------------------------------------------------------- printing elements

  /** What the printer tables make of an element and of a Microsoft or WFA vendor body; None: no printer. */
  datatype Tables = Tables(plain: Element -> Option<string>, vendor: seq<Byte> -> Option<string>)

  /** " %.2x" for every byte. */
  function Dump(bs: seq<Byte>): (s: string)
  {
    if bs == [] then "" else Dump(bs[..|bs| - 1]) + " " + Hex2(bs[|bs| - 1])
  }

  method DumpLoop(data: seq<Byte>, from: nat) returns (s: string)
    requires from <= |data|
    ensures s == Dump(data[from..])
  {
    s := "";
    for i := from to |data|
      invariant s == Dump(data[from..i])
    {
      assert data[from..i + 1][..i - from] == data[from..i];
      s := s + " " + Hex2(data[i]);
    }
    assert data[from..|data|] == data[from..];
  }

  /** "%#.2x": no prefix for zero. */
  function AltHex2(b: Byte): (s: string)
  {
    if b == 0 then "00" else "0x" + Hex2(b)
  }

  const MS_OUI: seq<Byte> := [0x00, 0x50, 0xf2]
  const WFA_OUI: seq<Byte> := [0x50, 0x6f, 0x9a]

  function TableOrDump(name: string, body: seq<Byte>, unknown: bool, tables: Tables): (s: string)
    requires |body| >= 4
  {
    if tables.vendor(body).Some? then tables.vendor(body).value
    else if !unknown then ""
    else "\t" + name + " " + AltHex2(body[3]) + ", data:" + Dump(body[4..]) + "\n"
  }

  function VendorText(body: seq<Byte>, unknown: bool, tables: Tables): (s: string)
  {
    if |body| < 3 then "\tVendor specific: <too short> data:" + Dump(body) + "\n"
    else if |body| >= 4 && body[..3] == MS_OUI then TableOrDump("MS/WiFi", body, unknown, tables)
    else if |body| >= 4 && body[..3] == WFA_OUI then TableOrDump("WFA", body, unknown, tables)
    else if !unknown then ""
    else "\tVendor specific: OUI " + Hex2(body[0]) + ":" + Hex2(body[1]) + ":" + Hex2(body[2]) + ", data:"
         + Dump(body[3..]) + "\n"
  }

  method PrintVendor(body: seq<Byte>, unknown: bool, tables: Tables) returns (out: string)
    ensures out == VendorText(body, unknown, tables)
  {
    if |body| < 3 {
      var d := DumpLoop(body, 0);
      return "\tVendor specific: <too short> data:" + d + "\n";
    }
    if |body| >= 4 && (body[..3] == MS_OUI || body[..3] == WFA_OUI) {
      if tables.vendor(body).Some? {
        return tables.vendor(body).value;
      }
      if !unknown {
        return "";
      }
      var d := DumpLoop(body, 4);
      return "\t" + (if body[..3] == MS_OUI then "MS/WiFi" else "WFA") + " " + AltHex2(body[3]) + ", data:" + d + "\n";
    }
    if !unknown {
      return "";
    }
    var d := DumpLoop(body, 3);
    out := "\tVendor specific: OUI " + Hex2(body[0]) + ":" + Hex2(body[1]) + ":" + Hex2(body[2]) + ", data:" + d + "\n";
  }

  function ElementText(e: Element, unknown: bool, tables: Tables): (s: string)
  {
    if tables.plain(e).Some? then tables.plain(e).value
    else if e.id == 221 then VendorText(e.body, unknown, tables)
    else if unknown then "\tUnknown IE (" + Decimal(e.id) + "):" + Dump(e.body) + "\n"
    else ""
  }

  function AllTexts(es: seq<Element>, unknown: bool, tables: Tables): (s: string)
  {
    if es == [] then "" else AllTexts(es[..|es| - 1], unknown, tables) + ElementText(es[|es| - 1], unknown, tables)
  }

  lemma LastOfBoth(es: seq<Element>, fs: seq<Element>)
    requires fs != []
    ensures (es + fs)[..|es + fs| - 1] == es + fs[..|fs| - 1] && (es + fs)[|es + fs| - 1] == fs[|fs| - 1]
  {
  }

  /** The texts of two lists of elements follow each other. */
  lemma {:induction false} TextsAppend(es: seq<Element>, fs: seq<Element>, unknown: bool, tables: Tables)
    ensures AllTexts(es + fs, unknown, tables) == AllTexts(es, unknown, tables) + AllTexts(fs, unknown, tables)
  {
    if fs == [] {
      assert es + fs == es;
    } else {
      var n := |fs| - 1;
      LastOfBoth(es, fs);
      TextsAppend(es, fs[..n], unknown, tables);
      TextAssoc(AllTexts(es, unknown, tables), AllTexts(fs[..n], unknown, tables), ElementText(fs[n], unknown, tables));
    }
  }

  lemma TextAssoc(a: string, b: string, c: string)
    ensures (a + b) + c == a + (b + c)
  {
  }

  /** One element has its own text. */
  lemma OneText(e: Element, unknown: bool, tables: Tables)
    ensures AllTexts([e], unknown, tables) == ElementText(e, unknown, tables)
  {
    assert [e][..0] == [];
    assert AllTexts([], unknown, tables) == "";
  }

  method PrintElement(e: Element, unknown: bool, tables: Tables) returns (out: string)
    ensures out == ElementText(e, unknown, tables)
  {
    if tables.plain(e).Some? {
      return tables.plain(e).value;
    }
    if e.id == 221 {
      out := PrintVendor(e.body, unknown, tables);
    } else if unknown {
      var d := DumpLoop(e.body, 0);
      out := "\tUnknown IE (" + Decimal(e.id) + "):" + d + "\n";
    } else {
      out := "";
    }
  }

  lemma NextElement(es: seq<Element>, rest: seq<Byte>)
    requires rest == EncodeAll(es)
    ensures es != [] ==>
              && var l: int := |es[0].body|;
              && |rest| >= 2 + l && rest[0] == es[0].id && rest[1] == l
              && rest[2..2 + l] == es[0].body && rest[2 + l..] == EncodeAll(es[1..])
    ensures es == [] ==> rest == []
  {
  }

  lemma NextElementAt(stream: seq<Byte>, ie: nat, es: seq<Element>, count: nat)
    requires ie < |stream| && count <= |es| && stream[ie..] == EncodeAll(es[count..])
    ensures count < |es|
    ensures var l: int := |es[count].body|;
            && ie + 2 + l <= |stream| && stream[ie + 1] == l
            && Element(stream[ie], stream[ie + 2..ie + 2 + l]) == es[count]
            && stream[ie + 2 + l..] == EncodeAll(es[count + 1..])
    ensures es[..count + 1][..count] == es[..count]
  {
    var rest := stream[ie..];
    NextElement(es[count..], rest);
    var l: int := |es[count].body|;
    assert rest[2..2 + l] == stream[ie + 2..ie + 2 + l] && rest[2 + l..] == stream[ie + 2 + l..];
    assert es[count..][1..] == es[count + 1..];
  }

  /** One turn of the loop: the element at the cursor is printed. */
  method PrintNext(stream: seq<Byte>, ie: nat, unknown: bool, tables: Tables, before: string,
                   ghost es: seq<Element>, ghost count: nat)
    returns (out: string, l: int)
    requires ie + 1 < |stream| && count <= |es| && stream[ie..] == EncodeAll(es[count..])
    requires before == AllTexts(es[..count], unknown, tables)
    ensures l == stream[ie + 1] && count < |es| && ie + 2 + l <= |stream|
    ensures stream[ie + 2 + l..] == EncodeAll(es[count + 1..]) && out == AllTexts(es[..count + 1], unknown, tables)
  {
    NextElementAt(stream, ie, es, count);
    l := stream[ie + 1];
    var text := PrintElement(Element(stream[ie], stream[ie + 2..ie + 2 + l]), unknown, tables);
    out := before + text;
  }

  /** print_ies on a stream of well-formed elements: each is printed once, in order, and nothing is left. */
  method PrintIes(stream: seq<Byte>, unknown: bool, tables: Tables, ghost es: seq<Element>)
    returns (out: string, ielen: int, count: nat)
    requires stream == EncodeAll(es)
    ensures ielen == 0 && count == |es| && out == AllTexts(es, unknown, tables)
  {
    var ie := 0;
    ielen, out, count := |stream|, "", 0;
    assert es[0..] == es && stream[0..] == stream;
    while ielen >= 2 && ielen >= stream[ie + 1]
      invariant 0 <= ie <= |stream| && ielen == |stream| - ie && count <= |es|
      invariant stream[ie..] == EncodeAll(es[count..])
      invariant out == AllTexts(es[..count], unknown, tables)
      decreases ielen
    {
      var l;
      out, l := PrintNext(stream, ie, unknown, tables, out, es, count);
      ielen := ielen - (l + 2);
      ie := ie + l + 2;
      count := count + 1;
    }
    NextElement(es[count..], stream[ie..]);
    assert es[..|es|] == es;
  }

  // ---------------------------------------------------------------- string operations of the connector

  function StartsWith(s: string, p: string): (b: bool)
  {
    |p| <= |s| && s[..|p|] == p
  }

  /** p in s */
  function Contains(s: string, p: string): (b: bool)
  {
    StartsWith(s, p) || (s != "" && Contains(s[1..], p))
  }

  /** s.replace(p, "") */
  function RemoveAll(s: string, p: string): (r: string)
    requires p != ""
  {
    if s == "" then ""
    else if StartsWith(s, p) then RemoveAll(s[|p|..], p)
    else [s[0]] + RemoveAll(s[1..], p)
  }

  lemma {:induction false} RemoveChar(s: string, t: string, c: char)
    ensures RemoveAll(s + t, [c]) == RemoveAll(s, [c]) + RemoveAll(t, [c])
  {
    if s == "" {
      assert s + t == t;
    } else {
      assert (s + t)[1..] == s[1..] + t && (s + t)[..1] == s[..1];
      RemoveChar(s[1..], t, c);
    }
  }

  lemma {:induction false} RemoveNothing(s: string, p: string)
    requires p != "" && Lacks(s, p[0])
    ensures RemoveAll(s, p) == s
  {
    if s != "" {
      assert !StartsWith(s, p);
      RemoveNothing(s[1..], p);
    }
  }

  /** A character of p that s lacks keeps p out of s. */
  lemma {:induction false} NotContained(s: string, p: string, k: nat)
    requires k < |p| && Lacks(s, p[k])
    ensures !Contains(s, p)
  {
    if |p| <= |s| {
      assert s[..|p|][k] == s[k];
    }
    if s != "" {
      NotContained(s[1..], p, k);
    }
  }

  // ---------------------------------------------------------------- parse_resfi_ie

  /** data[start:stop] with a stop that may be negative. */
  function Slice(data: string, start: nat, stop: int): (r: string)
  {
    var to := if stop < 0 then |data| + stop else stop;
    var hi := if to < 0 then 0 else if to > |data| then |data| else to;
    if start >= hi then "" else data[start..hi]
  }

  datatype ResfiIe = Unusable | Raised | Fields(key: seq<Byte>, iv: seq<Byte>, pub: seq<Byte>, ip: seq<Byte>)

  /** parse_resfi_ie; imports says which octets are read as a public key, all others raise. */
  function ParseResfiIe(data: string, k: nat, v: nat, p: nat, imports: seq<Byte> -> bool): (r: ResfiIe)
  {
    var key := Slice(data, 0, -(|data| - k));
    var iv := Slice(data, k, -(|data| - k - v));
    var pub := Slice(data, k + v, -(|data| - k - v - p));
    var ip := Slice(data, k + v + p, |data|);
    if |key| % 2 != 0 || |iv| % 2 != 0 then Unusable
    else if !(IsHexString(key) && IsHexString(iv) && IsHexString(pub) && IsHexString(ip)) then Raised
    else if !imports(Unhex(pub)) then Raised
    else Fields(Unhex(key), Unhex(iv), Unhex(pub), Unhex(ip))
  }

  lemma SliceMiddle(a: string, b: string, c: string)
    requires c != ""
    ensures Slice(a + b + c, |a|, -|c|) == b
  {
    assert (a + b + c)[|a|..|a| + |b|] == b;
  }

  lemma SliceToZero(data: string, start: nat)
    ensures Slice(data, start, 0) == ""
  {
  }

  /** The middle of three parts, by the lengths of all. */
  lemma MiddleField(data: string, a: string, b: string, c: string)
    requires data == a + b + c && c != ""
    ensures Slice(data, |a|, -(|data| - |a| - |b|)) == b
  {
    SliceMiddle(a, b, c);
  }

  lemma Assoc4(a: string, b: string, c: string, d: string)
    ensures a + b + c + d == "" + a + (b + c + d) && a + b + c + d == a + b + (c + d)
    ensures a + b + c + d == (a + b) + c + d
  {
  }

  lemma FieldSlices(key: string, iv: string, pub: string, ip: string)
    requires ip != ""
    ensures var data := key + iv + pub + ip;
            var k, v, p := |key|, |iv|, |pub|;
            && Slice(data, 0, -(|data| - k)) == key
            && Slice(data, k, -(|data| - k - v)) == iv
            && Slice(data, k + v, -(|data| - k - v - p)) == pub
            && Slice(data, k + v + p, |data|) == ip
  {
    var data := key + iv + pub + ip;
    Assoc4(key, iv, pub, ip);
    MiddleField(data, "", key, iv + pub + ip);
    MiddleField(data, key, iv, pub + ip);
    MiddleField(data, key + iv, pub, ip);
    LastField(key + iv + pub, ip);
  }

  lemma LastField(a: string, b: string)
    requires b != ""
    ensures Slice(a + b, |a|, |a + b|) == b
  {
  }

  lemma ParseFields(key: string, iv: string, pub: string, ip: string, imports: seq<Byte> -> bool)
    requires IsHexString(key) && IsHexString(iv) && IsHexString(pub) && IsHexString(ip) && ip != "" && imports(Unhex(pub))
    ensures ParseResfiIe(key + iv + pub + ip, |key|, |iv|, |pub|, imports)
         == Fields(Unhex(key), Unhex(iv), Unhex(pub), Unhex(ip))
  {
    FieldSlices(key, iv, pub, ip);
  }

  lemma FieldsCome(key: seq<Byte>, iv: seq<Byte>, pub: seq<Byte>, ip: seq<Byte>, imports: seq<Byte> -> bool)
    requires ip != [] && imports(pub)
    ensures ParseResfiIe(Hexlify(key + iv + pub + ip), 2 * |key|, 2 * |iv|, 2 * |pub|, imports) == Fields(key, iv, pub, ip)
  {
    HexlifyAppend(key + iv + pub, ip);
    HexlifyAppend(key + iv, pub);
    HexlifyAppend(key, iv);
    UnhexHexlify(key);
    UnhexHexlify(iv);
    UnhexHexlify(pub);
    UnhexHexlify(ip);
    ParseFields(Hexlify(key), Hexlify(iv), Hexlify(pub), Hexlify(ip), imports);
  }

  lemma ShortSlices(key: string, iv: string, pub: string)
    requires pub != ""
    ensures var data := key + iv + pub;
            && Slice(data, 0, -(|data| - |key|)) == key
            && Slice(data, |key|, -(|data| - |key| - |iv|)) == iv
            && Slice(data, |key| + |iv|, -(|data| - |key| - |iv| - |pub|)) == ""
            && Slice(data, |key| + |iv| + |pub|, |data|) == ""
  {
    var data := key + iv + pub;
    assert data == "" + key + (iv + pub);
    MiddleField(data, "", key, iv + pub);
    MiddleField(data, key, iv, pub);
    SliceToZero(data, |key| + |iv|);
  }

  lemma ParseShort(key: string, iv: string, pub: string, imports: seq<Byte> -> bool)
    requires IsHexString(key) && IsHexString(iv) && pub != ""
    ensures ParseResfiIe(key + iv + pub, |key|, |iv|, |pub|, imports)
         == if imports([]) then Fields(Unhex(key), Unhex(iv), [], []) else Raised
  {
    ShortSlices(key, iv, pub);
    assert Unhex("") == [];
  }

  /**
    Without IP field the public key is cut to nothing, since a slice that ends at -0 is empty: the other fields
    come, if an empty public key is read at all.
   */
  lemma EmptyIpLosesPublicKey(key: seq<Byte>, iv: seq<Byte>, pub: seq<Byte>, imports: seq<Byte> -> bool)
    requires pub != []
    ensures ParseResfiIe(Hexlify(key + iv + pub), 2 * |key|, 2 * |iv|, 2 * |pub|, imports)
         == if imports([]) then Fields(key, iv, [], []) else Raised
  {
    HexlifyAppend(key + iv, pub);
    HexlifyAppend(key, iv);
    UnhexHexlify(key);
    UnhexHexlify(iv);
    ParseShort(Hexlify(key), Hexlify(iv), Hexlify(pub), imports);
  }

  /** For a public key that is one, the four fields come back if and only if the IP field is not empty. */
  lemma FieldsRoundTrip(key: seq<Byte>, iv: seq<Byte>, pub: seq<Byte>, ip: seq<Byte>, imports: seq<Byte> -> bool)
    requires pub != [] && imports(pub)
    ensures ParseResfiIe(Hexlify(key + iv + pub + ip), 2 * |key|, 2 * |iv|, 2 * |pub|, imports) == Fields(key, iv, pub, ip)
       <==> ip != []
  {
    if ip != [] {
      FieldsCome(key, iv, pub, ip, imports);
    } else {
      assert key + iv + pub + ip == key + iv + pub;
      EmptyIpLosesPublicKey(key, iv, pub, imports);
    }
  }

  // ---------------------------------------------------------------- the dump of a ResFi element

  const MARK_HEAD: string := "Vendor specific: OUI " + "b1:6b:00" + ", data: b5"

  const MARK: string := MARK_HEAD + " "

  /** The line that iw prints for a ResFi element. */
  function ResfiLine(payload: seq<Byte>): (s: string)
  {
    "\t" + MARK_HEAD + Dump(payload)
  }

  lemma LastByte(xs: seq<Byte>, ys: seq<Byte>)
    requires ys != []
    ensures (xs + ys)[..|xs + ys| - 1] == xs + ys[..|ys| - 1] && (xs + ys)[|xs + ys| - 1] == ys[|ys| - 1]
  {
  }

  lemma {:induction false} DumpAppend(xs: seq<Byte>, ys: seq<Byte>)
    ensures Dump(xs + ys) == Dump(xs) + Dump(ys)
  {
    if ys == [] {
      assert xs + ys == xs;
    } else {
      var k := |ys| - 1;
      LastByte(xs, ys);
      DumpAppend(xs, ys[..k]);
      AssocTail(Dump(xs), Dump(ys[..k]), " ", Hex2(ys[k]));
    }
  }

  lemma AssocTail(a: string, b: string, c: string, d: string)
    ensures (a + b) + c + d == a + (b + c + d)
  {
  }

  lemma ResfiElementPrintsAsLine(payload: seq<Byte>, tables: Tables)
    requires |payload| <= 249 && tables.plain(ResFiElement(payload)).None?
    ensures ElementText(ResFiElement(payload), true, tables) == ResfiLine(payload) + "\n"
  {
    var body := PREFIX + payload;
    assert body[3..] == [0xb5] + payload && body[0] == 0xb1 && body[1] == 0x6b && body[2] == 0;
    assert body[..3] != MS_OUI && body[..3] != WFA_OUI by {
      assert body[..3][0] == 0xb1;
    }
    DumpAppend([0xb5], payload);
    DumpOfMark();
    HeadOfLine(Dump(payload));
  }

  lemma DumpOfMark()
    ensures Dump([0xb5]) == " b5"
  {
    assert Dump([]) == "" && Hex2(0xb5) == "b5";
  }

  lemma HeadOfLine(d: string)
    ensures "\tVendor specific: OUI " + Hex2(0xb1) + ":" + Hex2(0x6b) + ":" + Hex2(0) + ", data:" + (" b5" + d)
         == "\t" + MARK_HEAD + d
  {
    OuiText();
    Regroup("\tVendor specific: OUI ", Hex2(0xb1), Hex2(0x6b), Hex2(0), ", data:", " b5", d);
    assert ", data:" + " b5" == ", data: b5";
    assert "\tVendor specific: OUI " == "\t" + "Vendor specific: OUI ";
  }

  lemma OuiText()
    ensures Hex2(0xb1) + ":" + Hex2(0x6b) + ":" + Hex2(0) == "b1:6b:00"
  {
  }

  lemma Regroup(h: string, x: string, y: string, z: string, t: string, m: string, d: string)
    ensures h + x + ":" + y + ":" + z + t + (m + d) == h + (x + ":" + y + ":" + z) + (t + m) + d
  {
  }

  lemma {:induction false} DumpShape(bs: seq<Byte>)
    ensures |Dump(bs)| == 3 * |bs|
    ensures bs != [] ==> Dump(bs)[0] == ' '
    ensures forall i | 0 <= i < |Dump(bs)| :: Dump(bs)[i] == ' ' || DigitValue(Dump(bs)[i]).Some?
    ensures RemoveAll(Dump(bs), " ") == Hexlify(bs)
  {
    if bs != [] {
      var k := |bs| - 1;
      DumpShape(bs[..k]);
      RemoveChar(Dump(bs[..k]), " " + Hex2(bs[k]), ' ');
      DumpOne(bs[k]);
      HexlifyAppend(bs[..k], [bs[k]]);
      assert bs == bs[..k] + [bs[k]];
      assert Dump(bs) == Dump(bs[..k]) + (" " + Hex2(bs[k]));
    }
  }

  lemma DumpOne(b: Byte)
    ensures RemoveAll(" " + Hex2(b), " ") == Hexlify([b])
  {
    assert (" " + Hex2(b))[1..] == Hex2(b);
    RemoveNothing(Hex2(b), " ");
    assert Hexlify([b]) == Hex2(b);
  }

  /** data after the connector's replacements. */
  function Stripped(data: string): (s: string)
  {
    RemoveAll(RemoveAll(RemoveAll(data, " "), "\n"), "\t")
  }

  /** The connector recognises the line and is left with the dump. */
  lemma LineIsRecognised(payload: seq<Byte>)
    requires payload != []
    ensures Contains(ResfiLine(payload), MARK)
    ensures RemoveAll(ResfiLine(payload), MARK) == "\t" + Dump(payload)[1..]
  {
    DumpShape(payload);
    var rest := Dump(payload)[1..];
    SpaceMoves(MARK_HEAD, Dump(payload));
    MarkRemoved('\t', MARK, rest);
  }

  lemma SpaceMoves(head: string, d: string)
    requires d != "" && d[0] == ' '
    ensures "\t" + head + d == ['\t'] + ((head + " ") + d[1..])
  {
    assert d == " " + d[1..];
  }

  lemma MarkRemoved(c: char, mark: string, rest: string)
    requires mark != "" && mark[0] != c && Lacks(rest, mark[0])
    ensures Contains([c] + (mark + rest), mark) && RemoveAll([c] + (mark + rest), mark) == [c] + rest
  {
    var line := [c] + (mark + rest);
    assert line[1..] == mark + rest && line[..|mark|][0] == c;
    assert (mark + rest)[..|mark|] == mark && (mark + rest)[|mark|..] == rest;
    RemoveNothing(rest, mark);
  }

  lemma StripDump(payload: seq<Byte>)
    requires payload != []
    ensures |"\t" + Dump(payload)[1..]| == 3 * |payload|
    ensures Stripped("\t" + Dump(payload)[1..]) == Hexlify(payload)
  {
    DumpShape(payload);
    var d := Dump(payload);
    assert d == " " + d[1..];
    RemoveChar(" ", d[1..], ' ');
    RemoveOnly(' ');
    HexDigitsOnly(payload);
    TabRemoved(d[1..], Hexlify(payload));
  }

  lemma RemoveOnly(c: char)
    ensures RemoveAll([c], [c]) == ""
  {
    assert [c][1..] == "";
  }

  lemma TabRemoved(d: string, h: string)
    requires RemoveAll(d, " ") == h && Lacks(h, '\n') && Lacks(h, '\t')
    ensures Stripped("\t" + d) == h
  {
    RemoveChar("\t", d, ' ');
    RemoveNothing("\t", " ");
    assert RemoveAll("\t" + d, " ") == "\t" + h;
    RemoveNothing("\t" + h, "\n");
    RemoveChar("\t", h, '\t');
    RemoveOnly('\t');
    RemoveNothing(h, "\t");
  }

  lemma HexDigitsOnly(bs: seq<Byte>)
    ensures Lacks(Hexlify(bs), '\n') && Lacks(Hexlify(bs), '\t')
  {
    UnhexHexlify(bs);
  }

  /**
    The whole way back: the line printed for a ResFi element is recognised, is long enough to be used if and
    only if the payload has at least four bytes, and yields the key, IV, public key and IP address it was
    built from.
   */
  lemma DumpRestoresFields(key: seq<Byte>, iv: seq<Byte>, pub: seq<Byte>, ip: seq<Byte>, tables: Tables,
                           imports: seq<Byte> -> bool)
    requires ip != [] && imports(pub) && |key + iv + pub + ip| <= 249
    requires tables.plain(ResFiElement(key + iv + pub + ip)).None?
    ensures var payload := key + iv + pub + ip;
            var line := ResfiLine(payload);
            var data := RemoveAll(line, MARK);
            && ElementText(ResFiElement(payload), true, tables) == line + "\n"
            && Contains(line, MARK)
            && (|data| > 10 <==> |payload| >= 4)
            && ParseResfiIe(Stripped(data), 2 * |key|, 2 * |iv|, 2 * |pub|, imports) == Fields(key, iv, pub, ip)
  {
    var payload := key + iv + pub + ip;
    assert payload[|payload| - 1] == ip[|ip| - 1];
    ResfiElementPrintsAsLine(payload, tables);
    LineIsRecognised(payload);
    StripDump(payload);
    FieldsCome(key, iv, pub, ip, imports);
  }
}
