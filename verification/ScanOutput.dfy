/**
  performActiveScan of framework/connectors.py from the output of the scan to the list of neighbours.
 */
module ScanOutput {
  import opened Agent
  import opened Tokens
  import opened Numerals
  import opened HexMask
  import opened VendorElement
  import opened ScanDump

  const FREQ: string := "freq: "
  const SIGNAL: string := "signal: "
  const SSID: string := "SSID: "

  datatype Entry = Entry(freq: string, ssid: string, rssi: string, data: string)

  /** The variables of the first loop.  rssi has no value before the first signal line. */
  datatype ScanState = ScanState(freq: string, ssid: string, rssi: Option<string>, entries: seq<Entry>, raised: bool)

  function FreqText(line: string): (s: string)
  {
    RemoveAll(RemoveAll(RemoveAll(line, FREQ), " "), "\n")
  }

  function RssiText(line: string): (s: string)
  {
    RemoveAll(RemoveAll(RemoveAll(line, SIGNAL), ".00 dBm"), "\n")
  }

  function SsidText(line: string): (s: string)
  {
    RemoveAll(RemoveAll(RemoveAll(line, SSID), "\t"), "\n")
  }

  function ReadLine(s: ScanState, line: string): (r: ScanState)
  {
    if s.raised then s
    else
      var freq := if Contains(line, FREQ) then FreqText(line) else s.freq;
      var rssi := if Contains(line, SIGNAL) then Some(RssiText(line)) else s.rssi;
      var ssid := if Contains(line, SSID) then SsidText(line) else s.ssid;
      if !Contains(line, MARK) then ScanState(freq, ssid, rssi, s.entries, false)
      else if rssi.None? then ScanState(freq, ssid, rssi, s.entries, true)
      else ScanState(freq, ssid, rssi, s.entries + [Entry(freq, ssid, rssi.value, RemoveAll(line, MARK))], false)
  }

  function ReadLines(s: ScanState, lines: seq<string>): (r: ScanState)
  {
    if lines == [] then s else ReadLine(ReadLines(s, lines[..|lines| - 1]), lines[|lines| - 1])
  }

  method CollectEntries(lines: seq<string>, freq0: string, ssid0: string) returns (raised: bool, dataArray: seq<Entry>)
    ensures var s := ReadLines(ScanState(freq0, ssid0, None, [], false), lines);
            raised == s.raised && dataArray == s.entries
  {
    var freq, ssid, rssi: Option<string> := freq0, ssid0, None;
    dataArray := [];
    ghost var start := ScanState(freq0, ssid0, None, [], false);
    for i := 0 to |lines|
      invariant ReadLines(start, lines[..i]) == ScanState(freq, ssid, rssi, dataArray, false)
    {
      var line := lines[i];
      assert lines[..i + 1][..i] == lines[..i];
      if Contains(line, FREQ) {
        freq := FreqText(line);
      }
      if Contains(line, SIGNAL) {
        rssi := Some(RssiText(line));
      }
      if Contains(line, SSID) {
        ssid := SsidText(line);
      }
      if Contains(line, MARK) {
        if rssi.None? {
          RaisedStays(start, lines, i + 1);
          return true, dataArray;
        }
        dataArray := dataArray + [Entry(freq, ssid, rssi.value, RemoveAll(line, MARK))];
      }
    }
    assert lines[..|lines|] == lines;
    raised := false;
  }

  lemma {:induction false} RaisedStays(s: ScanState, lines: seq<string>, k: nat)
    requires k <= |lines| && ReadLines(s, lines[..k]).raised
    ensures ReadLines(s, lines) == ReadLines(s, lines[..k])
  {
    if k == |lines| {
      assert lines[..k] == lines;
    } else {
      assert lines[..|lines| - 1][..k] == lines[..k];
      RaisedStays(s, lines[..|lines| - 1], k);
    }
  }

  // ---------------------------------------------------------------- the list of neighbours

  datatype Info = Info(key: seq<Byte>, iv: seq<Byte>, pub: seq<Byte>, freq: int, ssid: string, rssi: int)

  datatype Found = Failed | Found(neighbors: map<seq<Byte>, Info>)

  /** The lengths of the scanner's own key, IV and public key strings, and what it accepts as a public key. */
  datatype Scanner = Scanner(k: nat, v: nat, p: nat, imports: seq<Byte> -> bool)

  /** The address text that parse_resfi_ie sets on an unusable element, which an access point can advertise too. */
  const ERROR: seq<Byte> := [0x45, 0x72, 0x72, 0x6f, 0x72]

  lemma ErrorIsText()
    ensures |ERROR| == |"Error"| && forall i | 0 <= i < |ERROR| :: ERROR[i] == "Error"[i] as int
  {
  }

  function AddEntry(f: Found, e: Entry, own: Scanner): (r: Found)
  {
    if f.Failed? || |e.data| <= 10 then f
    else
      var rssi, freq := ReadInt(e.rssi), ReadInt(e.freq);
      if rssi.NotANumber? || freq.NotANumber? then Failed
      else
        match ParseResfiIe(Stripped(e.data), own.k, own.v, own.p, own.imports)
        case Raised => Failed
        case Unusable => f
        case Fields(key, iv, pub, ip) =>
          if ip == ERROR then f
          else Found(f.neighbors[ip := Info(key, iv, pub, freq.value, e.ssid, rssi.value)])
  }

  function AddEntries(f: Found, es: seq<Entry>, own: Scanner): (r: Found)
  {
    if es == [] then f else AddEntry(AddEntries(f, es[..|es| - 1], own), es[|es| - 1], own)
  }

  method BuildNeighborList(dataArray: seq<Entry>, own: Scanner) returns (r: Found)
    ensures r == AddEntries(Found(map[]), dataArray, own)
  {
    r := Found(map[]);
    for i := 0 to |dataArray|
      invariant r == AddEntries(Found(map[]), dataArray[..i], own)
    {
      assert dataArray[..i + 1][..i] == dataArray[..i];
      if r.Found? {
        r := UseEntry(r.neighbors, dataArray[i], own);
      }
    }
    assert dataArray[..|dataArray|] == dataArray;
  }

  method UseEntry(neighbors: map<seq<Byte>, Info>, e: Entry, own: Scanner) returns (r: Found)
    ensures r == AddEntry(Found(neighbors), e, own)
  {
    if |e.data| <= 10 {
      return Found(neighbors);
    }
    var rssi, freq := ReadInt(e.rssi), ReadInt(e.freq);
    if rssi.NotANumber? || freq.NotANumber? {
      return Failed;
    }
    match ParseResfiIe(Stripped(e.data), own.k, own.v, own.p, own.imports) {
      case Raised => r := Failed;
      case Unusable => r := Found(neighbors);
      case Fields(key, iv, pub, ip) =>
        r := Found(neighbors);
        if ip != ERROR {
          r := Found(neighbors[ip := Info(key, iv, pub, freq.value, e.ssid, rssi.value)]);
        }
    }
  }

  // ---------------------------------------------------------------- a scan of several access points

  /** The part of the output that belongs to one access point with a ResFi element. */
  datatype Bss = Bss(quiet0: seq<string>, freqLine: string, quiet1: seq<string>, signalLine: string,
                     quiet2: seq<string>, ssidLine: string, quiet3: seq<string>,
                     key: seq<Byte>, iv: seq<Byte>, pub: seq<Byte>, ip: seq<Byte>)

  function Payload(b: Bss): (s: seq<Byte>)
  {
    b.key + b.iv + b.pub + b.ip
  }

  function Lines(b: Bss): (s: seq<string>)
  {
    b.quiet0 + [b.freqLine] + b.quiet1 + [b.signalLine] + b.quiet2 + [b.ssidLine] + b.quiet3 + [ResfiLine(Payload(b))]
  }

  function AllLines(bs: seq<Bss>): (s: seq<string>)
  {
    if bs == [] then [] else AllLines(bs[..|bs| - 1]) + Lines(bs[|bs| - 1])
  }

  predicate Quiet(line: string)
  {
    !Contains(line, FREQ) && !Contains(line, SIGNAL) && !Contains(line, SSID) && !Contains(line, MARK)
  }

  predicate FreqOnly(line: string)
  {
    Contains(line, FREQ) && !Contains(line, SIGNAL) && !Contains(line, SSID) && !Contains(line, MARK)
  }

  predicate SignalOnly(line: string)
  {
    !Contains(line, FREQ) && Contains(line, SIGNAL) && !Contains(line, SSID) && !Contains(line, MARK)
  }

  predicate SsidOnly(line: string)
  {
    !Contains(line, FREQ) && !Contains(line, SIGNAL) && Contains(line, SSID) && !Contains(line, MARK)
  }

  predicate AllQuiet(lines: seq<string>)
  {
    forall i | 0 <= i < |lines| :: Quiet(lines[i])
  }

  /** Every line has the meaning its place says and no other. */
  predicate LinesOk(b: Bss)
  {
    && AllQuiet(b.quiet0) && AllQuiet(b.quiet1) && AllQuiet(b.quiet2) && AllQuiet(b.quiet3)
    && FreqOnly(b.freqLine) && SignalOnly(b.signalLine) && SsidOnly(b.ssidLine) && Payload(b) != []
  }

  /** The lines hold numbers where numbers belong, and the element is usable. */
  predicate Usable(b: Bss, own: Scanner)
  {
    && ReadInt(FreqText(b.freqLine)).Number? && ReadInt(RssiText(b.signalLine)).Number?
    && 2 * |b.key| == own.k && 2 * |b.iv| == own.v && 2 * |b.pub| == own.p && own.imports(b.pub)
    && b.ip != [] && 4 <= |Payload(b)| <= 249
  }

  function EntryOf(b: Bss): (e: Entry)
  {
    Entry(FreqText(b.freqLine), SsidText(b.ssidLine), RssiText(b.signalLine), RemoveAll(ResfiLine(Payload(b)), MARK))
  }

  function Value(text: string): (v: int)
  {
    if ReadInt(text).Number? then ReadInt(text).value else 0
  }

  function InfoOf(b: Bss): (i: Info)
  {
    Info(b.key, b.iv, b.pub, Value(FreqText(b.freqLine)), SsidText(b.ssidLine), Value(RssiText(b.signalLine)))
  }

  lemma {:induction false} ReadAppend(s: ScanState, xs: seq<string>, ys: seq<string>)
    ensures ReadLines(s, xs + ys) == ReadLines(ReadLines(s, xs), ys)
  {
    if ys == [] {
      assert xs + ys == xs;
    } else {
      var n := |ys| - 1;
      assert (xs + ys)[..|xs| + n] == xs + ys[..n];
      ReadAppend(s, xs, ys[..n]);
    }
  }

  lemma {:induction false} ReadQuiet(s: ScanState, lines: seq<string>)
    requires AllQuiet(lines)
    ensures ReadLines(s, lines) == s
  {
    if lines != [] {
      assert forall i | 0 <= i < |lines| - 1 :: lines[..|lines| - 1][i] == lines[i];
      ReadQuiet(s, lines[..|lines| - 1]);
    }
  }

  /** Quiet lines and then one more line. */
  lemma ReadAfterQuiet(s: ScanState, before: seq<string>, quiet: seq<string>, line: string)
    requires AllQuiet(quiet)
    ensures ReadLines(s, before + quiet + [line]) == ReadLine(ReadLines(s, before), line)
  {
    var xs := before + quiet;
    assert (xs + [line])[..|xs|] == xs;
    ReadAppend(s, before, quiet);
    ReadQuiet(ReadLines(s, before), quiet);
  }

  /** The dump of an element is not mistaken for a freq, signal or SSID line. */
  lemma ResfiLineMarks(payload: seq<Byte>)
    ensures !Contains(ResfiLine(payload), FREQ) && !Contains(ResfiLine(payload), SIGNAL)
    ensures !Contains(ResfiLine(payload), SSID)
  {
    DumpShape(payload);
    HeadLacks();
    var line := ResfiLine(payload);
    assert Lacks(line, 'q') && Lacks(line, 'g') && Lacks(line, 'S');
    NotContained(line, FREQ, 3);
    NotContained(line, SIGNAL, 2);
    NotContained(line, SSID, 0);
  }

  lemma HeadLacks()
    ensures Lacks(MARK_HEAD, 'q') && Lacks(MARK_HEAD, 'g') && Lacks(MARK_HEAD, 'S')
  {
  }

  lemma ReadBlock(s: ScanState, q0: seq<string>, f: string, q1: seq<string>, g: string, q2: seq<string>, h: string,
                  q3: seq<string>, r: string)
    requires AllQuiet(q0) && AllQuiet(q1) && AllQuiet(q2) && AllQuiet(q3)
    ensures ReadLines(s, q0 + [f] + q1 + [g] + q2 + [h] + q3 + [r])
         == ReadLine(ReadLine(ReadLine(ReadLine(s, f), g), h), r)
  {
    var l1 := q0 + [f];
    var l2 := l1 + q1 + [g];
    var l3 := l2 + q2 + [h];
    assert l1 == [] + q0 + [f];
    ReadAfterQuiet(s, [], q0, f);
    ReadAfterQuiet(s, l1, q1, g);
    ReadAfterQuiet(s, l2, q2, h);
    ReadAfterQuiet(s, l3, q3, r);
  }

  lemma ReadThree(s: ScanState, f: string, g: string, h: string)
    requires !s.raised && FreqOnly(f) && SignalOnly(g) && SsidOnly(h)
    ensures ReadLine(ReadLine(ReadLine(s, f), g), h)
         == ScanState(FreqText(f), SsidText(h), Some(RssiText(g)), s.entries, false)
  {
  }

  lemma ReadResfi(s: ScanState, payload: seq<Byte>)
    requires !s.raised && s.rssi.Some? && payload != []
    ensures ReadLine(s, ResfiLine(payload))
         == s.(entries := s.entries + [Entry(s.freq, s.ssid, s.rssi.value, RemoveAll(ResfiLine(payload), MARK))])
  {
    ResfiLineMarks(payload);
    LineIsRecognised(payload);
  }

  lemma ReadBss(s: ScanState, b: Bss)
    requires LinesOk(b) && !s.raised
    ensures var e := EntryOf(b);
            ReadLines(s, Lines(b)) == ScanState(e.freq, e.ssid, Some(e.rssi), s.entries + [e], false)
  {
    ReadBlock(s, b.quiet0, b.freqLine, b.quiet1, b.signalLine, b.quiet2, b.ssidLine, b.quiet3, ResfiLine(Payload(b)));
    ReadThree(s, b.freqLine, b.signalLine, b.ssidLine);
    var e := EntryOf(b);
    ReadResfi(ScanState(e.freq, e.ssid, Some(e.rssi), s.entries, false), Payload(b));
  }

  lemma AddUsable(f: Found, e: Entry, own: Scanner, r: ResfiIe)
    requires f.Found? && |e.data| > 10 && ReadInt(e.rssi).Number? && ReadInt(e.freq).Number? && r.Fields?
    requires ParseResfiIe(Stripped(e.data), own.k, own.v, own.p, own.imports) == r
    ensures AddEntry(f, e, own)
         == if r.ip == ERROR then f
            else Found(f.neighbors[r.ip := Info(r.key, r.iv, r.pub, Value(e.freq), e.ssid, Value(e.rssi))])
  {
  }

  /** The dump of a usable element gives its fields. */
  lemma UsableFields(b: Bss, own: Scanner)
    requires Usable(b, own)
    ensures |EntryOf(b).data| > 10
    ensures ParseResfiIe(Stripped(EntryOf(b).data), own.k, own.v, own.p, own.imports) == Fields(b.key, b.iv, b.pub, b.ip)
  {
    LineIsRecognised(Payload(b));
    StripDump(Payload(b));
    FieldsCome(b.key, b.iv, b.pub, b.ip, own.imports);
  }

  /** What one access point adds to the list. */
  function Add(m: map<seq<Byte>, Info>, b: Bss): (r: map<seq<Byte>, Info>)
  {
    if b.ip == ERROR then m else m[b.ip := InfoOf(b)]
  }

  lemma AddBss(f: Found, b: Bss, own: Scanner)
    requires Usable(b, own) && f.Found?
    ensures AddEntry(f, EntryOf(b), own) == Found(Add(f.neighbors, b))
  {
    UsableFields(b, own);
    AddUsable(f, EntryOf(b), own, Fields(b.key, b.iv, b.pub, b.ip));
  }

  /** The neighbours of a scan: of two access points with the same address the later one, and none named Error. */
  function InfoMap(bs: seq<Bss>): (m: map<seq<Byte>, Info>)
  {
    if bs == [] then map[] else Add(InfoMap(bs[..|bs| - 1]), bs[|bs| - 1])
  }

  function Entries(bs: seq<Bss>): (es: seq<Entry>)
    ensures |es| == |bs|
  {
    seq(|bs|, i requires 0 <= i < |bs| => EntryOf(bs[i]))
  }

  lemma ReadOneMore(s: ScanState, lines: seq<string>, b: Bss, before: seq<Entry>)
    requires LinesOk(b) && !ReadLines(s, lines).raised && ReadLines(s, lines).entries == s.entries + before
    ensures var r := ReadLines(s, lines + Lines(b)); !r.raised && r.entries == s.entries + (before + [EntryOf(b)])
  {
    ReadAppend(s, lines, Lines(b));
    ReadBss(ReadLines(s, lines), b);
    assert (s.entries + before) + [EntryOf(b)] == s.entries + (before + [EntryOf(b)]);
  }

  lemma {:induction false} ReadAllBss(s: ScanState, bs: seq<Bss>)
    requires (forall i | 0 <= i < |bs| :: LinesOk(bs[i])) && !s.raised
    ensures var r := ReadLines(s, AllLines(bs)); !r.raised && r.entries == s.entries + Entries(bs)
  {
    if bs != [] {
      var n := |bs| - 1;
      ReadAllBss(s, bs[..n]);
      ReadOneMore(s, AllLines(bs[..n]), bs[n], Entries(bs[..n]));
      EntriesGrow(bs);
    }
  }

  lemma EntriesGrow(bs: seq<Bss>)
    requires bs != []
    ensures var n := |bs| - 1;
            Entries(bs) == Entries(bs[..n]) + [EntryOf(bs[n])] && Entries(bs)[..n] == Entries(bs[..n])
  {
  }

  lemma {:induction false} AddAllBss(bs: seq<Bss>, own: Scanner)
    requires forall i | 0 <= i < |bs| :: Usable(bs[i], own)
    ensures AddEntries(Found(map[]), Entries(bs), own) == Found(InfoMap(bs))
  {
    if bs != [] {
      var n := |bs| - 1;
      AddAllBss(bs[..n], own);
      EntriesGrow(bs);
      AddBss(Found(InfoMap(bs[..n])), bs[n], own);
    }
  }

  /**
    From scan output to neighbours, for any number of access points with other output lines in between: the list
    is InfoMap, whose entries hold the key, IV and public key that were advertised and their own frequency, SSID
    and signal.
   */
  lemma ScanFindsNeighbors(bs: seq<Bss>, freq0: string, ssid0: string, own: Scanner)
    requires forall i | 0 <= i < |bs| :: LinesOk(bs[i]) && Usable(bs[i], own)
    ensures var s := ReadLines(ScanState(freq0, ssid0, None, [], false), AllLines(bs));
            && !s.raised
            && AddEntries(Found(map[]), s.entries, own) == Found(InfoMap(bs))
  {
    var start := ScanState(freq0, ssid0, None, [], false);
    ReadAllBss(start, bs);
    assert start.entries + Entries(bs) == Entries(bs);
    AddAllBss(bs, own);
  }

  /** An access point that no later one with its address replaces is in the list exactly if its address is not Error. */
  lemma {:induction false} LastWins(bs: seq<Bss>, i: nat)
    requires i < |bs| && forall j | i < j < |bs| :: bs[j].ip != bs[i].ip
    ensures bs[i].ip in InfoMap(bs) <==> bs[i].ip != ERROR
    ensures bs[i].ip != ERROR ==> InfoMap(bs)[bs[i].ip] == InfoOf(bs[i])
  {
    if i < |bs| - 1 {
      LastWins(bs[..|bs| - 1], i);
    } else if bs[i].ip == ERROR {
      NeverListed(bs);
    }
  }

  lemma {:induction false} NeverListed(bs: seq<Bss>)
    ensures ERROR !in InfoMap(bs)
  {
    if bs != [] {
      NeverListed(bs[..|bs| - 1]);
    }
  }

  /** And nothing else is. */
  lemma {:induction false} OnlyScanned(bs: seq<Bss>)
    ensures InfoMap(bs).Keys == set b | b in bs && b.ip != ERROR :: b.ip
  {
    if bs != [] {
      var n := |bs| - 1;
      OnlyScanned(bs[..n]);
      assert bs == bs[..n] + [bs[n]];
    }
  }
}
