/**
  The lines on frequency, signal and SSID as iw prints them for an access point, and what the connector reads from
  them: the frequency always, the signal only if it is a whole number of dBm, the SSID unless it looks like a line.
 */
module ScanLines {
  import opened Agent
  import opened Tokens
  import opened Numerals
  import opened HexMask
  import opened VendorElement
  import opened ScanDump
  import opened ScanOutput

  // ---------------------------------------------------------------- what iw prints

  /** "\tfreq: %d" */
  function FreqLine(freq: int): (line: string)
  {
    "\tfreq: " + Decimal(freq)
  }

  /** Quotient and remainder of C, which truncate towards zero. */
  function Quot(n: int, d: int): (q: int)
    requires d > 0
  {
    if n >= 0 then n / d else -((-n) / d)
  }

  function Rem(n: int, d: int): (r: int)
    requires d > 0
    ensures r == n - d * Quot(n, d)
  {
    if n >= 0 then n % d else -((-n) % d)
  }

  /** "%.2d" */
  function TwoPlaces(n: int): (s: string)
  {
    if n < 0 then "-" + (if -n < 10 then "0" else "") + Digits(-n) else (if n < 10 then "0" else "") + Digits(n)
  }

  /** "\tsignal: %d.%.2d dBm", for a signal in mBm */
  function SignalLine(mbm: int): (line: string)
  {
    "\tsignal: " + (Decimal(Quot(mbm, 100)) + ("." + TwoPlaces(Rem(mbm, 100)) + " dBm"))
  }

  /** "\tSSID: " and the name, where nothing in it has to be escaped. */
  function SsidLine(name: string): (line: string)
  {
    "\tSSID: " + name
  }

  // ---------------------------------------------------------------- replace and int

  lemma NoStart(s: string, p: string)
    requires p != "" && s != "" && s[0] != p[0]
    ensures !StartsWith(s, p)
  {
    if |p| <= |s| {
      assert s[..|p|][0] == s[0];
    }
  }

  /** What stands before the first occurrence, and has no character that it could begin with, stays. */
  lemma {:induction false} RemoveBehind(s: string, t: string, p: string)
    requires p != "" && Lacks(s, p[0])
    ensures RemoveAll(s + t, p) == s + RemoveAll(t, p)
  {
    if s == "" {
      assert s + t == t;
    } else {
      assert (s + t)[0] == s[0] && (s + t)[1..] == s[1..] + t;
      NoStart(s + t, p);
      RemoveBehind(s[1..], t, p);
      assert [s[0]] + (s[1..] + RemoveAll(t, p)) == s + RemoveAll(t, p);
    }
  }

  lemma RemoveHead(p: string, t: string)
    requires p != ""
    ensures RemoveAll(p + t, p) == RemoveAll(t, p)
  {
    assert (p + t)[..|p|] == p && (p + t)[|p|..] == t;
  }

  /** A head is removed once, if what follows does not have it. */
  lemma HeadRemoved(c: char, p: string, t: string)
    requires p != "" && p[0] != c && !Contains(t, p)
    ensures RemoveAll([c] + (p + t), p) == [c] + t && Contains([c] + (p + t), p)
  {
    RemoveBehind([c], p + t, p);
    RemoveHead(p, t);
    NotRemoved(t, p);
    assert ([c] + (p + t))[1..] == p + t && (p + t)[..|p|] == p;
  }

  lemma {:induction false} NotRemoved(s: string, p: string)
    requires p != "" && !Contains(s, p)
    ensures RemoveAll(s, p) == s
  {
    if s != "" {
      NotRemoved(s[1..], p);
    }
  }

  /** A number behind a tab is read. */
  lemma ReadTabbed(n: int)
    ensures ReadInt("\t" + Decimal(n)) == Number(n)
  {
    var s := Decimal(n);
    ReadDecimal(n);
    DigitsRead(if n < 0 then -n else n);
    assert ("\t" + s)[0] == '\t' && ("\t" + s)[1..] == s;
    assert s != "" && SkipSpace("\t" + s) == SkipSpace(s);
  }

  lemma {:induction false} SkipKeepsEnd(s: string)
    requires s != "" && !IsSpace(s[|s| - 1])
    ensures SkipSpace(s) != "" && SkipSpace(s)[|SkipSpace(s)| - 1] == s[|s| - 1]
  {
    if IsSpace(s[0]) {
      SkipKeepsEnd(s[1..]);
    }
  }

  /** A text that ends in a letter is no number. */
  lemma LetterIsNoNumber(s: string)
    requires s != "" && 'a' <= s[|s| - 1] <= 'z'
    ensures ReadInt(s).NotANumber?
  {
    SkipKeepsEnd(s);
    var t := SkipSpace(s);
    assert CutSpace(t) == t;
    var d := if t[0] == '-' || t[0] == '+' then t[1..] else t;
    assert d == "" || d[|d| - 1] == s[|s| - 1];
  }

  lemma {:induction false} ContainsBehind(s: string, t: string, p: string)
    requires p != "" && Lacks(s, p[0])
    ensures Contains(s + t, p) <==> Contains(t, p)
  {
    if s == "" {
      assert s + t == t;
    } else {
      assert (s + t)[0] == s[0] && (s + t)[1..] == s[1..] + t;
      NoStart(s + t, p);
      ContainsBehind(s[1..], t, p);
    }
  }

  lemma OnlyDigits(n: int, c: char)
    requires c != '-' && !('0' <= c <= '9')
    ensures Lacks(Decimal(n), c)
  {
    ReadDecimal(n);
  }

  // ---------------------------------------------------------------- the frequency

  /** The line for any frequency is recognised as such and read back. */
  lemma FreqReads(freq: int)
    ensures FreqOnly(FreqLine(freq)) && ReadInt(FreqText(FreqLine(freq))) == Number(freq)
  {
    var d := Decimal(freq);
    OnlyDigits(freq, 'f');
    OnlyDigits(freq, 's');
    OnlyDigits(freq, 'S');
    OnlyDigits(freq, 'V');
    OnlyDigits(freq, ' ');
    OnlyDigits(freq, '\n');
    NotContained(d, FREQ, 0);
    assert FreqLine(freq) == ['\t'] + (FREQ + d);
    HeadRemoved('\t', FREQ, d);
    NotContained(FreqLine(freq), SIGNAL, 0);
    NotContained(FreqLine(freq), SSID, 0);
    NotContained(FreqLine(freq), MARK, 0);
    RemoveNothing("\t" + d, " ");
    RemoveNothing("\t" + d, "\n");
    ReadTabbed(freq);
  }

  // ---------------------------------------------------------------- the signal

  const CENTS: string := ".00 dBm"

  lemma TwoPlacesShape(n: int)
    requires -100 < n < 100
    ensures n >= 0 ==> TwoPlaces(n) == ['0' + (n / 10) as char, '0' + (n % 10) as char]
    ensures n < 0 ==> |TwoPlaces(n)| == 3 && TwoPlaces(n)[0] == '-'
    ensures forall i | 0 <= i < |TwoPlaces(n)| :: TwoPlaces(n)[i] == '-' || '0' <= TwoPlaces(n)[i] <= '9'
  {
    var m: nat := if n < 0 then -n else n;
    DigitsRead(m);
    if m >= 10 {
      assert Digits(m / 10) == ['0' + (m / 10) as char];
      assert Digits(m) == ['0' + (m / 10) as char] + ['0' + (m % 10) as char];
    } else {
      assert Digits(m) == ['0' + m as char];
    }
  }

  /** The places behind the point, with what follows them. */
  function Places(mbm: int): (s: string)
  {
    "." + TwoPlaces(Rem(mbm, 100)) + " dBm"
  }

  lemma PlacesShape(mbm: int)
    ensures Places(mbm) == CENTS <==> Rem(mbm, 100) == 0
    ensures Rem(mbm, 100) != 0 ==> !Contains(Places(mbm), CENTS)
    ensures Lacks(Places(mbm), 's') && Lacks(Places(mbm), '\n') && |Places(mbm)| > 1
    ensures Places(mbm)[0] == '.' && Places(mbm)[|Places(mbm)| - 1] == 'm'
  {
    var x := TwoPlaces(Rem(mbm, 100));
    TwoPlacesShape(Rem(mbm, 100));
    var p := Places(mbm);
    assert p == "." + x + " dBm" && p[1..] == x + " dBm" && p[1] == x[0] && p[2] == x[1];
    assert CENTS[1] == '0' && CENTS[2] == '0';
    if Rem(mbm, 100) == 0 {
      assert x == "00";
    } else {
      NotHere(p, x);
      NotContained(p[1..], CENTS, 0);
    }
  }

  lemma NotHere(p: string, x: string)
    requires |p| >= 3 && |x| >= 2 && p[1] == x[0] && p[2] == x[1] && (x[0] != '0' || x[1] != '0')
    ensures !StartsWith(p, CENTS)
  {
    if |p| >= |CENTS| {
      assert p[..|CENTS|][1] == p[1] && p[..|CENTS|][2] == p[2];
    }
  }

  lemma SignalLineIs(mbm: int)
    ensures SignalLine(mbm) == ['\t'] + (SIGNAL + (Decimal(Quot(mbm, 100)) + Places(mbm)))
  {
    TabbedLabel(SIGNAL, Decimal(Quot(mbm, 100)) + Places(mbm));
    assert "\tsignal: " == "\t" + SIGNAL;
  }

  lemma TabbedLabel(head: string, rest: string)
    ensures ("\t" + head) + rest == ['\t'] + (head + rest)
  {
  }

  lemma LabelRemoved(head: string, d: string, end: string)
    requires head != "" && head[0] != '\t' && Lacks(d, head[0]) && Lacks(end, head[0])
    ensures RemoveAll(['\t'] + (head + (d + end)), head) == ("\t" + d) + end
    ensures Contains(['\t'] + (head + (d + end)), head)
  {
    NotContained(d + end, head, 0);
    HeadRemoved('\t', head, d + end);
    assert ['\t'] + (d + end) == ("\t" + d) + end;
  }

  lemma SignalParts(mbm: int)
    ensures RemoveAll(SignalLine(mbm), SIGNAL) == ("\t" + Decimal(Quot(mbm, 100))) + Places(mbm)
    ensures Contains(SignalLine(mbm), SIGNAL)
  {
    SignalLineIs(mbm);
    PlacesShape(mbm);
    OnlyDigits(Quot(mbm, 100), 's');
    LabelRemoved(SIGNAL, Decimal(Quot(mbm, 100)), Places(mbm));
  }

  /** What the connector takes for the signal: the number, if nothing but zeros is behind the point. */
  lemma SignalText(mbm: int)
    ensures RssiText(SignalLine(mbm))
         == ("\t" + Decimal(Quot(mbm, 100))) + (if Rem(mbm, 100) == 0 then "" else Places(mbm))
  {
    var head, end := "\t" + Decimal(Quot(mbm, 100)), Places(mbm);
    PlacesShape(mbm);
    SignalParts(mbm);
    OnlyDigits(Quot(mbm, 100), '.');
    OnlyDigits(Quot(mbm, 100), '\n');
    CentsAndNewline(head, end, Rem(mbm, 100) == 0);
  }

  lemma CentsAndNewline(head: string, end: string, whole: bool)
    requires Lacks(head, '.') && Lacks(head, '\n') && Lacks(end, '\n')
    requires if whole then end == CENTS else !Contains(end, CENTS)
    ensures RemoveAll(RemoveAll(head + end, CENTS), "\n") == head + (if whole then "" else end)
  {
    RemoveBehind(head, end, CENTS);
    if whole {
      assert CENTS[..|CENTS|] == CENTS && CENTS[|CENTS|..] == "";
      RemoveNothing(head + "", "\n");
    } else {
      NotRemoved(end, CENTS);
      RemoveNothing(head + end, "\n");
    }
  }

  /** The signal is read back if and only if it is a whole number of dBm; otherwise the text is no number. */
  lemma SignalReads(mbm: int)
    ensures ReadInt(RssiText(SignalLine(mbm))) == if mbm % 100 == 0 then Number(mbm / 100) else NotANumber
  {
    SignalText(mbm);
    PlacesShape(mbm);
    WholeDbm(mbm);
    var head, end := "\t" + Decimal(Quot(mbm, 100)), Places(mbm);
    if mbm % 100 == 0 {
      assert head + "" == head;
      ReadTabbed(mbm / 100);
    } else {
      assert (head + end)[|head + end| - 1] == end[|end| - 1];
      LetterIsNoNumber(head + end);
    }
  }

  lemma WholeDbm(mbm: int)
    ensures Rem(mbm, 100) == 0 <==> mbm % 100 == 0
    ensures mbm % 100 == 0 ==> Quot(mbm, 100) == mbm / 100
  {
  }

  lemma SignalLacks(mbm: int, c: char)
    requires c == 'q' || c == 'S' || c == 'V'
    ensures Lacks(SignalLine(mbm), c)
  {
    SignalLineIs(mbm);
    OnlyDigits(Quot(mbm, 100), c);
    PlacesLack(mbm, c);
    assert Lacks(SIGNAL, c);
  }

  lemma PlacesLack(mbm: int, c: char)
    requires c == 'q' || c == 'S' || c == 'V'
    ensures Lacks(Places(mbm), c)
  {
    TwoPlacesShape(Rem(mbm, 100));
    assert Lacks(" dBm", c);
  }

  lemma SignalIsOnly(mbm: int)
    ensures SignalOnly(SignalLine(mbm))
  {
    SignalParts(mbm);
    SignalLacks(mbm, 'q');
    SignalLacks(mbm, 'S');
    SignalLacks(mbm, 'V');
    NotContained(SignalLine(mbm), FREQ, 3);
    NotContained(SignalLine(mbm), SSID, 0);
    NotContained(SignalLine(mbm), MARK, 0);
  }

  // ---------------------------------------------------------------- the SSID

  /** Printable, and nothing in it that the connector looks for. */
  predicate PlainName(name: string)
  {
    && Lacks(name, '\t') && Lacks(name, '\n')
    && !Contains(name, FREQ) && !Contains(name, SIGNAL) && !Contains(name, SSID) && !Contains(name, MARK)
  }

  /** The SSID is read back, whatever it is made of apart from the labels the connector looks for. */
  lemma SsidReads(name: string)
    requires PlainName(name)
    ensures SsidOnly(SsidLine(name)) && SsidText(SsidLine(name)) == name
  {
    assert "\tSSID: " == ['\t'] + SSID;
    assert SsidLine(name) == ['\t'] + (SSID + name) && SsidLine(name) == "\tSSID: " + name;
    HeadRemoved('\t', SSID, name);
    ContainsBehind("\tSSID: ", name, FREQ);
    ContainsBehind("\tSSID: ", name, SIGNAL);
    ContainsBehind("\tSSID: ", name, MARK);
    RemoveChar("\t", name, '\t');
    RemoveOnly('\t');
    RemoveNothing(name, "\t");
    RemoveNothing(name, "\n");
  }

  // ---------------------------------------------------------------- access points

  /** What an access point is: its channel, how it is received, its name and its ResFi element. */
  datatype Ap = Ap(freq: int, mbm: int, ssid: string, key: seq<Byte>, iv: seq<Byte>, pub: seq<Byte>, ip: seq<Byte>)

  /** The lines iw prints for it, with other ones in between. */
  function Printed(ap: Ap, q0: seq<string>, q1: seq<string>, q2: seq<string>, q3: seq<string>): (b: Bss)
  {
    Bss(q0, FreqLine(ap.freq), q1, SignalLine(ap.mbm), q2, SsidLine(ap.ssid), q3, ap.key, ap.iv, ap.pub, ap.ip)
  }

  /**
    From the access point to the neighbour entry: the printed lines have the meaning that their places say, and if
    the element fits the scanner, the entry has the access point's frequency, SSID and keys, and its signal in dBm.
    It fits exactly if, beside the lengths and the key, the signal is a whole number of dBm.
   */
  lemma PrintedIsRead(ap: Ap, q0: seq<string>, q1: seq<string>, q2: seq<string>, q3: seq<string>, own: Scanner)
    requires PlainName(ap.ssid) && ap.ip != []
    requires AllQuiet(q0) && AllQuiet(q1) && AllQuiet(q2) && AllQuiet(q3)
    ensures var b := Printed(ap, q0, q1, q2, q3);
            && LinesOk(b)
            && (Usable(b, own) <==>
                  && ap.mbm % 100 == 0 && 2 * |ap.key| == own.k && 2 * |ap.iv| == own.v && 2 * |ap.pub| == own.p
                  && own.imports(ap.pub) && 4 <= |ap.key + ap.iv + ap.pub + ap.ip| <= 249)
            && (Usable(b, own) ==>
                  InfoOf(b) == Info(ap.key, ap.iv, ap.pub, ap.freq, ap.ssid, ap.mbm / 100))
  {
    FreqReads(ap.freq);
    SignalReads(ap.mbm);
    SignalIsOnly(ap.mbm);
    SsidReads(ap.ssid);
    assert (ap.key + ap.iv + ap.pub + ap.ip)[|ap.key + ap.iv + ap.pub|] == ap.ip[0];
  }

  lemma {:induction false} FailureSpreads(f: Found, es: seq<Entry>, i: nat, own: Scanner)
    requires i < |es| && |es[i].data| > 10 && ReadInt(es[i].rssi).NotANumber?
    ensures AddEntries(f, es, own) == Failed
  {
    if i < |es| - 1 {
      FailureSpreads(f, es[..|es| - 1], i, own);
    }
  }

  /** One access point whose signal is no whole number of dBm makes the whole scan fail. */
  lemma OneFractionFails(bs: seq<Bss>, i: nat, ap: Ap, own: Scanner)
    requires i < |bs| && bs[i] == Printed(ap, bs[i].quiet0, bs[i].quiet1, bs[i].quiet2, bs[i].quiet3)
    requires ap.mbm % 100 != 0 && |Payload(bs[i])| >= 4
    ensures AddEntries(Found(map[]), Entries(bs), own) == Failed
  {
    SignalReads(ap.mbm);
    LineIsRecognised(Payload(bs[i]));
    StripDump(Payload(bs[i]));
    FailureSpreads(Found(map[]), Entries(bs), i, own);
  }
}
