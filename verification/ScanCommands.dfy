/**
  Scan commands as the usage text of iw documents them and as the connector issues them: how iw takes their
  arguments.
 */
module ScanCommands {
  import opened Agent
  import opened Tokens
  import opened Numerals
  import opened HexMask
  import opened SchedScan
  import opened SchedScanLanguage
  import opened ScanArgs
  import opened VendorElement

  // ---------------------------------------------------------------- numbers

  /** A number written in decimal is capped at 64 bits and cut to 32. */
  lemma DecimalAsUnsigned(n: nat)
    ensures UnsignedWhole(Decimal(n))
         == Some((if n > 0xffff_ffff_ffff_ffff then 0xffff_ffff_ffff_ffff else n) % 0x1_0000_0000)
  {
    DigitsRead(n);
    var s := Decimal(n);
    assert '0' <= s[0] <= '9';
    assert SkipSpace(s) == s;
  }

  /** A negative one is taken from 2 to the 64th first. */
  lemma NegativeAsUnsigned(n: nat)
    requires 0 < n
    ensures UnsignedWhole(Decimal(0 - n))
         == Some((if n > 0xffff_ffff_ffff_ffff then 0xffff_ffff_ffff_ffff
                  else 0x1_0000_0000_0000_0000 - n) % 0x1_0000_0000)
  {
    DigitsRead(n);
    var s := Decimal(0 - n);
    assert s[0] == '-' && s[1..] == Digits(n);
    assert SkipSpace(s) == s;
    if n <= 0xffff_ffff_ffff_ffff {
      assert (ULONG_SIZE - n) % ULONG_SIZE == 0x1_0000_0000_0000_0000 - n;
    }
  }

  /** A frequency written in decimal is read as that number. */
  lemma DecimalIsUnsigned(n: nat)
    requires n < 0x1_0000_0000
    ensures UnsignedWhole(Decimal(n)) == Some(n)
  {
    DecimalAsUnsigned(n);
  }

  /** White space and a plus sign before a number are skipped. */
  lemma SpacedUnsigned(n: nat)
    requires n < 0x1_0000_0000
    ensures UnsignedWhole([' '] + Decimal(n)) == Some(n) && UnsignedWhole(['+'] + Decimal(n)) == Some(n)
  {
    DigitsRead(n);
    DecimalIsUnsigned(n);
    PrefixSkipped(' ', Decimal(n));
    PrefixSkipped('+', Decimal(n));
  }

  lemma PrefixSkipped(c: char, s: string)
    requires s != "" && AllDigits(s) && (c == ' ' || c == '+')
    ensures UnsignedWhole([c] + s) == UnsignedWhole(s)
  {
    var t := [c] + s;
    assert t[0] == c && t[1..] == s && '0' <= s[0] <= '9';
    assert SkipSpace(s) == s;
    assert SkipSpace(t) == if c == ' ' then s else t;
  }

  /** A letter behind a number is not accepted. */
  lemma LetterBehind(s: string, c: char)
    requires s != "" && AllDigits(s) && 'a' <= c <= 'z'
    ensures UnsignedWhole(s + [c]).None?
  {
    var t := s + [c];
    assert '0' <= s[0] <= '9' && t[0] == s[0] && t[|t| - 1] == c;
    assert SkipSpace(t) == t;
  }

  // ---------------------------------------------------------------- the usage text

  /** Parts of an argument list that may each be left out. */
  datatype Usage = Usage(
    freqs: Option<seq<string>>, ies: Option<string>, meshid: Option<string>, flags: seq<string>,
    random: Option<string>, end: End)

  datatype End = NoEnd | Ssids(names: seq<string>) | Passively

  /** Numbers where frequencies belong, a hex text for the elements, the flags by name, and a readable randomise. */
  predicate WellUsed(u: Usage, mac: string -> bool)
  {
    && (u.freqs.Some? ==> forall i | 0 <= i < |u.freqs.value| :: UnsignedWhole(u.freqs.value[i]).Some?)
    && (u.ies.Some? ==> ParseText(u.ies.value, false).Parsed?)
    && (forall i | 0 <= i < |u.flags| :: u.flags[i] in {"lowpri", "flush", "ap-force"})
    && (u.random.Some? ==> IsRandom(u.random.value) && RandomMac(u.random.value, mac) == 0)
  }

  function FreqItems(ts: seq<string>): (xs: seq<Item>)
  {
    if ts == [] then [] else FreqItems(ts[..|ts| - 1]) + [FreqValue(ts[|ts| - 1])]
  }

  function SsidItems(ts: seq<string>): (xs: seq<Item>)
  {
    if ts == [] then [] else SsidItems(ts[..|ts| - 1]) + [SsidValue(ts[|ts| - 1])]
  }

  function FlagItems(ts: seq<string>): (xs: seq<Item>)
  {
    if ts == [] then [] else FlagItems(ts[..|ts| - 1]) + [FlagWord(ts[|ts| - 1])]
  }

  /** [freq <freq>*] [ies <hex>] [meshid <meshid>] */
  function FrontItems(u: Usage): (xs: seq<Item>)
  {
    (if u.freqs.Some? then [FreqWord] + FreqItems(u.freqs.value) else [])
    + (if u.ies.Some? then [IesWord, IesValue(u.ies.value)] else [])
    + (if u.meshid.Some? then [MeshidWord, MeshidValue(u.meshid.value)] else [])
  }

  function FrontArguments(u: Usage): (args: seq<string>)
  {
    (if u.freqs.Some? then ["freq"] + u.freqs.value else [])
    + (if u.ies.Some? then ["ies", u.ies.value] else [])
    + (if u.meshid.Some? then ["meshid", u.meshid.value] else [])
  }

  /** and then [flags] [randomise] [ssid <ssid>*|passive] */
  function Items(u: Usage): (xs: seq<Item>)
  {
    FrontItems(u) + FlagItems(u.flags)
    + (if u.random.Some? then [Randomise(u.random.value)] else [])
    + (match u.end
       case NoEnd => []
       case Ssids(names) => [SsidWord] + SsidItems(names)
       case Passively => [PassiveWord])
  }

  function Arguments(u: Usage): (args: seq<string>)
  {
    FrontArguments(u) + u.flags
    + (if u.random.Some? then [u.random.value] else [])
    + (match u.end
       case NoEnd => []
       case Ssids(names) => ["ssid"] + names
       case Passively => ["passive"])
  }

  lemma {:induction false} TextsAppend(xs: seq<Item>, ys: seq<Item>)
    ensures Texts(xs + ys) == Texts(xs) + Texts(ys)
  {
    if xs == [] {
      assert xs + ys == ys;
    } else {
      assert (xs + ys)[1..] == xs[1..] + ys;
      TextsAppend(xs[1..], ys);
    }
  }

  lemma {:induction false} ValidAppend(xs: seq<Item>, ys: seq<Item>, m: ScanMode, mac: string -> bool)
    requires ValidItems(xs, m, mac) && ValidItems(ys, LastMode(xs, m), mac)
    ensures ValidItems(xs + ys, m, mac) && LastMode(xs + ys, m) == LastMode(ys, LastMode(xs, m))
    decreases |xs|
  {
    if xs == [] {
      assert xs + ys == ys;
    } else {
      assert (xs + ys)[1..] == xs[1..] + ys;
      assert LastMode(xs[1..], After(xs[0])) == LastMode(xs, m);
      ValidAppend(xs[1..], ys, After(xs[0]), mac);
    }
  }

  /** One more part: valid from its state on, and its texts. */
  lemma PartAppend(xs: seq<Item>, a: seq<string>, ys: seq<Item>, b: seq<string>, mac: string -> bool)
    requires ValidItems(xs, Neutral, mac) && Texts(xs) == a
    requires ValidItems(ys, LastMode(xs, Neutral), mac) && Texts(ys) == b
    ensures ValidItems(xs + ys, Neutral, mac) && Texts(xs + ys) == a + b
    ensures ys != [] ==> LastMode(xs + ys, Neutral) == LastMode(ys, Neutral)
    ensures ys == [] ==> LastMode(xs + ys, Neutral) == LastMode(xs, Neutral)
  {
    TextsAppend(xs, ys);
    ValidAppend(xs, ys, Neutral, mac);
    assert ys == [] ==> xs + ys == xs;
  }

  lemma OneItem(x: Item, m: ScanMode, mac: string -> bool)
    requires ScanArgs.Fits(x, m, mac)
    ensures ValidItems([x], m, mac) && Texts([x]) == [ScanArgs.Text(x)] && LastMode([x], m) == After(x)
  {
    assert [x][1..] == [];
  }

  /** One more item at the end of a part, for the last of the texts. */
  lemma PartSnoc(xs: seq<Item>, ts: seq<string>, x: Item, m: ScanMode, mac: string -> bool)
    requires ts != [] && ValidItems(xs, m, mac) && Texts(xs) == ts[..|ts| - 1]
    requires ScanArgs.Fits(x, LastMode(xs, m), mac) && ScanArgs.Text(x) == ts[|ts| - 1]
    ensures ValidItems(xs + [x], m, mac) && Texts(xs + [x]) == ts && LastMode(xs + [x], m) == After(x)
  {
    OneItem(x, LastMode(xs, m), mac);
    ValidAppend(xs, [x], m, mac);
    TextsAppend(xs, [x]);
    assert ts == ts[..|ts| - 1] + [ts[|ts| - 1]];
  }

  lemma {:induction false} FreqPart(ts: seq<string>, mac: string -> bool)
    requires forall i | 0 <= i < |ts| :: UnsignedWhole(ts[i]).Some?
    ensures ValidItems(FreqItems(ts), InFreq, mac) && Texts(FreqItems(ts)) == ts
    ensures LastMode(FreqItems(ts), InFreq) == InFreq
  {
    if ts != [] {
      var n := |ts| - 1;
      FreqPart(ts[..n], mac);
      PartSnoc(FreqItems(ts[..n]), ts, FreqValue(ts[n]), InFreq, mac);
    }
  }

  lemma {:induction false} SsidPart(ts: seq<string>, mac: string -> bool)
    ensures ValidItems(SsidItems(ts), InSsid, mac) && Texts(SsidItems(ts)) == ts
    ensures LastMode(SsidItems(ts), InSsid) == InSsid
  {
    if ts != [] {
      var n := |ts| - 1;
      SsidPart(ts[..n], mac);
      PartSnoc(SsidItems(ts[..n]), ts, SsidValue(ts[n]), InSsid, mac);
    }
  }

  /** Where a keyword may come. */
  predicate Open(m: ScanMode)
  {
    m == Neutral || m == InFreq
  }

  lemma {:induction false} FlagPart(ts: seq<string>, m: ScanMode, mac: string -> bool)
    requires Open(m) && forall i | 0 <= i < |ts| :: ts[i] in {"lowpri", "flush", "ap-force"}
    ensures ValidItems(FlagItems(ts), m, mac) && Texts(FlagItems(ts)) == ts && Open(LastMode(FlagItems(ts), m))
  {
    if ts != [] {
      var n := |ts| - 1;
      FlagPart(ts[..n], m, mac);
      PartSnoc(FlagItems(ts[..n]), ts, FlagWord(ts[n]), m, mac);
    }
  }

  /** A keyword and what follows it. */
  lemma WordPart(word: Item, values: seq<Item>, m: ScanMode, mac: string -> bool)
    requires ScanArgs.Fits(word, m, mac) && ValidItems(values, After(word), mac)
    ensures ValidItems([word] + values, m, mac) && Texts([word] + values) == [ScanArgs.Text(word)] + Texts(values)
    ensures LastMode([word] + values, m) == LastMode(values, After(word))
  {
    assert ([word] + values)[1..] == values;
  }

  lemma EndPart(end: End, m: ScanMode, mac: string -> bool) returns (xs: seq<Item>, args: seq<string>)
    requires Open(m)
    ensures xs == match end
                  case NoEnd => []
                  case Ssids(names) => [SsidWord] + SsidItems(names)
                  case Passively => [PassiveWord]
    ensures args == match end
                    case NoEnd => []
                    case Ssids(names) => ["ssid"] + names
                    case Passively => ["passive"]
    ensures ValidItems(xs, m, mac) && Texts(xs) == args
  {
    match end {
      case NoEnd =>
        xs, args := [], [];
      case Ssids(names) =>
        SsidPart(names, mac);
        WordPart(SsidWord, SsidItems(names), m, mac);
        xs, args := [SsidWord] + SsidItems(names), ["ssid"] + names;
      case Passively =>
        OneItem(PassiveWord, m, mac);
        xs, args := [PassiveWord], ["passive"];
    }
  }

  lemma FrequencyPart(u: Usage, mac: string -> bool) returns (xs: seq<Item>, args: seq<string>)
    requires WellUsed(u, mac)
    ensures xs == if u.freqs.Some? then [FreqWord] + FreqItems(u.freqs.value) else []
    ensures args == if u.freqs.Some? then ["freq"] + u.freqs.value else []
    ensures ValidItems(xs, Neutral, mac) && Texts(xs) == args && Open(LastMode(xs, Neutral))
  {
    xs, args := [], [];
    if u.freqs.Some? {
      FreqPart(u.freqs.value, mac);
      WordPart(FreqWord, FreqItems(u.freqs.value), Neutral, mac);
      xs, args := [FreqWord] + FreqItems(u.freqs.value), ["freq"] + u.freqs.value;
    }
  }

  /** A keyword with one value behind it. */
  lemma PairPart(word: Item, value: Item, m: ScanMode, mac: string -> bool)
    requires ScanArgs.Fits(word, m, mac) && ScanArgs.Fits(value, After(word), mac)
    ensures ValidItems([word, value], m, mac) && LastMode([word, value], m) == After(value)
    ensures Texts([word, value]) == [ScanArgs.Text(word), ScanArgs.Text(value)]
  {
    OneItem(value, After(word), mac);
    WordPart(word, [value], m, mac);
    assert [word] + [value] == [word, value];
  }

  /** An optional pair. */
  lemma MaybePair(xs: seq<Item>, args: seq<string>, word: Item, value: Option<Item>, mac: string -> bool)
    returns (ys: seq<Item>, more: seq<string>)
    requires ValidItems(xs, Neutral, mac) && Texts(xs) == args && Open(LastMode(xs, Neutral))
    requires ScanArgs.Fits(word, LastMode(xs, Neutral), mac)
    requires value.Some? ==> ScanArgs.Fits(value.value, After(word), mac) && After(value.value) == Neutral
    ensures ys == xs + (if value.Some? then [word, value.value] else [])
    ensures more == args + (if value.Some? then [ScanArgs.Text(word), ScanArgs.Text(value.value)] else [])
    ensures ValidItems(ys, Neutral, mac) && Texts(ys) == more && Open(LastMode(ys, Neutral))
  {
    ys, more := xs + [], args + [];
    assert ys == xs && more == args;
    if value.Some? {
      PairPart(word, value.value, LastMode(xs, Neutral), mac);
      PartAppend(xs, args, [word, value.value], [ScanArgs.Text(word), ScanArgs.Text(value.value)], mac);
      ys, more := xs + [word, value.value], args + [ScanArgs.Text(word), ScanArgs.Text(value.value)];
    }
  }

  lemma FrontPart(u: Usage, mac: string -> bool)
    requires WellUsed(u, mac)
    ensures var xs := FrontItems(u);
            ValidItems(xs, Neutral, mac) && Texts(xs) == FrontArguments(u) && Open(LastMode(xs, Neutral))
  {
    var xs, args := FrequencyPart(u, mac);
    xs, args := MaybePair(xs, args, IesWord, if u.ies.Some? then Some(IesValue(u.ies.value)) else None, mac);
    var mesh := if u.meshid.Some? then Some(MeshidValue(u.meshid.value)) else None;
    xs, args := MaybePair(xs, args, MeshidWord, mesh, mac);
  }

  /** Every command line that follows the usage text is accepted, with each argument in the role it has there. */
  lemma UsageIsAccepted(u: Usage, mac: string -> bool)
    requires WellUsed(u, mac)
    ensures ScanArgs.Scan(Arguments(u), Neutral, -105, mac) == Roles(Items(u))
  {
    var xs, args := FrontItems(u), FrontArguments(u);
    FrontPart(u, mac);
    FlagPart(u.flags, LastMode(xs, Neutral), mac);
    PartAppend(xs, args, FlagItems(u.flags), u.flags, mac);
    UsageTail(u, xs + FlagItems(u.flags), args + u.flags, mac);
  }

  lemma UsageTail(u: Usage, xs: seq<Item>, args: seq<string>, mac: string -> bool)
    requires WellUsed(u, mac) && ValidItems(xs, Neutral, mac) && Texts(xs) == args && Open(LastMode(xs, Neutral))
    requires Items(u) == xs + (if u.random.Some? then [Randomise(u.random.value)] else [])
                         + (match u.end
                            case NoEnd => []
                            case Ssids(names) => [SsidWord] + SsidItems(names)
                            case Passively => [PassiveWord])
    requires Arguments(u) == args + (if u.random.Some? then [u.random.value] else [])
                             + (match u.end
                                case NoEnd => []
                                case Ssids(names) => ["ssid"] + names
                                case Passively => ["passive"])
    ensures ScanArgs.Scan(Arguments(u), Neutral, -105, mac) == Roles(Items(u))
  {
    if u.random.Some? {
      OneItem(Randomise(u.random.value), LastMode(xs, Neutral), mac);
    }
    var ys, more := if u.random.Some? then [Randomise(u.random.value)] else [],
                    if u.random.Some? then [u.random.value] else [];
    PartAppend(xs, args, ys, more, mac);
    var zs, last := EndPart(u.end, LastMode(xs + ys, Neutral), mac);
    PartAppend(xs + ys, args + more, zs, last, mac);
    ScanAcceptsExactly(Arguments(u), Items(u), mac);
  }

  // ---------------------------------------------------------------- the connector's commands

  /** A scan on one frequency for a name: every word of the name is probed for as an SSID of its own. */
  lemma NameCommand(freq: nat, words: seq<string>, mac: string -> bool)
    requires freq < 0x1_0000_0000
    ensures ScanArgs.Scan(["freq", Decimal(freq), "ap-force", "ssid"] + words, Neutral, -105, mac)
         == Roles([FreqWord, FreqValue(Decimal(freq)), FlagWord("ap-force"), SsidWord] + SsidItems(words))
    ensures UnsignedWhole(Decimal(freq)) == Some(freq)
  {
    DecimalIsUnsigned(freq);
    var u := NameUsage(Decimal(freq), words);
    UsageIsAccepted(u, mac);
    NameUsageIs(Decimal(freq), words);
  }

  function NameUsage(t: string, words: seq<string>): (u: Usage)
  {
    Usage(Some([t]), None, None, ["ap-force"], None, Ssids(words))
  }

  lemma NameUsageIs(t: string, words: seq<string>)
    ensures Arguments(NameUsage(t, words)) == ["freq", t, "ap-force", "ssid"] + words
    ensures Items(NameUsage(t, words)) == [FreqWord, FreqValue(t), FlagWord("ap-force"), SsidWord] + SsidItems(words)
  {
    OneFreq(t);
    OneFlag("ap-force");
    assert FrontArguments(NameUsage(t, words)) == ["freq", t] && FrontItems(NameUsage(t, words)) == [FreqWord, FreqValue(t)];
    Heads("freq", t, "ap-force", "ssid", words);
    Heads(FreqWord, FreqValue(t), FlagWord("ap-force"), SsidWord, SsidItems(words));
  }

  lemma Heads<T>(a: T, b: T, c: T, d: T, xs: seq<T>)
    ensures ([a] + [b]) + [] + [] + [c] + [] + ([d] + xs) == [a, b, c, d] + xs
  {
  }

  /** There are as many SSIDs as words. */
  lemma {:induction false} SsidCount(words: seq<string>)
    ensures |SsidItems(words)| == |words|
    ensures forall i | 0 <= i < |words| :: SsidItems(words)[i] == SsidValue(words[i])
  {
    if words != [] {
      SsidCount(words[..|words| - 1]);
    }
  }

  lemma OneFreq(t: string)
    ensures FreqItems([t]) == [FreqValue(t)]
  {
    assert [t][..0] == [];
    assert FreqItems([]) == [];
  }

  lemma OneFlag(t: string)
    ensures FlagItems([t]) == [FlagWord(t)]
  {
    assert [t][..0] == [];
    assert FlagItems([]) == [];
  }

  /** A scan on one frequency without a name. */
  lemma FrequencyCommand(freq: nat, mac: string -> bool)
    requires freq < 0x1_0000_0000
    ensures ScanArgs.Scan(["freq", Decimal(freq), "ap-force"], Neutral, -105, mac)
         == Roles([FreqWord, FreqValue(Decimal(freq)), FlagWord("ap-force")])
  {
    DecimalIsUnsigned(freq);
    var u := Usage(Some([Decimal(freq)]), None, None, ["ap-force"], None, NoEnd);
    UsageIsAccepted(u, mac);
    OneFreq(Decimal(freq));
    OneFlag("ap-force");
    assert Arguments(u) == ["freq", Decimal(freq), "ap-force"];
    assert Items(u) == [FreqWord, FreqValue(Decimal(freq)), FlagWord("ap-force")];
  }

  /** The full scan: the two dotted payloads are taken for the elements, as the two vendor elements they stand for. */
  lemma FullCommand(hex: string, more: string, mac: string -> bool)
    requires IsHexString(hex) && 0 < |hex| <= 498 && IsHexString(more) && 0 < |more| <= 498
    ensures var dotted := Join(IeTokens(hex), ':') + ":" + Join(IeTokens(more), ':');
            && ScanArgs.Scan(["ies", dotted, "ap-force"], Neutral, -105, mac)
               == Roles([IesWord, IesValue(dotted), FlagWord("ap-force")])
            && ParseText(dotted, false)
               == Parsed(VendorElement.Plain(EncodeAll([ResFiElement(Unhex(hex)), ResFiElement(Unhex(more))])))
  {
    var dotted := Join(IeTokens(hex), ':') + ":" + Join(IeTokens(more), ':');
    DottedPairIsTwoElements(hex, more);
    var u := Usage(None, Some(dotted), None, ["ap-force"], None, NoEnd);
    UsageIsAccepted(u, mac);
    OneFlag("ap-force");
    assert Arguments(u) == ["ies", dotted, "ap-force"];
    assert Items(u) == [IesWord, IesValue(dotted), FlagWord("ap-force")];
  }
}
