/**
  Wake-up commands: packet patterns with their offsets, and the triggers of the usage text.
 */
module WakeUpCommands {
  import opened Agent
  import opened Tokens
  import opened Numerals
  import opened HexMask
  import opened SchedScan
  import opened SchedScanLanguage
  import opened ScanCommands
  import opened Wowlan

  // ---------------------------------------------------------------- one pattern

  lemma OneToken(text: string)
    requires text != "" && Lacks(text, '+')
    ensures NonEmpty(Split(text, '+')) == [text]
  {
    SplitOne(text, '+');
    assert NonEmpty([text][1..]) == [];
  }

  lemma TwoTokens(a: string, b: string)
    requires a != "" && b != "" && Lacks(a, '+') && Lacks(b, '+')
    ensures NonEmpty(Split(a + ['+'] + b, '+')) == [a, b]
  {
    SplitAppend(a, b, '+');
    SplitOne(a, '+');
    SplitOne(b, '+');
    assert [a] + [b] == [a, b] && [a, b][1..] == [b] && [b][1..] == [];
    assert NonEmpty([]) == [];
    assert NonEmpty([b]) == [b];
  }

  /** Without offset the text is the pattern, at offset 0. */
  lemma PlainPattern(text: string)
    requires text != "" && Lacks(text, '+') && ParseText(text, true).Parsed?
    ensures ReadPattern(text) == PatternOk(0, ParseText(text, true).pattern)
  {
    OneToken(text);
  }

  /** With a number and a plus sign before it, that number is the offset. */
  lemma OffsetPattern(offset: nat, text: string)
    requires offset < 0x1_0000_0000 && text != "" && Lacks(text, '+') && ParseText(text, true).Parsed?
    ensures ReadPattern(Decimal(offset) + ['+'] + text) == PatternOk(offset, ParseText(text, true).pattern)
  {
    DecimalIsUnsigned(offset);
    ReadDecimal(offset);
    DigitsRead(offset);
    TwoTokens(Decimal(offset), text);
  }

  lemma {:induction false} NonEmptyOfSplit(text: string)
    ensures NonEmpty(Split(text, '+')) == [] <==> forall i | 0 <= i < |text| :: text[i] == '+'
    decreases |text|
  {
    var k := IndexOf(text, '+');
    if k == |text| {
      if text != "" {
        OneToken(text);
        assert text[0] != '+';
      } else {
        assert Split(text, '+') == [""];
        assert NonEmpty([""][1..]) == [];
      }
    } else {
      NonEmptyOfSplit(text[k + 1..]);
      assert Split(text, '+')[0] == text[..k] && Split(text, '+')[1..] == Split(text[k + 1..], '+');
      if k > 0 {
        assert text[0] != '+';
      } else if forall i | 0 <= i < |text[1..]| :: text[1..][i] == '+' {
        forall i | 0 <= i < |text| ensures text[i] == '+' {
          assert i > 0 ==> text[i] == text[1..][i - 1];
        }
      }
    }
  }

  /** The pattern pointer is null exactly if the text is empty or holds nothing but plus signs. */
  lemma NullExactly(text: string)
    ensures NonEmpty(Split(text, '+')) == [] <==> forall i | 0 <= i < |text| :: text[i] == '+'
    ensures (forall i | 0 <= i < |text| :: text[i] == '+') ==> ReadPattern(text) == PatternUndefined
  {
    NonEmptyOfSplit(text);
  }

  // ---------------------------------------------------------------- printed patterns

  lemma {:induction false} JoinLacks(toks: seq<string>, c: char, d: char)
    requires toks != [] && c != d && forall i | 0 <= i < |toks| :: Lacks(toks[i], d)
    ensures Lacks(Join(toks, c), d)
  {
    if |toks| > 1 {
      JoinLacks(toks[1..], c, d);
    }
  }

  lemma PrintedHasNoPlus(p: Pattern)
    requires p != []
    ensures Print(p) != "" && Lacks(Print(p), '+')
  {
    var toks := CellTexts(p);
    forall i | 0 <= i < |toks| ensures Lacks(toks[i], '+') && toks[i] != "" {
    }
    JoinLacks(toks, ':', '+');
    NotEmptyJoin(toks);
  }

  lemma NotEmptyJoin(toks: seq<string>)
    requires toks != [] && toks[0] != ""
    ensures Join(toks, ':') != ""
  {
  }

  /** A pattern printed behind its offset is read back with both. */
  lemma PrintedPatternIsRead(offset: nat, p: Pattern)
    requires offset < 0x1_0000_0000 && p != []
    ensures ReadPattern(Decimal(offset) + ['+'] + Print(p)) == PatternOk(offset, p)
    ensures ReadPattern(Print(p)) == PatternOk(0, p)
  {
    PrintedHasNoPlus(p);
    PatternRoundTrip(p);
    OffsetPattern(offset, Print(p));
    PlainPattern(Print(p));
  }

  // ---------------------------------------------------------------- the usage text

  /** A pattern and its offset, which may be left out. */
  datatype Wanted = Wanted(offset: Option<nat>, pattern: Pattern)

  predicate WellFormed(ws: seq<Wanted>)
  {
    forall i | 0 <= i < |ws| :: ws[i].pattern != [] && (ws[i].offset.Some? ==> ws[i].offset.value < 0x1_0000_0000)
  }

  function WantedText(w: Wanted): (s: string)
  {
    if w.offset.Some? then Decimal(w.offset.value) + ['+'] + Print(w.pattern) else Print(w.pattern)
  }

  function PatternTriggers(ws: seq<Wanted>): (ts: seq<Trigger>)
  {
    if ws == [] then [] else [PacketPattern(WantedText(ws[0]))] + PatternTriggers(ws[1..])
  }

  function WantedTexts(ws: seq<Wanted>): (args: seq<string>)
  {
    if ws == [] then [] else [WantedText(ws[0])] + WantedTexts(ws[1..])
  }

  function FlagTriggers(names: seq<string>): (ts: seq<Trigger>)
  {
    if names == [] then [] else [Flag(names[0])] + FlagTriggers(names[1..])
  }

  lemma {:induction false} PatternsAccepted(ws: seq<Wanted>, env: Env)
    requires WellFormed(ws)
    ensures ValidTriggers(PatternTriggers(ws), true, env) && UnparseAll(PatternTriggers(ws)) == WantedTexts(ws)
  {
    if ws != [] {
      PrintedPatternIsRead(if ws[0].offset.Some? then ws[0].offset.value else 0, ws[0].pattern);
      PatternsAccepted(ws[1..], env);
      assert PatternTriggers(ws)[1..] == PatternTriggers(ws[1..]);
    }
  }

  /** The triggers that are named in the usage text. */
  function Names(): (s: set<string>)
  {
    {"any", "disconnect", "magic-packet", "gtk-rekey-failure", "eap-identity-request", "4way-handshake",
     "rfkill-release"}
  }

  lemma NamesAreFlags(t: string)
    requires t in Names()
    ensures IsFlag(t)
  {
  }

  lemma FlagFirst(name: string, ts: seq<Trigger>, env: Env)
    requires IsFlag(name) && ValidTriggers(ts, false, env)
    ensures ValidTriggers([Flag(name)] + ts, false, env) && UnparseAll([Flag(name)] + ts) == [name] + UnparseAll(ts)
  {
    ConsTriggers(Flag(name), ts);
  }

  lemma ConsAssoc<T>(x: T, xs: seq<T>, ys: seq<T>)
    ensures [x] + (xs + ys) == ([x] + xs) + ys
  {
  }

  lemma FlagTriggersCons(names: seq<string>, ts: seq<Trigger>, args: seq<string>)
    requires names != []
    ensures [Flag(names[0])] + (FlagTriggers(names[1..]) + ts) == FlagTriggers(names) + ts
    ensures [names[0]] + (names[1..] + args) == names + args
  {
    ConsAssoc(Flag(names[0]), FlagTriggers(names[1..]), ts);
    ConsAssoc(names[0], names[1..], args);
    assert [names[0]] + names[1..] == names;
  }

  lemma {:induction false} FlagsAccepted(names: seq<string>, ts: seq<Trigger>, args: seq<string>, env: Env)
    requires forall i | 0 <= i < |names| :: IsFlag(names[i])
    requires ValidTriggers(ts, false, env) && UnparseAll(ts) == args
    ensures ValidTriggers(FlagTriggers(names) + ts, false, env) && UnparseAll(FlagTriggers(names) + ts) == names + args
  {
    if names == [] {
      assert FlagTriggers(names) + ts == ts && names + args == args;
    } else {
      FlagsAccepted(names[1..], ts, args, env);
      FlagFirst(names[0], FlagTriggers(names[1..]) + ts, env);
      FlagTriggersCons(names, ts, args);
    }
  }

  /**
    Every command with triggers of the usage text and printed patterns behind them is accepted, and each pattern is
    read with the offset and the cells it was printed from.
   */
  lemma WakeUpIsAccepted(names: seq<string>, ws: seq<Wanted>, env: Env)
    requires (forall i | 0 <= i < |names| :: names[i] in Names()) && WellFormed(ws)
    ensures Enable(names + (["patterns"] + WantedTexts(ws)), false, env)
         == Accepted(FlagTriggers(names) + ([PatternsStart] + PatternTriggers(ws)))
    ensures forall i | 0 <= i < |ws| ::
              ReadPattern(WantedText(ws[i]))
              == PatternOk(if ws[i].offset.Some? then ws[i].offset.value else 0, ws[i].pattern)
  {
    var rest := [PatternsStart] + PatternTriggers(ws);
    PatternsAccepted(ws, env);
    assert rest[1..] == PatternTriggers(ws);
    forall i | 0 <= i < |names| ensures IsFlag(names[i]) {
      NamesAreFlags(names[i]);
    }
    FlagsAccepted(names, rest, ["patterns"] + WantedTexts(ws), env);
    EnableAcceptsExactly(names + (["patterns"] + WantedTexts(ws)), FlagTriggers(names) + rest, env);
    forall i | 0 <= i < |ws|
      ensures ReadPattern(WantedText(ws[i]))
           == PatternOk(if ws[i].offset.Some? then ws[i].offset.value else 0, ws[i].pattern)
    {
      PrintedPatternIsRead(if ws[i].offset.Some? then ws[i].offset.value else 0, ws[i].pattern);
    }
  }
}
