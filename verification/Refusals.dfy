/**
  What iw returns for arguments that it refuses: -22 or 1 from a scheduled scan, -105 or 1 from a scan, and 1 or the
  code of the failing part from a wake-up command; and what the forms of a randomise argument lead to.
 */
module Refusals {
  import opened Agent
  import opened Tokens
  import opened HexMask
  import opened SchedScan
  import opened SchedScanLanguage
  import ScanArgs
  import Wowlan

  // ---------------------------------------------------------------- randomise

  lemma NinePlus(word: string, rest: string)
    requires word == "randomise" || word == "randomize"
    ensures |word| == 9 && (word + rest)[..9] == word && (word + rest)[9..] == rest && IsRandom(word + rest)
  {
  }

  /** Alone it asks for any address; anything but an equals sign behind it is ignored. */
  lemma RandomWord(word: string, rest: string, mac: string -> bool)
    requires word == "randomise" || word == "randomize"
    requires rest == "" || rest[0] != '='
    ensures IsRandom(word + rest) && RandomMac(word + rest, mac) == 0
  {
    NinePlus(word, rest);
    assert rest != "" ==> (word + rest)[9] == rest[0];
  }

  /** With an equals sign, an address, a slash and a mask have to follow, and both have to be readable. */
  lemma RandomWithMask(word: string, addr: string, mask: string, mac: string -> bool)
    requires (word == "randomise" || word == "randomize") && Lacks(addr, '/')
    ensures var t := word + ("=" + (addr + ("/" + mask)));
            IsRandom(t) && RandomMac(t, mac) == if mac(addr) && mac(mask) then 0 else 1
  {
    var addrs := addr + ("/" + mask);
    var t := word + ("=" + addrs);
    NinePlus(word, "=" + addrs);
    assert t[9] == '=' && t[10..] == addrs;
    IndexOfIs(addrs, '/', |addr|);
    assert addrs[..|addr|] == addr && addrs[|addr| + 1..] == mask;
  }

  lemma RandomWithoutMask(word: string, addr: string, mac: string -> bool)
    requires (word == "randomise" || word == "randomize") && Lacks(addr, '/')
    ensures IsRandom(word + ("=" + addr)) && RandomMac(word + ("=" + addr), mac) == 1
  {
    var t := word + ("=" + addr);
    NinePlus(word, "=" + addr);
    assert t[9] == '=' && t[10..] == addr;
    IndexOfIs(addr, '/', |addr|);
  }

  // ---------------------------------------------------------------- scheduled scan

  /** Whatever the arguments, the parser ends with 0, with -22, or with the 1 of an unreadable randomise. */
  lemma {:induction false} SchedScanCodes(p: Parser, args: seq<string>, mac: string -> bool)
    ensures Parse(p, args, mac).err in {0, -22, 1}
    decreases |args|, if p.mode == Top then 0 else 1
  {
    if args != [] {
      var next := Step(p, args, mac);
      if next.Go? {
        SchedScanCodes(next.p, next.args, mac);
      } else {
        StopCodes(p, args, mac);
      }
    }
  }

  lemma StopCodes(p: Parser, args: seq<string>, mac: string -> bool)
    requires args != [] && Step(p, args, mac).Stop?
    ensures Step(p, args, mac).err in {0, -22, 1}
  {
    if p.mode == Top {
      TopCodes(p, args, mac);
    }
  }

  lemma TopCodes(p: Parser, args: seq<string>, mac: string -> bool)
    requires args != []
    ensures StepTop(p, args, mac).Stop? ==> StepTop(p, args, mac).err in {0, -22, 1}
  {
  }

  /** 0 as an interval, or no number, is refused with -22, and so is a list without items. */
  lemma BadInterval(t: string, rest: seq<string>, mac: string -> bool)
    requires UnsignedWhole(t).None? || UnsignedWhole(t) == Some(0)
    ensures Parse(START, ["interval", t] + rest, mac).err == -22
    ensures Parse(START, ["interval"], mac).err == -22
  {
    var args := ["interval", t] + rest;
    assert args[1..] == [t] + rest && ([t] + rest)[0] == t;
    assert ["interval"][1..] == [];
  }

  lemma EmptyList(word: string, t: string, rest: seq<string>, mac: string -> bool)
    requires word in {"matches", "freqs", "active"} && t != "ssid" && UnsignedWhole(t).None?
    ensures Parse(START, [word, t] + rest, mac).err == -22
  {
    var args := [word, t] + rest;
    assert args[0] == word && args[1..] == [t] + rest;
    var next := StepTop(START, args, mac);
    assert next.Go? && next.p.i == 0 && next.args == [t] + rest;
    ListEnds(next.p, next.args, mac);
  }

  lemma ListEnds(p: Parser, args: seq<string>, mac: string -> bool)
    requires args != [] && p.mode != Top && p.i == 0 && args[0] != "ssid" && UnsignedWhole(args[0]).None?
    ensures Parse(p, args, mac).err == -22
  {
  }

  // ---------------------------------------------------------------- scan

  /** An argument without role ends the scan with 1, and so does any argument after passive. */
  lemma UnknownScanWord(t: string, rest: seq<string>, err: int, mac: string -> bool)
    ensures ScanArgs.Keyword(t).None? ==> ScanArgs.Scan([t] + rest, ScanArgs.Neutral, err, mac) == ScanArgs.Return(1)
    ensures ScanArgs.Scan(["passive", t] + rest, ScanArgs.Neutral, err, mac) == ScanArgs.Return(1)
  {
    assert ([t] + rest)[0] == t;
    var args := ["passive", t] + rest;
    assert args[0] == "passive" && args[1..] == [t] + rest;
    PassiveIsWord();
  }

  lemma PassiveIsWord()
    ensures ScanArgs.Keyword("passive") == Some(ScanArgs.PassiveWord)
  {
  }

  /** An unreadable randomise ends it with 1, unreadable elements with -105. */
  lemma BadScanValues(word: string, addr: string, bad: string, rest: seq<string>, mac: string -> bool)
    requires (word == "randomise" || word == "randomize") && Lacks(addr, '/') && ParseText(bad, false) == Rejected
    ensures ScanArgs.Scan([word + ("=" + addr)] + rest, ScanArgs.Neutral, -105, mac) == ScanArgs.Return(1)
    ensures ScanArgs.Scan(["ies", bad] + rest, ScanArgs.Neutral, -105, mac) == ScanArgs.Return(-105)
  {
    RandomWithoutMask(word, addr, mac);
    RandomIsKeyword(word, "=" + addr);
    var args := ["ies", bad] + rest;
    assert args[0] == "ies" && args[1..] == [bad] + rest;
    assert ScanArgs.Keyword("ies") == Some(ScanArgs.IesWord);
  }

  lemma RandomIsKeyword(word: string, rest: string)
    requires word == "randomise" || word == "randomize"
    ensures ScanArgs.Keyword(word + rest) == Some(ScanArgs.Randomise(word + rest))
  {
    NinePlus(word, rest);
    assert (word + rest)[0] == 'r' && (word + rest)[1] == 'a';
  }

  // ---------------------------------------------------------------- wake-up

  /** An unknown trigger, a trigger without its argument, and an unreadable pattern are refused with 1. */
  lemma WakeUpRefused(t: string, rest: seq<string>, env: Wowlan.Env)
    ensures !Wowlan.IsKeyword(t) ==> Wowlan.Enable([t] + rest, false, env) == Wowlan.Refused(1)
    ensures Wowlan.Enable(["tcp"], false, env) == Wowlan.Refused(1)
    ensures Wowlan.Enable(["net-detect"], false, env) == Wowlan.Refused(1)
    ensures Wowlan.ReadPattern(t).PatternBad? ==> Wowlan.Enable([t] + rest, true, env) == Wowlan.Refused(1)
  {
    assert ([t] + rest)[0] == t;
    assert ["tcp"][1..] == [] && ["net-detect"][1..] == [];
  }

  /** A file that cannot be used and bad scheduled-scan arguments are refused with their own code. */
  lemma WakeUpPartRefused(file: string, rest: seq<string>, args: seq<string>, env: Wowlan.Env)
    ensures env.tcp(file) != 0 ==> Wowlan.Enable(["tcp", file] + rest, false, env) == Wowlan.Refused(env.tcp(file))
    ensures args != [] && Parse(START, args, env.mac).err != 0 ==>
              Wowlan.Enable(["net-detect"] + args, false, env) == Wowlan.Refused(Parse(START, args, env.mac).err)
  {
    var all := ["tcp", file] + rest;
    assert all[0] == "tcp" && all[1..] == [file] + rest;
    assert (["net-detect"] + args)[1..] == args;
  }
}
