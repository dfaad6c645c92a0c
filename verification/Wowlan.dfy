/**
  handle_wowlan_enable of iw-4.3/wowlan.c: the loop over the triggers, with the scheduled-scan arguments of
  net-detect parsed by parse_sched_scan and everything after `patterns` taken as packet patterns.
 */
module Wowlan {
  import opened Agent
  import opened Tokens
  import opened Numerals
  import opened HexMask
  import opened SchedScan
  import opened SchedScanLanguage

  /** The outside: which strings are MAC addresses, and what reading a TCP configuration file returns. */
  datatype Env = Env(mac: string -> bool, tcp: string -> int)

  // ---------------------------------------------------------------- patterns

  /** The tokens strtok_r finds: the non-empty parts between plus signs. */
  function NonEmpty(ts: seq<string>): (r: seq<string>)
  {
    if ts == [] then [] else (if ts[0] == "" then [] else [ts[0]]) + NonEmpty(ts[1..])
  }

  datatype PatternRead = PatternOk(offset: nat, pattern: Pattern) | PatternBad | PatternUndefined

  /** offset+pattern; without any token the pattern pointer is null. */
  function ReadPattern(text: string): (r: PatternRead)
  {
    var parts := NonEmpty(Split(text, '+'));
    if parts == [] then PatternUndefined
    else
      var offset := if |parts| == 1 then Some(0) else UnsignedWhole(parts[0]);
      if offset.None? then PatternBad
      else
        match ParseText(if |parts| == 1 then parts[0] else parts[1], true)
        case Rejected => PatternBad
        case Overrun => PatternUndefined
        case Parsed(p) => PatternOk(offset.value, p)
  }

  // ---------------------------------------------------------------- triggers

  datatype Trigger =
    | Flag(name: string)
    | Tcp(file: string)
    | NetDetect(clauses: seq<Clause>)
    | PatternsStart
    | PacketPattern(text: string)

  predicate IsFlag(t: string)
  {
    || t == "any" || t == "disconnect" || t == "magic-packet" || t == "gtk-rekey-failure"
    || t == "eap-identity-request" || t == "4way-handshake" || t == "rfkill-release"
  }

  function TriggerTokens(t: Trigger): (ts: seq<string>)
    ensures |ts| >= 1
  {
    match t
    case Flag(name) => [name]
    case Tcp(file) => ["tcp", file]
    case NetDetect(cs) => ["net-detect"] + Unparse(cs)
    case PatternsStart => ["patterns"]
    case PacketPattern(text) => [text]
  }

  function UnparseAll(ts: seq<Trigger>): (args: seq<string>)
  {
    if ts == [] then [] else TriggerTokens(ts[0]) + UnparseAll(ts[1..])
  }

  datatype Verdict = Accepted(triggers: seq<Trigger>) | Refused(err: int) | Crashed

  function Cons(t: Trigger, v: Verdict): (r: Verdict)
  {
    if v.Accepted? then Accepted([t] + v.triggers) else v
  }

  /** The run over the arguments; pat is the state PS_PAT. */
  function Enable(args: seq<string>, pat: bool, env: Env): (v: Verdict)
    decreases |args|
  {
    if args == [] then Accepted([])
    else
      var t, rest := args[0], args[1..];
      if pat then
        match ReadPattern(t)
        case PatternBad => Refused(1)
        case PatternUndefined => Crashed
        case PatternOk(_, _) => Cons(PacketPattern(t), Enable(rest, true, env))
      else if IsFlag(t) then Cons(Flag(t), Enable(rest, false, env))
      else if t == "tcp" then
        if rest == [] then Refused(1)
        else if env.tcp(rest[0]) != 0 then Refused(env.tcp(rest[0]))
        else Cons(Tcp(rest[0]), Enable(rest[1..], false, env))
      else if t == "patterns" then Cons(PatternsStart, Enable(rest, true, env))
      else if t == "net-detect" then
        if rest == [] then Refused(1)
        else
          var r := Parse(START, rest, env.mac);
          if r.err != 0 then Refused(r.err) else Cons(NetDetect(r.p.clauses), Enable(r.args, false, env))
      else Refused(1)
  }

  // ---------------------------------------------------------------- the loop

  function Prepend(done: seq<Trigger>, v: Verdict): (r: Verdict)
  {
    if v.Accepted? then Accepted(done + v.triggers) else v
  }

  lemma PrependCons(done: seq<Trigger>, t: Trigger, v: Verdict)
    ensures Prepend(done, Cons(t, v)) == Prepend(done + [t], v)
  {
    if v.Accepted? {
      assert done + ([t] + v.triggers) == (done + [t]) + v.triggers;
    }
  }

  /** wowlan_parse_net_detect on the arguments after the keyword. */
  method NetDetectArgs(argv: seq<string>, v0: nat, argc0: int, env: Env)
    returns (end: Option<Verdict>, trigger: Trigger, v: nat, argc: int)
    requires argc0 >= 0 && v0 + argc0 == |argv|
    ensures argc >= 0 && v + argc == |argv| && v >= v0
    ensures argc0 == 0 ==> end == Some(Refused(1))
    ensures argc0 > 0 ==>
              && var r := Parse(START, argv[v0..], env.mac);
              && (r.err != 0 ==> end == Some(Refused(r.err)))
              && (r.err == 0 ==> end.None? && trigger == NetDetect(r.p.clauses) && argv[v..] == r.args)
  {
    end, trigger, v, argc := None, PatternsStart, v0, argc0;
    if argc == 0 {
      return Some(Refused(1)), trigger, v, argc;
    }
    var err, c, w, p := ParseSchedScan(argv[v..], env.mac);
    assert argv[v..][w..] == argv[v + w..];
    v, argc := v + w, c;
    if err != 0 {
      return Some(Refused(err)), trigger, v, argc;
    }
    trigger := NetDetect(p.clauses);
  }

  /** One turn in state PS_REG: None when the loop goes on. */
  method Register(argv: seq<string>, v0: nat, argc0: int, env: Env)
    returns (end: Option<Verdict>, trigger: Trigger, v: nat, argc: int)
    requires argc0 > 0 && v0 + argc0 == |argv|
    ensures argc >= 0 && v + argc == |argv|
    ensures end.None? ==> v > v0
    ensures end.None? ==>
              Enable(argv[v0..], false, env) == Cons(trigger, Enable(argv[v..], trigger == PatternsStart, env))
    ensures end.Some? ==> Enable(argv[v0..], false, env) == end.value && !end.value.Accepted?
  {
    end, trigger, v, argc := None, PatternsStart, v0, argc0;
    var t := argv[v];
    ghost var args := argv[v0..];
    assert args[0] == t && args[1..] == argv[v0 + 1..];
    if IsFlag(t) {
      trigger := Flag(t);
    } else if t == "tcp" {
      v, argc := v + 1, argc - 1;
      if argc == 0 {
        return Some(Refused(1)), trigger, v, argc;
      }
      assert args[1..][0] == argv[v] && args[1..][1..] == argv[v + 1..];
      var err := env.tcp(argv[v]);
      if err != 0 {
        return Some(Refused(err)), trigger, v, argc;
      }
      trigger := Tcp(argv[v]);
    } else if t == "patterns" {
      trigger := PatternsStart;
    } else if t == "net-detect" {
      end, trigger, v, argc := NetDetectArgs(argv, v + 1, argc - 1, env);
      return;
    } else {
      return Some(Refused(1)), trigger, v, argc;
    }
    v, argc := v + 1, argc - 1;
  }

  method HandleWowlanEnable(argv: seq<string>, env: Env) returns (r: Verdict)
    ensures r == Enable(argv, false, env)
  {
    var v, argc := 0, |argv|;
    var pat := false;
    var triggers: seq<Trigger> := [];
    assert argv[0..] == argv;
    while argc != 0
      invariant argc >= 0 && v + argc == |argv|
      invariant Enable(argv, false, env) == Prepend(triggers, Enable(argv[v..], pat, env))
      decreases argc
    {
      ghost var args := argv[v..];
      if pat {
        var read := ReadPattern(argv[v]);
        if read.PatternUndefined? {
          return Crashed;
        }
        if read.PatternBad? {
          return Refused(1);
        }
        assert args[1..] == argv[v + 1..];
        PrependCons(triggers, PacketPattern(argv[v]), Enable(argv[v + 1..], true, env));
        triggers := triggers + [PacketPattern(argv[v])];
        v, argc := v + 1, argc - 1;
      } else {
        var end, t;
        end, t, v, argc := Register(argv, v, argc, env);
        if end.Some? {
          return end.value;
        }
        pat := t == PatternsStart;
        PrependCons(triggers, t, Enable(argv[v..], pat, env));
        triggers := triggers + [t];
      }
    }
    r := Accepted(triggers);
  }

  // ---------------------------------------------------------------- the accepted argument lists

  /** net-detect wants an argument; what follows its clauses must not be taken for an item of their last list. */
  ghost predicate ValidTriggers(ts: seq<Trigger>, pat: bool, env: Env)
  {
    ts == [] ||
    match ts[0]
    case Flag(name) => !pat && IsFlag(name) && ValidTriggers(ts[1..], false, env)
    case Tcp(file) => !pat && env.tcp(file) == 0 && ValidTriggers(ts[1..], false, env)
    case NetDetect(cs) =>
      && !pat && Valid(cs, env.mac) && (if |ts| == 1 then cs != [] else Closed(cs))
      && ValidTriggers(ts[1..], false, env)
    case PatternsStart => !pat && ValidTriggers(ts[1..], true, env)
    case PacketPattern(text) => pat && ReadPattern(text).PatternOk? && ValidTriggers(ts[1..], true, env)
  }

  /** The keywords that begin a trigger. */
  predicate IsKeyword(t: string)
  {
    IsFlag(t) || t == "tcp" || t == "patterns" || t == "net-detect"
  }

  lemma NotRandom(t: string)
    requires |t| < 2 || t[0] != 'r' || t[1] != 'a'
    ensures !IsRandom(t)
  {
    if |t| >= 9 {
      assert t[..9][0] == t[0] && t[..9][1] == t[1];
    }
  }

  lemma KeywordIsForeign(t: string)
    requires IsKeyword(t)
    ensures Foreign(t) && t != "ssid" && UnsignedWhole(t).None?
  {
    NotRandom(t);
    if t == "4way-handshake" {
      assert SkipSpace(t) == t && !('0' <= t[1] <= '9');
    } else {
      NotNumber(t);
    }
  }

  lemma HeadIsKeyword(ts: seq<Trigger>, env: Env)
    requires ts != [] && ValidTriggers(ts, false, env)
    ensures UnparseAll(ts) != [] && IsKeyword(UnparseAll(ts)[0])
  {
  }

  /** The first trigger of an accepted list, and what is left. */
  lemma FirstTrigger(args: seq<string>, pat: bool, env: Env) returns (t: Trigger, rest: seq<string>)
    requires args != [] && Enable(args, pat, env).Accepted?
    ensures Enable(args, pat, env) == Cons(t, Enable(rest, pat || t == PatternsStart, env))
    ensures |rest| < |args| && args == TriggerTokens(t) + rest && (!pat ==> IsKeyword(args[0]))
    ensures t.PacketPattern? == pat && (pat ==> ReadPattern(t.text).PatternOk?)
    ensures t.Flag? ==> IsFlag(t.name)
    ensures t.Tcp? ==> env.tcp(t.file) == 0
    ensures t.NetDetect? ==>
              && Valid(t.clauses, env.mac) && |Unparse(t.clauses)| + |rest| > 0 && (rest != [] ==> Closed(t.clauses))
  {
    var s := args[0];
    rest := args[1..];
    assert args == [s] + rest;
    if pat {
      t := PacketPattern(s);
    } else if IsFlag(s) {
      t := Flag(s);
    } else if s == "patterns" {
      t := PatternsStart;
    } else if s == "tcp" {
      t := Tcp(rest[0]);
      assert args == ["tcp", rest[0]] + rest[1..];
      rest := rest[1..];
    } else {
      var r := Parse(START, rest, env.mac);
      AcceptedIsValid(rest, env.mac);
      t := NetDetect(r.p.clauses);
      Assoc(["net-detect"], Unparse(r.p.clauses), r.args);
      rest := r.args;
    }
  }

  lemma {:induction false} AcceptedTriggers(args: seq<string>, pat: bool, env: Env)
    requires Enable(args, pat, env).Accepted?
    ensures var ts := Enable(args, pat, env).triggers; ValidTriggers(ts, pat, env) && UnparseAll(ts) == args
    decreases |args|
  {
    if args != [] {
      var t, rest := FirstTrigger(args, pat, env);
      AcceptedTriggers(rest, pat || t == PatternsStart, env);
      var ts := Enable(rest, pat || t == PatternsStart, env).triggers;
      ConsTriggers(t, ts);
      ConsValid(t, ts, pat, env);
    }
  }

  lemma ConsValid(t: Trigger, ts: seq<Trigger>, pat: bool, env: Env)
    requires ValidTriggers(ts, pat || t == PatternsStart, env)
    requires t.PacketPattern? == pat && (pat ==> ReadPattern(t.text).PatternOk?)
    requires t.Flag? ==> IsFlag(t.name)
    requires t.Tcp? ==> env.tcp(t.file) == 0
    requires t.NetDetect? ==>
               Valid(t.clauses, env.mac) && |Unparse(t.clauses)| + |UnparseAll(ts)| > 0 &&
               (UnparseAll(ts) != [] ==> Closed(t.clauses))
    ensures ValidTriggers([t] + ts, pat, env)
  {
    assert ([t] + ts)[1..] == ts;
    if ts != [] {
      assert UnparseAll(ts) != [];
    }
  }

  lemma ConsTriggers(t: Trigger, ts: seq<Trigger>)
    ensures ([t] + ts)[0] == t && ([t] + ts)[1..] == ts && UnparseAll([t] + ts) == TriggerTokens(t) + UnparseAll(ts)
  {
    assert ([t] + ts)[1..] == ts;
  }

  lemma NetDetectTriggers(cs: seq<Clause>, ts: seq<Trigger>, env: Env)
    requires Valid(cs, env.mac) && ValidTriggers(ts, false, env) && (if ts == [] then cs != [] else Closed(cs))
    ensures ValidTriggers([NetDetect(cs)] + ts, false, env)
    ensures UnparseAll([NetDetect(cs)] + ts) == ["net-detect"] + (Unparse(cs) + UnparseAll(ts))
  {
    ConsTriggers(NetDetect(cs), ts);
    Assoc(["net-detect"], Unparse(cs), UnparseAll(ts));
  }

  /** Whether the keywords after the trigger are patterns. */
  predicate InPatterns(t: Trigger)
  {
    t.PatternsStart? || t.PacketPattern?
  }

  lemma RestIsValid(ts: seq<Trigger>, pat: bool, env: Env)
    requires ts != [] && ValidTriggers(ts, pat, env)
    ensures ValidTriggers(ts[1..], InPatterns(ts[0]), env)
  {
  }

  lemma {:induction false} ValidTriggersAccepted(ts: seq<Trigger>, pat: bool, env: Env)
    requires ValidTriggers(ts, pat, env)
    ensures Enable(UnparseAll(ts), pat, env) == Accepted(ts)
    decreases |ts|
  {
    if ts != [] {
      RestIsValid(ts, pat, env);
      ValidTriggersAccepted(ts[1..], InPatterns(ts[0]), env);
      if ts[0].NetDetect? {
        NetDetectAccepted(ts, pat, env);
      } else {
        OtherTriggerAccepted(ts, pat, env);
      }
    }
  }

  lemma NetDetectAccepted(ts: seq<Trigger>, pat: bool, env: Env)
    requires ts != [] && ValidTriggers(ts, pat, env) && ts[0].NetDetect?
    requires Enable(UnparseAll(ts[1..]), false, env) == Accepted(ts[1..])
    ensures Enable(UnparseAll(ts), pat, env) == Accepted(ts)
  {
    assert ts == [ts[0]] + ts[1..];
    ValidNetDetect(ts[0].clauses, ts[1..], env);
  }

  lemma OtherTriggerAccepted(ts: seq<Trigger>, pat: bool, env: Env)
    requires ts != [] && ValidTriggers(ts, pat, env) && !ts[0].NetDetect?
    requires Enable(UnparseAll(ts[1..]), InPatterns(ts[0]), env) == Accepted(ts[1..])
    ensures Enable(UnparseAll(ts), pat, env) == Accepted(ts)
  {
    var t, rest := ts[0], UnparseAll(ts[1..]);
    assert ts == [t] + ts[1..];
    match t {
      case Flag(name) => EnableFlag(name, rest, env);
      case Tcp(file) => EnableTcp(file, rest, env);
      case PatternsStart => EnablePatterns(rest, env);
      case PacketPattern(text) => EnablePattern(text, rest, env);
    }
  }

  lemma EnableFlag(name: string, tail: seq<string>, env: Env)
    requires IsFlag(name)
    ensures Enable([name] + tail, false, env) == Cons(Flag(name), Enable(tail, false, env))
  {
    assert ([name] + tail)[1..] == tail;
  }

  lemma EnableTcp(file: string, tail: seq<string>, env: Env)
    requires env.tcp(file) == 0
    ensures Enable(["tcp", file] + tail, false, env) == Cons(Tcp(file), Enable(tail, false, env))
  {
    assert (["tcp", file] + tail)[1..] == [file] + tail;
    assert ([file] + tail)[1..] == tail;
  }

  lemma EnablePatterns(tail: seq<string>, env: Env)
    ensures Enable(["patterns"] + tail, false, env) == Cons(PatternsStart, Enable(tail, true, env))
  {
    assert (["patterns"] + tail)[1..] == tail;
  }

  lemma EnablePattern(text: string, tail: seq<string>, env: Env)
    requires ReadPattern(text).PatternOk?
    ensures Enable([text] + tail, true, env) == Cons(PacketPattern(text), Enable(tail, true, env))
  {
    assert ([text] + tail)[1..] == tail;
  }

  lemma EnableNetDetect(tail: seq<string>, env: Env)
    requires tail != [] && Parse(START, tail, env.mac).err == 0
    ensures var r := Parse(START, tail, env.mac);
            Enable(["net-detect"] + tail, false, env) == Cons(NetDetect(r.p.clauses), Enable(r.args, false, env))
  {
    assert (["net-detect"] + tail)[1..] == tail;
  }

  lemma ValidNetDetect(cs: seq<Clause>, ts: seq<Trigger>, env: Env)
    requires Valid(cs, env.mac) && ValidTriggers(ts, false, env) && (if ts == [] then cs != [] else Closed(cs))
    requires Enable(UnparseAll(ts), false, env) == Accepted(ts)
    ensures Enable(UnparseAll([NetDetect(cs)] + ts), false, env) == Accepted([NetDetect(cs)] + ts)
  {
    var rest := UnparseAll(ts);
    if ts != [] {
      HeadIsKeyword(ts, env);
      KeywordIsForeign(rest[0]);
    }
    ValidIsAccepted(cs, rest, env.mac);
    NetDetectTriggers(cs, ts, env);
    EnableNetDetect(Unparse(cs) + rest, env);
  }

  /** The loop accepts exactly the valid trigger lists, each in one way. */
  lemma EnableAcceptsExactly(args: seq<string>, ts: seq<Trigger>, env: Env)
    ensures Enable(args, false, env) == Accepted(ts) <==> ValidTriggers(ts, false, env) && UnparseAll(ts) == args
  {
    if Enable(args, false, env) == Accepted(ts) {
      AcceptedTriggers(args, false, env);
    }
    if ValidTriggers(ts, false, env) && UnparseAll(ts) == args {
      ValidTriggersAccepted(ts, false, env);
    }
  }
}
