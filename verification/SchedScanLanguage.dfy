/** The argument lists that parse_sched_scan accepts, as a grammar of clauses. */
module SchedScanLanguage {
  import opened Agent
  import opened Tokens
  import opened Numerals
  import opened HexMask
  import opened SchedScan

  // ---------------------------------------------------------------- valid clause lists

  datatype Kind = IntervalKind | DelayOn | DelayOff | MatchOn | MatchOff | FreqsKind | ActiveKind | PassiveKind | RandomKind

  /** A delay of 0 and a match list without match leave no trace in the parser's flags. */
  function KindOf(c: Clause): (k: Kind)
  {
    match c
    case Interval(_) => IntervalKind
    case Delay(t) => if UnsignedWhole(t) == Some(0) then DelayOff else DelayOn
    case Matches(ss) => if ss == [] then MatchOff else MatchOn
    case Freqs(_) => FreqsKind
    case Active(_) => ActiveKind
    case Passive => PassiveKind
    case Random(_) => RandomKind
  }

  ghost predicate Has(cs: seq<Clause>, k: Kind)
  {
    exists i | 0 <= i < |cs| :: KindOf(cs[i]) == k
  }

  predicate EmptyList(c: Clause)
  {
    (c.Matches? && c.ssids == []) || (c.Freqs? && c.texts == []) || (c.Active? && c.ssids == [])
  }

  predicate AllNumbers(ts: seq<string>)
  {
    forall i | 0 <= i < |ts| :: UnsignedWhole(ts[i]).Some?
  }

  /** The clause is well-formed and no clause before it excludes it. */
  ghost predicate Allowed(before: seq<Clause>, c: Clause, mac: string -> bool)
  {
    match c
    case Interval(t) => !Has(before, IntervalKind) && UnsignedWhole(t).Some? && UnsignedWhole(t).value != 0
    case Delay(t) => !Has(before, DelayOn) && UnsignedWhole(t).Some?
    case Matches(_) => !Has(before, MatchOn)
    case Freqs(ts) => !Has(before, FreqsKind) && AllNumbers(ts)
    case Active(_) => !Has(before, ActiveKind) && !Has(before, PassiveKind)
    case Passive => !Has(before, ActiveKind) && !Has(before, PassiveKind)
    case Random(t) => IsRandom(t) && RandomMac(t, mac) == 0
  }

  /** Only the last clause may be a list without items. */
  predicate Closed(cs: seq<Clause>)
  {
    cs == [] || !EmptyList(cs[|cs| - 1])
  }

  ghost predicate Valid(cs: seq<Clause>, mac: string -> bool)
  {
    forall k | 0 <= k < |cs| :: Allowed(cs[..k], cs[k], mac) && Closed(cs[..k])
  }

  lemma HasAppend(cs: seq<Clause>, c: Clause, k: Kind)
    ensures Has(cs + [c], k) <==> Has(cs, k) || KindOf(c) == k
  {
    if Has(cs, k) {
      var i :| 0 <= i < |cs| && KindOf(cs[i]) == k;
      assert (cs + [c])[i] == cs[i];
    }
    if KindOf(c) == k {
      assert (cs + [c])[|cs|] == c;
    }
  }

  lemma PrefixOf(cs: seq<Clause>, c: Clause, k: nat)
    requires k <= |cs|
    ensures (cs + [c])[..k] == cs[..k] && (k < |cs| ==> (cs + [c])[k] == cs[k]) && (cs + [c])[..|cs|] == cs
  {
  }

  lemma ValidAppend(cs: seq<Clause>, c: Clause, mac: string -> bool)
    ensures Valid(cs + [c], mac) <==> Valid(cs, mac) && Allowed(cs, c, mac) && Closed(cs)
  {
    var ds := cs + [c];
    if Valid(ds, mac) {
      PrefixOf(cs, c, |cs|);
      assert Allowed(ds[..|cs|], ds[|cs|], mac) && Closed(ds[..|cs|]);
      forall k | 0 <= k < |cs| ensures Allowed(cs[..k], cs[k], mac) && Closed(cs[..k]) {
        PrefixOf(cs, c, k);
        assert Allowed(ds[..k], ds[k], mac) && Closed(ds[..k]);
      }
    }
    if Valid(cs, mac) && Allowed(cs, c, mac) && Closed(cs) {
      forall k | 0 <= k < |ds| ensures Allowed(ds[..k], ds[k], mac) && Closed(ds[..k]) {
        PrefixOf(cs, c, k);
      }
    }
  }

  // ---------------------------------------------------------------- what the parser's variables say

  ghost predicate Flags(p: Parser)
  {
    && (p.interval != 0 <==> Has(p.clauses, IntervalKind)) && (p.delay != 0 <==> Has(p.clauses, DelayOn))
    && (p.haveMatch <==> Has(p.clauses, MatchOn)) && (p.haveFreqs <==> Has(p.clauses, FreqsKind))
    && (p.haveActive <==> Has(p.clauses, ActiveKind)) && (p.havePassive <==> Has(p.clauses, PassiveKind))
  }

  /** The mode says which list is being read, and i how many items it has. */
  predicate InStep(p: Parser)
  {
    && (p.mode == Top ==> Closed(p.clauses))
    && (p.mode != Top ==> p.clauses != [])
    && (p.mode == InMatch ==> p.clauses[|p.clauses| - 1].Matches? && |p.clauses[|p.clauses| - 1].ssids| == p.i)
    && (p.mode == InFreqs ==> p.clauses[|p.clauses| - 1].Freqs? && |p.clauses[|p.clauses| - 1].texts| == p.i)
    && (p.mode == InActive ==> p.clauses[|p.clauses| - 1].Active? && |p.clauses[|p.clauses| - 1].ssids| == p.i)
  }

  ghost predicate Tied(p: Parser, mac: string -> bool)
  {
    Valid(p.clauses, mac) && Flags(p) && InStep(p)
  }

  /** q is p after a clause has been added. */
  predicate Added(p: Parser, c: Clause, q: Parser)
  {
    && q.clauses == p.clauses + [c]
    && (q.interval != 0 <==> p.interval != 0 || c.Interval?)
    && (q.delay != 0 <==> p.delay != 0 || KindOf(c) == DelayOn)
    && q.haveMatch == (p.haveMatch || KindOf(c) == MatchOn) && q.haveFreqs == (p.haveFreqs || c.Freqs?)
    && q.haveActive == (p.haveActive || c.Active?) && q.havePassive == (p.havePassive || c.Passive?)
  }

  lemma AddedTied(p: Parser, c: Clause, q: Parser, mac: string -> bool)
    requires Flags(p) && Valid(p.clauses, mac) && Closed(p.clauses)
    requires Added(p, c, q) && Allowed(p.clauses, c, mac) && InStep(q)
    ensures Tied(q, mac)
  {
    ValidAppend(p.clauses, c, mac);
    HasAppend(p.clauses, c, IntervalKind);
    HasAppend(p.clauses, c, DelayOn);
    HasAppend(p.clauses, c, MatchOn);
    HasAppend(p.clauses, c, FreqsKind);
    HasAppend(p.clauses, c, ActiveKind);
    HasAppend(p.clauses, c, PassiveKind);
  }

  // ---------------------------------------------------------------- tokens

  lemma {:induction false} UnparseAppend(cs: seq<Clause>, c: Clause)
    ensures Unparse(cs + [c]) == Unparse(cs) + ClauseTokens(c)
  {
    if cs == [] {
      assert [c][1..] == [] && Unparse([c]) == ClauseTokens(c) + Unparse([]);
    } else {
      assert (cs + [c])[1..] == cs[1..] + [c];
      UnparseAppend(cs[1..], c);
    }
  }

  lemma {:induction false} SsidTokensAppend(ss: seq<string>, x: string)
    ensures SsidTokens(ss + [x]) == SsidTokens(ss) + ["ssid", x]
  {
    if ss == [] {
      assert [x][1..] == [] && SsidTokens([x]) == ["ssid", x] + SsidTokens([]);
    } else {
      assert (ss + [x])[1..] == ss[1..] + [x];
      SsidTokensAppend(ss[1..], x);
    }
  }

  /** A token that no clause begins with. */
  predicate Foreign(t: string)
  {
    && t != "interval" && t != "delay" && t != "matches" && t != "freqs" && t != "active" && t != "passive"
    && !IsRandom(t)
  }

  // ---------------------------------------------------------------- soundness

  /** What one step keeps: the variables fit the clauses, and clauses plus arguments left are the input. */
  ghost predicate Keeps(p: Parser, args: seq<string>, next: Next, mac: string -> bool)
  {
    && (next.Go? ==> Tied(next.p, mac) && Unparse(next.p.clauses) + next.args == Unparse(p.clauses) + args)
    && (next.Stop? && next.err == 0 ==>
          next.p == p && next.args == args && args != [] && Foreign(args[0]) && p.mode == Top)
  }

  lemma TopAdds(p: Parser, args: seq<string>, c: Clause, next: Next, mac: string -> bool)
    requires Tied(p, mac) && p.mode == Top && next.Go? && Added(p, c, next.p) && InStep(next.p)
    requires Allowed(p.clauses, c, mac) && args == ClauseTokens(c) + next.args
    ensures Keeps(p, args, next, mac)
  {
    AddedTied(p, c, next.p, mac);
    TokensMove(p.clauses, c, next.args);
  }

  lemma TokensMove(cs: seq<Clause>, c: Clause, rest: seq<string>)
    ensures Unparse(cs + [c]) + rest == Unparse(cs) + (ClauseTokens(c) + rest)
  {
    UnparseAppend(cs, c);
  }

  lemma NumberClauseKeeps(p: Parser, args: seq<string>, mac: string -> bool)
    requires Tied(p, mac) && p.mode == Top && args != [] && (args[0] == "interval" || args[0] == "delay")
    ensures Keeps(p, args, StepTop(p, args, mac), mac)
  {
    var next := StepTop(p, args, mac);
    if next.Go? {
      assert args == [args[0], args[1]] + args[2..] && args[1..][1..] == args[2..] && args[1..][0] == args[1];
      if args[0] == "interval" {
        TopAdds(p, args, Interval(args[1]), next, mac);
      } else {
        TopAdds(p, args, Delay(args[1]), next, mac);
      }
    }
  }

  lemma MatchesKeeps(p: Parser, args: seq<string>, mac: string -> bool)
    requires Tied(p, mac) && p.mode == Top && args != [] && args[0] == "matches"
    ensures Keeps(p, args, StepTop(p, args, mac), mac)
  {
    var next := StepTop(p, args, mac);
    if next.Go? {
      ListTokens(Matches([]), args);
      TopAdds(p, args, Matches([]), next, mac);
    }
  }

  lemma FreqsKeeps(p: Parser, args: seq<string>, mac: string -> bool)
    requires Tied(p, mac) && p.mode == Top && args != [] && args[0] == "freqs"
    ensures Keeps(p, args, StepTop(p, args, mac), mac)
  {
    var next := StepTop(p, args, mac);
    if next.Go? {
      ListTokens(Freqs([]), args);
      TopAdds(p, args, Freqs([]), next, mac);
    }
  }

  lemma ActiveKeeps(p: Parser, args: seq<string>, mac: string -> bool)
    requires Tied(p, mac) && p.mode == Top && args != [] && args[0] == "active"
    ensures Keeps(p, args, StepTop(p, args, mac), mac)
  {
    var next := StepTop(p, args, mac);
    if next.Go? {
      ListTokens(Active([]), args);
      TopAdds(p, args, Active([]), next, mac);
    }
  }

  lemma ListTokens(c: Clause, args: seq<string>)
    requires EmptyList(c) && args != [] && args[0] == ClauseTokens(c)[0]
    ensures args == ClauseTokens(c) + args[1..]
  {
  }

  lemma TopKeeps(p: Parser, args: seq<string>, mac: string -> bool)
    requires Tied(p, mac) && p.mode == Top && args != []
    ensures Keeps(p, args, StepTop(p, args, mac), mac)
  {
    var next := StepTop(p, args, mac);
    var t := args[0];
    assert args == [t] + args[1..];
    if t == "interval" || t == "delay" {
      NumberClauseKeeps(p, args, mac);
    } else if t == "matches" {
      MatchesKeeps(p, args, mac);
    } else if t == "freqs" {
      FreqsKeeps(p, args, mac);
    } else if t == "active" {
      ActiveKeeps(p, args, mac);
    } else if next.Go? {
      TopAdds(p, args, if t == "passive" then Passive else Random(t), next, mac);
    }
  }

  /** The last list gets one more item. */
  lemma ExtendTied(p: Parser, x: string, mac: string -> bool)
    requires Tied(p, mac) && p.mode != Top && (p.mode == InFreqs ==> UnsignedWhole(x).Some?)
    ensures Tied(Extend(p, x), mac)
  {
    ExtendValid(p, x, mac);
    ExtendKeepsFlags(p, x);
    ExtendInStep(p, x);
  }

  /** The list is what comes before the last clause, and the last clause. */
  lemma ExtendShape(p: Parser, x: string)
    requires p.clauses != []
    ensures var n := |p.clauses| - 1;
            && p.clauses == p.clauses[..n] + [p.clauses[n]]
            && Extend(p, x).clauses == p.clauses[..n] + [WithItems(p.clauses[n], [x])]
  {
  }

  lemma ExtendValid(p: Parser, x: string, mac: string -> bool)
    requires Valid(p.clauses, mac) && InStep(p) && p.mode != Top && (p.mode == InFreqs ==> UnsignedWhole(x).Some?)
    ensures Valid(Extend(p, x).clauses, mac)
  {
    var n := |p.clauses| - 1;
    ExtendShape(p, x);
    ItemAllowed(p.clauses[..n], p.clauses[n], x, mac);
  }

  lemma ExtendKeepsFlags(p: Parser, x: string)
    requires Flags(p) && InStep(p) && p.mode != Top
    ensures Flags(Extend(p, x))
  {
    var n := |p.clauses| - 1;
    assert p.clauses == p.clauses[..n] + [p.clauses[n]];
    ExtendFlags(p, p.clauses[..n], p.clauses[n], Extend(p, x), WithItems(p.clauses[n], [x]));
  }

  /** A clause that is allowed stays so with one more item. */
  lemma MoreIsAllowed(before: seq<Clause>, c: Clause, x: string, mac: string -> bool)
    requires Allowed(before, c, mac) && (c.Freqs? ==> UnsignedWhole(x).Some?)
    ensures Allowed(before, WithItems(c, [x]), mac)
  {
  }

  /** The last clause of a valid list, and what is before it. */
  lemma LastIsAllowed(before: seq<Clause>, c: Clause, mac: string -> bool)
    requires Valid(before + [c], mac)
    ensures Valid(before, mac) && Allowed(before, c, mac) && Closed(before)
  {
    ValidAppend(before, c, mac);
  }

  lemma LastMayFollow(before: seq<Clause>, d: Clause, mac: string -> bool)
    requires Valid(before, mac) && Allowed(before, d, mac) && Closed(before)
    ensures Valid(before + [d], mac)
  {
    ValidAppend(before, d, mac);
  }

  lemma ItemAllowed(before: seq<Clause>, c: Clause, x: string, mac: string -> bool)
    requires Valid(before + [c], mac) && (c.Freqs? ==> UnsignedWhole(x).Some?)
    ensures Valid(before + [WithItems(c, [x])], mac)
  {
    LastIsAllowed(before, c, mac);
    MoreIsAllowed(before, c, x, mac);
    LastMayFollow(before, WithItems(c, [x]), mac);
  }

  lemma ExtendInStep(p: Parser, x: string)
    requires InStep(p) && p.mode != Top
    ensures InStep(Extend(p, x))
  {
  }

  lemma ExtendTokens(p: Parser, x: string)
    requires p.mode != Top && InStep(p)
    ensures Unparse(Extend(p, x).clauses) == Unparse(p.clauses) + if p.mode == InFreqs then [x] else ["ssid", x]
  {
    var n := |p.clauses| - 1;
    var before, c := p.clauses[..n], p.clauses[n];
    var d := Extend(p, x).clauses[n];
    assert p.clauses == before + [c] && Extend(p, x).clauses == before + [d];
    UnparseAppend(before, c);
    UnparseAppend(before, d);
    if p.mode == InFreqs {
      ItemMoves(Unparse(before), "freqs", c.texts, [x]);
    } else {
      SsidTokensAppend(c.ssids, x);
      ItemMoves(Unparse(before), ClauseTokens(c)[0], SsidTokens(c.ssids), ["ssid", x]);
    }
  }

  lemma ItemMoves(before: seq<string>, t: string, items: seq<string>, more: seq<string>)
    ensures before + ([t] + (items + more)) == before + ([t] + items) + more
  {
  }

  lemma ExtendFlags(p: Parser, before: seq<Clause>, c: Clause, q: Parser, d: Clause)
    requires Flags(p) && p.clauses == before + [c] && q.clauses == before + [d]
    requires (c.Matches? && d.Matches? && d.ssids != []) || (c.Freqs? && d.Freqs?) || (c.Active? && d.Active?)
    requires q.interval == p.interval && q.delay == p.delay && q.haveFreqs == p.haveFreqs
    requires q.haveActive == p.haveActive && q.havePassive == p.havePassive
    requires q.haveMatch == (p.haveMatch || c.Matches?)
    ensures Flags(q)
  {
    forall k ensures Has(q.clauses, k) <==> Has(before, k) || KindOf(d) == k {
      HasAppend(before, d, k);
    }
    forall k ensures Has(p.clauses, k) <==> Has(before, k) || KindOf(c) == k {
      HasAppend(before, c, k);
    }
  }

  lemma ExtendMoves(p: Parser, x: string, rest: seq<string>)
    requires p.mode != Top && InStep(p)
    ensures Unparse(Extend(p, x).clauses) + rest
         == Unparse(p.clauses) + ((if p.mode == InFreqs then [x] else ["ssid", x]) + rest)
  {
    ExtendTokens(p, x);
    Assoc(Unparse(p.clauses), if p.mode == InFreqs then [x] else ["ssid", x], rest);
  }

  lemma Assoc(a: seq<string>, b: seq<string>, c: seq<string>)
    ensures (a + b) + c == a + (b + c)
  {
  }

  lemma ExtendKeeps(p: Parser, x: string, rest: seq<string>, mac: string -> bool)
    requires Tied(p, mac) && p.mode != Top && (p.mode == InFreqs ==> UnsignedWhole(x).Some?)
    ensures Keeps(p, (if p.mode == InFreqs then [x] else ["ssid", x]) + rest, Go(Extend(p, x), rest), mac)
  {
    ExtendTied(p, x, mac);
    ExtendMoves(p, x, rest);
  }

  /** Leaving a list that has an item. */
  lemma LeaveKeeps(p: Parser, args: seq<string>, mac: string -> bool)
    requires Tied(p, mac) && p.mode != Top && p.i != 0
    ensures Keeps(p, args, Go(p.(mode := Top), args), mac)
  {
  }

  lemma FreqsKeep(p: Parser, args: seq<string>, mac: string -> bool)
    requires Tied(p, mac) && p.mode == InFreqs && args != []
    ensures Keeps(p, args, StepFreqs(p, args), mac)
  {
    var x, rest := args[0], args[1..];
    if UnsignedWhole(x).Some? {
      ExtendKeeps(p, x, rest, mac);
      assert args == [x] + rest && StepFreqs(p, args) == Go(Extend(p, x), rest);
    } else if p.i != 0 {
      LeaveKeeps(p, args, mac);
    }
  }

  lemma SsidsKeep(p: Parser, args: seq<string>, mac: string -> bool)
    requires Tied(p, mac) && (p.mode == InMatch || p.mode == InActive) && args != []
    ensures Keeps(p, args, StepSsids(p, args), mac)
  {
    if args[0] == "ssid" {
      if |args| > 1 {
        assert args == ["ssid", args[1]] + args[2..];
        ExtendKeeps(p, args[1], args[2..], mac);
      }
    } else if p.i != 0 {
      LeaveKeeps(p, args, mac);
    }
  }

  lemma StepKeeps(p: Parser, args: seq<string>, mac: string -> bool)
    requires Tied(p, mac) && args != []
    ensures Keeps(p, args, Step(p, args, mac), mac)
  {
    if p.mode == Top {
      TopKeeps(p, args, mac);
    } else if p.mode == InFreqs {
      FreqsKeep(p, args, mac);
    } else {
      SsidsKeep(p, args, mac);
    }
  }

  lemma {:induction false} ParseKeeps(p: Parser, args: seq<string>, mac: string -> bool)
    requires Tied(p, mac)
    ensures var r := Parse(p, args, mac);
            r.err == 0 ==>
              && Tied(r.p, mac) && Unparse(r.p.clauses) + r.args == Unparse(p.clauses) + args
              && (r.args != [] ==> Foreign(r.args[0]) && r.p.mode == Top)
    decreases |args|, if p.mode == Top then 0 else 1
  {
    if args != [] {
      StepKeeps(p, args, mac);
      var next := Step(p, args, mac);
      if next.Go? {
        ParseKeeps(next.p, next.args, mac);
      }
    }
  }

  /** Accepted arguments are valid clauses, followed by what begins no clause. */
  lemma AcceptedIsValid(argv: seq<string>, mac: string -> bool)
    ensures var r := Parse(START, argv, mac);
            r.err == 0 ==>
              && Valid(r.p.clauses, mac) && argv == Unparse(r.p.clauses) + r.args
              && (r.args != [] ==> Foreign(r.args[0]) && Closed(r.p.clauses))
  {
    ParseKeeps(START, argv, mac);
  }

  // ---------------------------------------------------------------- completeness

  lemma NotNumber(t: string)
    requires t != "" && 'a' <= t[0] <= 'z'
    ensures UnsignedWhole(t).None?
  {
    assert SkipSpace(t) == t;
  }

  /** The first token of a clause ends any list before it. */
  lemma ClauseHead(before: seq<Clause>, c: Clause, mac: string -> bool)
    requires Allowed(before, c, mac)
    ensures var t := ClauseTokens(c)[0]; t != "ssid" && UnsignedWhole(t).None?
  {
    var t := ClauseTokens(c)[0];
    if c.Random? {
      assert t[..9][0] == t[0];
    }
    NotNumber(t);
  }

  lemma Leave(p: Parser, args: seq<string>, mac: string -> bool)
    requires Tied(p, mac) && Closed(p.clauses) && args != [] && args[0] != "ssid" && UnsignedWhole(args[0]).None?
    ensures Parse(p, args, mac) == Parse(p.(mode := Top), args, mac) && Tied(p.(mode := Top), mac)
  {
    if p.mode != Top {
      assert Step(p, args, mac) == Go(p.(mode := Top), args);
    }
  }

  function ExtendAll(p: Parser, items: seq<string>): (q: Parser)
    decreases |items|
  {
    if items == [] then p else ExtendAll(Extend(p, items[0]), items[1..])
  }

  lemma WithMoreItems(c: Clause, x: string, items: seq<string>)
    ensures WithItems(WithItems(c, [x]), items) == WithItems(c, [x] + items) && WithItems(c, []) == c
  {
    if c.Freqs? {
      assert c.texts + [x] + items == c.texts + ([x] + items) && c.texts + [] == c.texts;
    } else if c.Matches? || c.Active? {
      assert c.ssids + [x] + items == c.ssids + ([x] + items) && c.ssids + [] == c.ssids;
    }
  }

  lemma {:induction false} ExtendAllClauses(p: Parser, before: seq<Clause>, c: Clause, items: seq<string>)
    requires p.clauses == before + [c]
    ensures ExtendAll(p, items).clauses == before + [WithItems(c, items)]
    decreases |items|
  {
    if items == [] {
      WithMoreItems(c, "", []);
    } else {
      assert p.clauses[..|before|] == before;
      ExtendAllClauses(Extend(p, items[0]), before, WithItems(c, [items[0]]), items[1..]);
      WithMoreItems(c, items[0], items[1..]);
      assert [items[0]] + items[1..] == items;
    }
  }

  lemma SsidStep(p: Parser, x: string, rest: seq<string>, mac: string -> bool)
    requires p.mode == InMatch || p.mode == InActive
    ensures Parse(p, ["ssid", x] + rest, mac) == Parse(Extend(p, x), rest, mac)
  {
    assert (["ssid", x] + rest)[2..] == rest;
  }

  lemma FreqStep(p: Parser, x: string, rest: seq<string>, mac: string -> bool)
    requires p.mode == InFreqs && UnsignedWhole(x).Some?
    ensures Parse(p, [x] + rest, mac) == Parse(Extend(p, x), rest, mac)
  {
    assert ([x] + rest)[1..] == rest;
  }

  lemma {:induction false} ReadSsids(p: Parser, ss: seq<string>, rest: seq<string>, mac: string -> bool)
    requires p.mode == InMatch || p.mode == InActive
    ensures Parse(p, SsidTokens(ss) + rest, mac) == Parse(ExtendAll(p, ss), rest, mac)
    decreases |ss|
  {
    if ss == [] {
      assert SsidTokens(ss) + rest == rest;
    } else {
      Assoc(["ssid", ss[0]], SsidTokens(ss[1..]), rest);
      SsidStep(p, ss[0], SsidTokens(ss[1..]) + rest, mac);
      ReadSsids(Extend(p, ss[0]), ss[1..], rest, mac);
    }
  }

  lemma {:induction false} ReadFreqs(p: Parser, ts: seq<string>, rest: seq<string>, mac: string -> bool)
    requires p.mode == InFreqs && AllNumbers(ts)
    ensures Parse(p, ts + rest, mac) == Parse(ExtendAll(p, ts), rest, mac)
    decreases |ts|
  {
    if ts == [] {
      assert ts + rest == rest;
    } else {
      assert ts + rest == [ts[0]] + (ts[1..] + rest);
      FreqStep(p, ts[0], ts[1..] + rest, mac);
      ReadFreqs(Extend(p, ts[0]), ts[1..], rest, mac);
    }
  }

  lemma {:induction false} ExtendAllTied(p: Parser, items: seq<string>, mac: string -> bool)
    requires Tied(p, mac) && p.mode != Top && (p.mode == InFreqs ==> AllNumbers(items))
    ensures Tied(ExtendAll(p, items), mac)
    decreases |items|
  {
    if items != [] {
      ExtendTied(p, items[0], mac);
      ExtendAllTied(Extend(p, items[0]), items[1..], mac);
    }
  }

  /** One step at top level reads a clause, or the keyword of a list. */
  lemma ReadHead(p: Parser, c: Clause, rest: seq<string>, mac: string -> bool) returns (q: Parser)
    requires Tied(p, mac) && p.mode == Top && Allowed(p.clauses, c, mac)
    requires (c.Matches? || c.Active?) ==> c.ssids == []
    requires c.Freqs? ==> c.texts == []
    ensures Parse(p, ClauseTokens(c) + rest, mac) == Parse(q, rest, mac)
    ensures Tied(q, mac) && q.clauses == p.clauses + [c]
    ensures (c.Matches? ==> q.mode == InMatch) && (c.Active? ==> q.mode == InActive) && (c.Freqs? ==> q.mode == InFreqs)
  {
    var args := ClauseTokens(c) + rest;
    HeadStep(p, c, rest, mac);
    TopKeeps(p, args, mac);
    q := Step(p, args, mac).p;
  }

  lemma HeadStep(p: Parser, c: Clause, rest: seq<string>, mac: string -> bool)
    requires Tied(p, mac) && p.mode == Top && Allowed(p.clauses, c, mac)
    requires (c.Matches? || c.Active?) ==> c.ssids == []
    requires c.Freqs? ==> c.texts == []
    ensures var next := StepTop(p, ClauseTokens(c) + rest, mac);
            && next.Go? && next.args == rest && next.p.clauses == p.clauses + [c]
            && (c.Matches? ==> next.p.mode == InMatch) && (c.Active? ==> next.p.mode == InActive)
            && (c.Freqs? ==> next.p.mode == InFreqs)
  {
    if c.Interval? || c.Delay? {
      NumberStep(p, c, rest, mac);
    } else {
      WordStep(p, c, rest, mac);
    }
  }

  lemma NumberStep(p: Parser, c: Clause, rest: seq<string>, mac: string -> bool)
    requires Flags(p) && Allowed(p.clauses, c, mac) && (c.Interval? || c.Delay?)
    ensures var next := StepTop(p, ClauseTokens(c) + rest, mac);
            next.Go? && next.args == rest && next.p.clauses == p.clauses + [c]
  {
    assert (ClauseTokens(c) + rest)[1..][1..] == rest && (ClauseTokens(c) + rest)[1..][0] == c.text;
  }

  lemma WordStep(p: Parser, c: Clause, rest: seq<string>, mac: string -> bool)
    requires Flags(p) && Allowed(p.clauses, c, mac) && !c.Interval? && !c.Delay?
    requires (c.Matches? || c.Active?) ==> c.ssids == []
    requires c.Freqs? ==> c.texts == []
    ensures var next := StepTop(p, ClauseTokens(c) + rest, mac);
            && next.Go? && next.args == rest && next.p.clauses == p.clauses + [c]
            && (c.Matches? ==> next.p.mode == InMatch) && (c.Active? ==> next.p.mode == InActive)
            && (c.Freqs? ==> next.p.mode == InFreqs)
  {
    assert (ClauseTokens(c) + rest)[1..] == rest;
  }

  /** The keyword of a list and its items. */
  lemma ReadList(p: Parser, c: Clause, items: seq<string>, rest: seq<string>, mac: string -> bool) returns (q: Parser)
    requires Tied(p, mac) && p.mode == Top && Allowed(p.clauses, c, mac) && EmptyList(c)
    requires c.Freqs? ==> AllNumbers(items)
    ensures var tokens := if c.Freqs? then items else SsidTokens(items);
            Parse(p, ClauseTokens(c) + (tokens + rest), mac) == Parse(q, rest, mac)
    ensures Tied(q, mac) && q.clauses == p.clauses + [WithItems(c, items)]
  {
    var tokens := if c.Freqs? then items else SsidTokens(items);
    var h := ReadHead(p, c, tokens + rest, mac);
    if c.Freqs? {
      ReadFreqs(h, items, rest, mac);
    } else {
      ReadSsids(h, items, rest, mac);
    }
    ExtendAllTied(h, items, mac);
    ExtendAllClauses(h, p.clauses, c, items);
    q := ExtendAll(h, items);
  }

  lemma ReadClause(p: Parser, c: Clause, rest: seq<string>, mac: string -> bool) returns (q: Parser)
    requires Tied(p, mac) && p.mode == Top && Allowed(p.clauses, c, mac)
    ensures Parse(p, ClauseTokens(c) + rest, mac) == Parse(q, rest, mac)
    ensures Tied(q, mac) && q.clauses == p.clauses + [c]
  {
    match c {
      case Matches(ss) =>
        Assoc(["matches"], SsidTokens(ss), rest);
        q := ReadList(p, Matches([]), ss, rest, mac);
        assert [] + ss == ss && ["matches"] + [] == ["matches"];
      case Active(ss) =>
        Assoc(["active"], SsidTokens(ss), rest);
        q := ReadList(p, Active([]), ss, rest, mac);
        assert [] + ss == ss && ["active"] + [] == ["active"];
      case Freqs(ts) =>
        Assoc(["freqs"], ts, rest);
        q := ReadList(p, Freqs([]), ts, rest, mac);
        assert [] + ts == ts && ["freqs"] + [] == ["freqs"];
      case Interval(_) => q := ReadHead(p, c, rest, mac);
      case Delay(_) => q := ReadHead(p, c, rest, mac);
      case Passive => q := ReadHead(p, c, rest, mac);
      case Random(_) => q := ReadHead(p, c, rest, mac);
    }
  }

  lemma UnparseFront(cs: seq<Clause>, rest: seq<string>)
    requires cs != []
    ensures Unparse(cs) + rest == ClauseTokens(cs[0]) + (Unparse(cs[1..]) + rest)
  {
    Assoc(ClauseTokens(cs[0]), Unparse(cs[1..]), rest);
  }

  lemma FrontMoves(before: seq<Clause>, cs: seq<Clause>)
    requires cs != []
    ensures before + cs == (before + [cs[0]]) + cs[1..]
  {
  }

  lemma NextIsAllowed(before: seq<Clause>, cs: seq<Clause>, all: seq<Clause>, mac: string -> bool)
    requires Valid(all, mac) && all == before + cs && cs != []
    ensures Allowed(before, cs[0], mac) && Closed(before)
  {
    var n := |before|;
    assert all[..n] == before && all[n] == cs[0];
    assert Allowed(all[..n], all[n], mac) && Closed(all[..n]);
  }

  /** A clause at the front of the arguments, in whatever list the parser is. */
  lemma ReadFront(p: Parser, c: Clause, rest: seq<string>, mac: string -> bool) returns (q: Parser)
    requires Tied(p, mac) && Allowed(p.clauses, c, mac) && Closed(p.clauses)
    ensures Parse(p, ClauseTokens(c) + rest, mac) == Parse(q, rest, mac)
    ensures Tied(q, mac) && q.clauses == p.clauses + [c]
  {
    ClauseHead(p.clauses, c, mac);
    Leave(p, ClauseTokens(c) + rest, mac);
    q := ReadClause(p.(mode := Top), c, rest, mac);
  }

  /** The clauses cs are what is missing to all. */
  lemma {:induction false} ReadClauses(p: Parser, cs: seq<Clause>, all: seq<Clause>, rest: seq<string>, mac: string -> bool)
    returns (q: Parser)
    requires Tied(p, mac) && Valid(all, mac) && all == p.clauses + cs
    ensures Parse(p, Unparse(cs) + rest, mac) == Parse(q, rest, mac)
    ensures Tied(q, mac) && q.clauses == all
    decreases |cs|
  {
    if cs == [] {
      q := p;
      assert Unparse(cs) + rest == rest;
    } else {
      NextIsAllowed(p.clauses, cs, all, mac);
      UnparseFront(cs, rest);
      var q1 := ReadFront(p, cs[0], Unparse(cs[1..]) + rest, mac);
      FrontMoves(p.clauses, cs);
      q := ReadClauses(q1, cs[1..], all, rest, mac);
    }
  }

  /** Every valid clause list is read back from its arguments, up to an argument that begins no clause. */
  lemma ValidIsAccepted(cs: seq<Clause>, rest: seq<string>, mac: string -> bool)
    requires Valid(cs, mac)
    requires rest != [] ==> Foreign(rest[0]) && rest[0] != "ssid" && UnsignedWhole(rest[0]).None? && Closed(cs)
    ensures var r := Parse(START, Unparse(cs) + rest, mac); r.err == 0 && r.args == rest && r.p.clauses == cs
  {
    assert START.clauses + cs == cs;
    var q := ReadClauses(START, cs, cs, rest, mac);
    if rest != [] {
      Leave(q, rest, mac);
    }
  }

  /** The whole argument list is accepted as the clauses cs if and only if cs is valid and written that way. */
  lemma AcceptsExactly(argv: seq<string>, cs: seq<Clause>, mac: string -> bool)
    ensures var r := Parse(START, argv, mac);
            r.err == 0 && r.args == [] && r.p.clauses == cs <==> Valid(cs, mac) && Unparse(cs) == argv
  {
    var r := Parse(START, argv, mac);
    AcceptedIsValid(argv, mac);
    if r.err == 0 && r.args == [] && r.p.clauses == cs {
      assert Unparse(cs) + [] == Unparse(cs);
    }
    if Valid(cs, mac) && Unparse(cs) == argv {
      ValidIsAccepted(cs, [], mac);
      assert Unparse(cs) + [] == argv;
    }
  }

  /** No argument list can be read in two ways. */
  lemma Unambiguous(cs: seq<Clause>, ds: seq<Clause>, mac: string -> bool)
    requires Valid(cs, mac) && Valid(ds, mac) && Unparse(cs) == Unparse(ds)
    ensures cs == ds
  {
    AcceptsExactly(Unparse(cs), cs, mac);
    AcceptsExactly(Unparse(cs), ds, mac);
  }

  /** At most one interval, one frequency list, one match list, and one of active and passive. */
  lemma AtMostOne(cs: seq<Clause>, i: nat, j: nat, mac: string -> bool)
    requires Valid(cs, mac) && i < j < |cs|
    ensures !(cs[i].Interval? && cs[j].Interval?) && !(cs[i].Freqs? && cs[j].Freqs?)
    ensures !(cs[i].Matches? && cs[j].Matches?)
    ensures !((cs[i].Active? || cs[i].Passive?) && (cs[j].Active? || cs[j].Passive?))
    ensures cs[i].Delay? && cs[j].Delay? ==> UnsignedWhole(cs[i].text) == Some(0)
    ensures !EmptyList(cs[i])
  {
    assert Allowed(cs[..j], cs[j], mac);
    assert cs[..j][i] == cs[i];
    assert Closed(cs[..i + 1]) && cs[..i + 1][i] == cs[i];
    assert Has(cs[..j], KindOf(cs[i]));
  }
}
