/**
  The argument loop of handle_scan in iw-4.3/scan.c.  An argument that is no frequency is looked at a second time,
  as a keyword: the index steps back by one.
 */
module ScanArgs {
  import opened Agent
  import opened Tokens
  import opened Numerals
  import opened HexMask
  import opened SchedScan
  import opened SchedScanLanguage

  datatype ScanMode = Neutral | InFreq | InIes | InSsid | InMeshid | Finished

  /** The role of one argument. */
  datatype Item =
    | FreqWord | FreqValue(text: string)
    | IesWord | IesValue(text: string)
    | FlagWord(word: string)
    | Randomise(text: string)
    | SsidWord | SsidValue(text: string)
    | PassiveWord
    | MeshidWord | MeshidValue(text: string)

  function Text(x: Item): (s: string)
  {
    match x
    case FreqWord => "freq"
    case IesWord => "ies"
    case SsidWord => "ssid"
    case PassiveWord => "passive"
    case MeshidWord => "meshid"
    case FlagWord(word) => word
    case FreqValue(t) => t
    case IesValue(t) => t
    case Randomise(t) => t
    case SsidValue(t) => t
    case MeshidValue(t) => t
  }

  function Texts(xs: seq<Item>): (args: seq<string>)
    ensures |args| == |xs|
  {
    if xs == [] then [] else [Text(xs[0])] + Texts(xs[1..])
  }

  function After(x: Item): (m: ScanMode)
  {
    match x
    case FreqWord => InFreq
    case FreqValue(_) => InFreq
    case IesWord => InIes
    case SsidWord => InSsid
    case SsidValue(_) => InSsid
    case PassiveWord => Finished
    case MeshidWord => InMeshid
    case IesValue(_) => Neutral
    case FlagWord(_) => Neutral
    case Randomise(_) => Neutral
    case MeshidValue(_) => Neutral
  }

  predicate IsFlagWord(t: string)
  {
    t == "lowpri" || t == "flush" || t == "ap-force"
  }

  /** The role a keyword gives to an argument. */
  function Keyword(t: string): (x: Option<Item>)
    ensures x.Some? ==> Text(x.value) == t
  {
    if t == "freq" then Some(FreqWord)
    else if t == "ies" then Some(IesWord)
    else if IsFlagWord(t) then Some(FlagWord(t))
    else if IsRandom(t) then Some(Randomise(t))
    else if t == "ssid" then Some(SsidWord)
    else if t == "passive" then Some(PassiveWord)
    else if t == "meshid" then Some(MeshidWord)
    else None
  }

  /** The return value of the loop, or the roles of all arguments. */
  datatype Outcome = Roles(items: seq<Item>) | Return(err: int) | Crashed

  function Cons(x: Item, r: Outcome): (q: Outcome)
  {
    if r.Roles? then Roles([x] + r.items) else r
  }

  const ENOBUFS: int := -105

  /** The loop from a state on; err is what a jump to the end would return. */
  function Scan(args: seq<string>, m: ScanMode, err: int, mac: string -> bool): (r: Outcome)
    decreases |args|, if m == InFreq then 1 else 0
  {
    if args == [] then Roles([])
    else
      var t, rest := args[0], args[1..];
      match m
      case Neutral =>
        var x := Keyword(t);
        if x.None? then Return(1)
        else if x.value.Randomise? then
          if RandomMac(t, mac) != 0 then Return(RandomMac(t, mac)) else Cons(x.value, Scan(rest, Neutral, 0, mac))
        else Cons(x.value, Scan(rest, After(x.value), err, mac))
      case Finished => Return(1)
      case InFreq =>
        if UnsignedWhole(t).Some? then Cons(FreqValue(t), Scan(rest, InFreq, err, mac)) else Scan(args, Neutral, err, mac)
      case InIes =>
        (match ParseText(t, false)
         case Rejected => Return(err)
         case Overrun => Crashed
         case Parsed(_) => Cons(IesValue(t), Scan(rest, Neutral, err, mac)))
      case InSsid => Cons(SsidValue(t), Scan(rest, InSsid, err, mac))
      case InMeshid => Cons(MeshidValue(t), Scan(rest, Neutral, err, mac))
  }

  // ---------------------------------------------------------------- the loop

  function Prepend(done: seq<Item>, r: Outcome): (q: Outcome)
  {
    if r.Roles? then Roles(done + r.items) else r
  }

  lemma PrependCons(done: seq<Item>, x: Item, r: Outcome)
    ensures Prepend(done, Cons(x, r)) == Prepend(done + [x], r)
  {
    if r.Roles? {
      assert done + ([x] + r.items) == (done + [x]) + r.items;
    }
  }

  /** The switch: the role of argument t, the end of the loop, or neither when t is to be looked at again. */
  method OneArgument(t: string, parse: ScanMode, err0: int, mac: string -> bool, ghost args: seq<string>)
    returns (end: Option<Outcome>, x: Option<Item>, err: int)
    requires args != [] && args[0] == t
    ensures end.Some? ==> Scan(args, parse, err0, mac) == end.value && !end.value.Roles?
    ensures end.None? && x.Some? ==>
              Scan(args, parse, err0, mac) == Cons(x.value, Scan(args[1..], After(x.value), err, mac))
    ensures end.None? && x.None? ==>
              parse == InFreq && err == err0 && Scan(args, parse, err0, mac) == Scan(args, Neutral, err0, mac)
  {
    end, x, err := None, None, err0;
    match parse {
      case Neutral =>
        x := Keyword(t);
        if x.None? {
          end := Some(Return(1));
        } else if x.value.Randomise? {
          err := RandomMac(t, mac);
          if err != 0 {
            end := Some(Return(err));
          }
        }
      case Finished =>
        end := Some(Return(1));
      case InFreq =>
        if UnsignedWhole(t).Some? {
          x := Some(FreqValue(t));
        }
      case InIes =>
        var p := ParseText(t, false);
        if p.Rejected? {
          end := Some(Return(err));
        } else if p.Overrun? {
          end := Some(Crashed);
        } else {
          x := Some(IesValue(t));
        }
      case InSsid =>
        x := Some(SsidValue(t));
      case InMeshid =>
        x := Some(MeshidValue(t));
    }
  }

  method HandleScan(argv: seq<string>, mac: string -> bool) returns (r: Outcome)
    ensures r == Scan(argv, Neutral, ENOBUFS, mac)
  {
    var parse, err := Neutral, ENOBUFS;
    var items: seq<Item> := [];
    var i: int := 0;
    ghost var goal := Scan(argv, Neutral, ENOBUFS, mac);
    assert argv[0..] == argv;
    while i < |argv|
      invariant 0 <= i <= |argv|
      invariant goal == Prepend(items, Scan(argv[i..], parse, err, mac))
      decreases |argv| - i, if parse == InFreq then 1 else 0
    {
      var end, x;
      ghost var args, rest := argv[i..], argv[i + 1..];
      assert args[1..] == rest;
      end, x, err := OneArgument(argv[i], parse, err, mac, args);
      if end.Some? {
        return end.value;
      }
      if x.None? {
        i := i - 1;
        parse := Neutral;
      } else {
        parse := After(x.value);
        PrependCons(items, x.value, Scan(rest, parse, err, mac));
        items := items + [x.value];
      }
      i := i + 1;
    }
    r := Roles(items);
  }

  // ---------------------------------------------------------------- the accepted argument lists

  /** Whether an argument may have the role in the state; frequencies end where a keyword comes, without a second look. */
  predicate Fits(x: Item, m: ScanMode, mac: string -> bool)
  {
    match x
    case FreqValue(t) => m == InFreq && UnsignedWhole(t).Some?
    case IesValue(t) => m == InIes && ParseText(t, false).Parsed?
    case SsidValue(_) => m == InSsid
    case MeshidValue(_) => m == InMeshid
    case Randomise(t) => (m == Neutral || m == InFreq) && IsRandom(t) && RandomMac(t, mac) == 0
    case FlagWord(t) => (m == Neutral || m == InFreq) && IsFlagWord(t)
    case _ => m == Neutral || m == InFreq
  }

  predicate ValidItems(xs: seq<Item>, m: ScanMode, mac: string -> bool)
  {
    xs == [] || (Fits(xs[0], m, mac) && ValidItems(xs[1..], After(xs[0]), mac))
  }

  predicate IsWord(x: Item)
  {
    !x.FreqValue? && !x.IesValue? && !x.SsidValue? && !x.MeshidValue?
  }

  /** A keyword is recognised as itself and is no number. */
  lemma WordBack(x: Item, m: ScanMode, mac: string -> bool)
    requires IsWord(x) && Fits(x, m, mac)
    ensures Keyword(Text(x)) == Some(x) && UnsignedWhole(Text(x)).None?
  {
    if x.Randomise? {
      assert x.text[..9][0] == x.text[0];
    }
    NotNumber(Text(x));
  }

  function ErrAfter(x: Item, err: int): (e: int)
  {
    if x.Randomise? then 0 else err
  }

  lemma ConsTexts(x: Item, xs: seq<Item>)
    ensures ([x] + xs)[0] == x && ([x] + xs)[1..] == xs && Texts([x] + xs) == [Text(x)] + Texts(xs)
  {
    assert ([x] + xs)[1..] == xs;
  }

  /** One argument in its role. */
  lemma ScanItem(x: Item, rest: seq<string>, m: ScanMode, err: int, mac: string -> bool)
    requires Fits(x, m, mac)
    ensures Scan([Text(x)] + rest, m, err, mac) == Cons(x, Scan(rest, After(x), ErrAfter(x, err), mac))
  {
    var args := [Text(x)] + rest;
    assert args[0] == Text(x) && args[1..] == rest;
    if IsWord(x) {
      WordBack(x, m, mac);
      if m == InFreq {
        assert Scan(args, m, err, mac) == Scan(args, Neutral, err, mac);
      }
    }
  }

  /** The first role of an accepted list. */
  lemma FirstRole(args: seq<string>, m: ScanMode, err: int, mac: string -> bool) returns (x: Item)
    requires args != [] && Scan(args, m, err, mac).Roles?
    ensures Fits(x, m, mac) && Text(x) == args[0]
    ensures Scan(args, m, err, mac) == Cons(x, Scan(args[1..], After(x), ErrAfter(x, err), mac))
  {
    var t := args[0];
    if m == Neutral || (m == InFreq && UnsignedWhole(t).None?) {
      x := Keyword(t).value;
    } else {
      x := match m
        case InFreq => FreqValue(t)
        case InIes => IesValue(t)
        case InSsid => SsidValue(t)
        case _ => MeshidValue(t);
    }
  }

  lemma {:induction false} AcceptedItems(args: seq<string>, m: ScanMode, err: int, mac: string -> bool)
    requires Scan(args, m, err, mac).Roles?
    ensures var xs := Scan(args, m, err, mac).items; ValidItems(xs, m, mac) && Texts(xs) == args
    decreases |args|
  {
    if args != [] {
      var x := FirstRole(args, m, err, mac);
      AcceptedItems(args[1..], After(x), ErrAfter(x, err), mac);
      ConsTexts(x, Scan(args[1..], After(x), ErrAfter(x, err), mac).items);
      assert args == [args[0]] + args[1..];
    }
  }

  /** Whether a randomise argument has been read. */
  predicate HasRandom(xs: seq<Item>)
  {
    exists i | 0 <= i < |xs| :: xs[i].Randomise?
  }

  function LastMode(xs: seq<Item>, m: ScanMode): (r: ScanMode)
  {
    if xs == [] then m else After(xs[|xs| - 1])
  }

  /** Reading a valid beginning. */
  lemma {:induction false} ScanItems(xs: seq<Item>, rest: seq<string>, m: ScanMode, err: int, mac: string -> bool)
    requires ValidItems(xs, m, mac)
    ensures Scan(Texts(xs) + rest, m, err, mac)
         == Prepend(xs, Scan(rest, LastMode(xs, m), if HasRandom(xs) then 0 else err, mac))
    decreases |xs|
  {
    if xs == [] {
      assert Texts(xs) + rest == rest;
      assert forall ys: seq<Item> :: xs + ys == ys;
    } else {
      var x, tail := xs[0], xs[1..];
      Assoc([Text(x)], Texts(tail), rest);
      ScanItem(x, Texts(tail) + rest, m, err, mac);
      ScanItems(tail, rest, After(x), ErrAfter(x, err), mac);
      RandomCons(xs);
      PrependFront(xs, Scan(rest, LastMode(xs, m), if HasRandom(xs) then 0 else err, mac));
    }
  }

  lemma PrependFront(xs: seq<Item>, r: Outcome)
    requires xs != []
    ensures Cons(xs[0], Prepend(xs[1..], r)) == Prepend(xs, r)
  {
    if r.Roles? {
      assert [xs[0]] + (xs[1..] + r.items) == xs + r.items;
    }
  }

  lemma RandomCons(xs: seq<Item>)
    requires xs != []
    ensures HasRandom(xs) <==> xs[0].Randomise? || HasRandom(xs[1..])
  {
    if HasRandom(xs[1..]) {
      var i :| 0 <= i < |xs[1..]| && xs[1..][i].Randomise?;
      assert xs[i + 1].Randomise?;
    }
    if HasRandom(xs) && !xs[0].Randomise? {
      var i :| 0 <= i < |xs| && xs[i].Randomise?;
      assert xs[1..][i - 1].Randomise?;
    }
  }

  /** The loop gives the arguments the roles xs if and only if xs is valid and written that way. */
  lemma ScanAcceptsExactly(args: seq<string>, xs: seq<Item>, mac: string -> bool)
    ensures Scan(args, Neutral, ENOBUFS, mac) == Roles(xs) <==> ValidItems(xs, Neutral, mac) && Texts(xs) == args
  {
    if Scan(args, Neutral, ENOBUFS, mac) == Roles(xs) {
      AcceptedItems(args, Neutral, ENOBUFS, mac);
    }
    if ValidItems(xs, Neutral, mac) && Texts(xs) == args {
      ScanItems(xs, [], Neutral, ENOBUFS, mac);
      assert args + [] == args && xs + [] == xs;
    }
  }

  /**
    A malformed ies argument ends the loop; the caller sees a failure if and only if no randomise argument came
    before it, because that one has left 0 in err.
   */
  lemma BadIesReturns(xs: seq<Item>, bad: string, rest: seq<string>, mac: string -> bool)
    requires ValidItems(xs, Neutral, mac) && LastMode(xs, Neutral) == InIes && ParseText(bad, false) == Rejected
    ensures Scan(Texts(xs) + ([bad] + rest), Neutral, ENOBUFS, mac) == Return(if HasRandom(xs) then 0 else ENOBUFS)
  {
    ScanItems(xs, [bad] + rest, Neutral, ENOBUFS, mac);
    assert ([bad] + rest)[0] == bad;
  }
}
