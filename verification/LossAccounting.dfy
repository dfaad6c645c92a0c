/**
  Loss accounting of a neighbour entry over its lifetime: whatever else the agent does in between, the
  counters are functions of the history of decryption attempts on that neighbour's messages, and the rescan
  or removal fires exactly at every fifth failure in a row.
 */
module LossAccounting {
  import opened Agent

  /** Everything that can happen to an agent between two looks at an entry. */
  datatype Event =
    | Forwards(m: Msg)
    | Receives(m: Msg, newKey: Key)
    | Sends(message: Bytes, ttl: int, kind: Kind, rec: Rec)
    | Joins(scan: Scan)
    | Rescans(scan: Scan)
    | Leaves(host: Host)
    | Rotates(newKey: Key, freq: int, ssid: string)

  function Apply(garble: Garble, n: Node, e: Event): (r: Node)
  {
    match e
    case Forwards(m) => Forward(garble, n, m).node
    case Receives(m, newKey) => Receive(garble, n, m, newKey).node
    case Sends(message, ttl, kind, rec) => SendFlooding(n, message, ttl, kind, None, rec).node
    case Joins(scan) => Joined(n, scan)
    case Rescans(scan) => if scan.host in n.nbrs then Rescanned(n, scan) else n
    case Leaves(host) => Left(n, host)
    case Rotates(newKey, freq, ssid) => Rotated(n, newKey, freq, ssid).node
  }

  function ApplyAll(garble: Garble, n: Node, es: seq<Event>): (r: Node)
  {
    if es == [] then n else Apply(garble, ApplyAll(garble, n, es[..|es| - 1]), es[|es| - 1])
  }

  /** The message of a neighbour reaches decryption with l as its last hop. */
  predicate Attempt(n: Node, e: Event, l: Host)
  {
    e.Forwards? && Passes(n, e.m) && e.m.host != n.name && e.m.lasthop == Via(l) && l in n.nbrs
  }

  /** Decryption attempts on l's messages, in order; true is a success. */
  function Attempts(garble: Garble, n: Node, es: seq<Event>, l: Host): (r: seq<bool>)
  {
    if es == [] then []
    else
      var before := ApplyAll(garble, n, es[..|es| - 1]);
      var e := es[|es| - 1];
      Attempts(garble, n, es[..|es| - 1], l)
      + (if Attempt(before, e, l) then [OpenHop(garble, before, e.m).Some?] else [])
  }

  function Count(xs: seq<bool>, x: bool): (r: nat)
  {
    if xs == [] then 0 else Count(xs[..|xs| - 1], x) + (if xs[|xs| - 1] == x then 1 else 0)
  }

  /** Length of the run of failures at the end. */
  function Trailing(xs: seq<bool>): (r: nat)
    ensures r <= |xs| && forall i | |xs| - r <= i < |xs| :: !xs[i]
    ensures r < |xs| ==> xs[|xs| - r - 1]
  {
    if xs == [] || xs[|xs| - 1] then 0 else 1 + Trailing(xs[..|xs| - 1])
  }

  /** The entry for l exists throughout. */
  ghost predicate Lives(garble: Garble, n: Node, es: seq<Event>, l: Host)
  {
    && l in ApplyAll(garble, n, es).nbrs
    && (es != [] ==> Lives(garble, n, es[..|es| - 1], l))
  }

  ghost predicate SameCounters(a: Neighbor, b: Neighbor)
  {
    && b.lostMessages == a.lostMessages
    && b.rxStatsLost == a.rxStatsLost && b.rxStatsSuccess == a.rxStatsSuccess
  }

  lemma ForwardKeepsCounters(garble: Garble, n: Node, m: Msg, l: Host)
    requires l in n.nbrs && l in Forward(garble, n, m).node.nbrs && !Attempt(n, Forwards(m), l)
    ensures SameCounters(n.nbrs[l], Forward(garble, n, m).node.nbrs[l])
  {
  }

  lemma HandlersKeepCounters(n: Node, m: Msg, plain: Bytes, newKey: Key, l: Host)
    requires l in n.nbrs
    ensures l in HandleKcm(n, m, plain).node.nbrs && SameCounters(n.nbrs[l], HandleKcm(n, m, plain).node.nbrs[l])
    ensures l in HandleRuk(n, m, plain, newKey).node.nbrs
    ensures SameCounters(n.nbrs[l], HandleRuk(n, m, plain, newKey).node.nbrs[l])
    ensures l in HandleNuk(n, m, plain).node.nbrs && SameCounters(n.nbrs[l], HandleNuk(n, m, plain).node.nbrs[l])
  {
  }

  lemma ReceiveKeepsCounters(garble: Garble, n: Node, m: Msg, newKey: Key, l: Host)
    requires l in n.nbrs
    ensures l in Receive(garble, n, m, newKey).node.nbrs
    ensures SameCounters(n.nbrs[l], Receive(garble, n, m, newKey).node.nbrs[l])
  {
    var body := CheckedOpen(garble, n.key, Some(n.name), m);
    if body.Some? && Unwrap(garble, n, m, body.value).Plain? {
      HandlersKeepCounters(n, m, Unwrap(garble, n, m, body.value).bytes, newKey, l);
    }
  }

  /** Nothing but a decryption attempt on l's own messages touches the counters of l. */
  lemma OthersKeepCounters(garble: Garble, n: Node, e: Event, l: Host)
    requires l in n.nbrs && l in Apply(garble, n, e).nbrs && l != n.name && !Attempt(n, e, l)
    ensures SameCounters(n.nbrs[l], Apply(garble, n, e).nbrs[l])
  {
    if e.Forwards? {
      ForwardKeepsCounters(garble, n, e.m, l);
    } else if e.Receives? {
      ReceiveKeepsCounters(garble, n, e.m, e.newKey, l);
    }
  }

  /** One attempt, counted. */
  ghost predicate Counts(a: Neighbor, b: Neighbor, ok: bool)
  {
    if ok then
      b.lostMessages == 0 && b.rxStatsLost == a.rxStatsLost && b.rxStatsSuccess == a.rxStatsSuccess + 1
    else
      && b.rxStatsLost == a.rxStatsLost + 1 && b.rxStatsSuccess == a.rxStatsSuccess
      && b.lostMessages == if a.lostMessages + 1 >= 5 then 0 else a.lostMessages + 1
  }

  lemma AttemptCounters(garble: Garble, n: Node, e: Event, l: Host)
    requires l in n.nbrs && l in Apply(garble, n, e).nbrs && Attempt(n, e, l)
    ensures Counts(n.nbrs[l], Apply(garble, n, e).nbrs[l], OpenHop(garble, n, e.m).Some?)
  {
  }

  lemma NameKept(garble: Garble, n: Node, e: Event)
    ensures Apply(garble, n, e).name == n.name
  {
  }

  lemma {:induction false} NameKeptAll(garble: Garble, n: Node, es: seq<Event>)
    ensures ApplyAll(garble, n, es).name == n.name
  {
    if es != [] {
      NameKeptAll(garble, n, es[..|es| - 1]);
      NameKept(garble, ApplyAll(garble, n, es[..|es| - 1]), es[|es| - 1]);
    }
  }

  /** The counters say what the history says. */
  ghost predicate Tallies(nb: Neighbor, xs: seq<bool>)
  {
    && nb.rxStatsLost == Count(xs, false) && nb.rxStatsSuccess == Count(xs, true)
    && nb.rxStatsLost + nb.rxStatsSuccess == |xs|
    && nb.lostMessages == Trailing(xs) % 5
  }

  lemma AppendCounts(xs: seq<bool>, x: bool)
    ensures Count(xs + [x], x) == Count(xs, x) + 1 && Count(xs + [x], !x) == Count(xs, !x)
    ensures Trailing(xs + [x]) == if x then 0 else Trailing(xs) + 1
  {
    assert (xs + [x])[..|xs|] == xs;
  }

  lemma TallyAttempt(a: Neighbor, b: Neighbor, xs: seq<bool>, ok: bool)
    requires Tallies(a, xs) && Counts(a, b, ok)
    ensures Tallies(b, xs + [ok])
  {
    AppendCounts(xs, ok);
  }

  lemma TallyStep(garble: Garble, n: Node, e: Event, l: Host, xs: seq<bool>)
    requires l in n.nbrs && l in Apply(garble, n, e).nbrs && l != n.name && Tallies(n.nbrs[l], xs)
    ensures Tallies(Apply(garble, n, e).nbrs[l],
                    xs + (if Attempt(n, e, l) then [OpenHop(garble, n, e.m).Some?] else []))
  {
    if Attempt(n, e, l) {
      AttemptCounters(garble, n, e, l);
      TallyAttempt(n.nbrs[l], Apply(garble, n, e).nbrs[l], xs, OpenHop(garble, n, e.m).Some?);
    } else {
      OthersKeepCounters(garble, n, e, l);
      assert xs + [] == xs;
    }
  }

  /**
    The counters of an entry that starts empty: losses and successes add up to the attempts, and the
    consecutive-loss counter is the trailing run of failures modulo five.
   */
  lemma {:induction false} CountersOfHistory(garble: Garble, n: Node, es: seq<Event>, l: Host)
    requires l in n.nbrs && l != n.name && Lives(garble, n, es, l) && Tallies(n.nbrs[l], [])
    ensures Tallies(ApplyAll(garble, n, es).nbrs[l], Attempts(garble, n, es, l))
  {
    if es != [] {
      var init := es[..|es| - 1];
      CountersOfHistory(garble, n, init, l);
      NameKeptAll(garble, n, init);
      TallyStep(garble, ApplyAll(garble, n, init), es[|es| - 1], l, Attempts(garble, n, init, l));
    }
  }

  /** Forwarding m at n triggers a rescan or removal of l just when the attempt fails as the fifth in a row. */
  ghost predicate Fires(garble: Garble, n: Node, l: Host, m: Msg, failuresInARow: nat)
  {
    var r := Forward(garble, n, m);
    && l in n.nbrs
    && (r.verdict in {Rescan, Removed} <==>
          && Attempt(n, Forwards(m), l) && OpenHop(garble, n, m).None?
          && (failuresInARow + 1) % 5 == 0)
    && (r.verdict == Removed ==> n.nbrs[l].freq == 0 && l !in r.node.nbrs)
    && (r.verdict == Rescan ==> n.nbrs[l].freq != 0 && l in r.node.nbrs)
  }

  lemma FiresWhenFull(garble: Garble, n: Node, l: Host, m: Msg, t: nat)
    requires l in n.nbrs && l != n.name && m.lasthop == Via(l) && n.nbrs[l].lostMessages == t % 5
    ensures Fires(garble, n, l, m, t)
  {
    assert (t + 1) % 5 == 0 <==> t % 5 == 4;
  }

  /** A rescan or a removal fires exactly when the failures in a row reach a multiple of five. */
  lemma FiresAtFifthLoss(garble: Garble, n: Node, es: seq<Event>, l: Host, m: Msg)
    requires l in n.nbrs && l != n.name && Lives(garble, n, es, l) && Tallies(n.nbrs[l], [])
    requires m.lasthop == Via(l)
    ensures Fires(garble, ApplyAll(garble, n, es), l, m, Trailing(Attempts(garble, n, es, l)))
  {
    CountersOfHistory(garble, n, es, l);
    NameKeptAll(garble, n, es);
    FiresWhenFull(garble, ApplyAll(garble, n, es), l, m, Trailing(Attempts(garble, n, es, l)));
  }

  /** Merging a scan result into a known entry is invisible to the accounting. */
  lemma MergeKeepsHistory(garble: Garble, n: Node, es: seq<Event>, l: Host, scan: Scan)
    requires l != n.name && Lives(garble, n, es, l)
    ensures Attempts(garble, n, es + [Joins(scan)], l) == Attempts(garble, n, es, l)
    ensures SameCounters(ApplyAll(garble, n, es).nbrs[l], Joined(ApplyAll(garble, n, es), scan).nbrs[l])
  {
    assert (es + [Joins(scan)])[..|es|] == es;
  }
}
