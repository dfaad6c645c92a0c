/**
  Everything that can become of one broadcast.  Which node publishes with which TTL depends on the order in which
  the copies are taken; the sets of publications in which a run can end are exactly the settled ones, a condition
  on the graph of subscriptions alone.  So is, therefore, who is reached whatever the order.
 */
module FloodOutcomes {
  import opened Agent
  import opened Network
  import opened FloodSafety
  import opened HopFlood
  import opened FloodComplete
  import opened FloodAnyOrder

  // ---------------------------------------------------------------- settled publications

  ghost predicate Has(records: set<(Host, int)>, n: Host)
  {
    exists t :: (n, t) in records
  }

  /** A publication with TTL left whose hearers have all published. */
  ghost predicate HeardOut(graph: set<(Host, Host)>, records: set<(Host, int)>, r: (Host, int))
  {
    r.1 >= 2 ==> forall y | (y, r.0) in graph :: Has(records, y)
  }

  ghost predicate RecordSettled(graph: set<(Host, Host)>, h: Host, k: nat, records: set<(Host, int)>, r: (Host, int))
  {
    1 <= r.1 <= k + 1 && FromCopy(graph, h, k, records, r) && HeardOut(graph, records, r)
  }

  /**
    The origin has published with TTL k + 1; everyone else with one less than a node it hears, and once; and
    whoever hears a publication with a TTL of at least 2 has published.
   */
  ghost predicate Settled(graph: set<(Host, Host)>, h: Host, k: nat, records: set<(Host, int)>)
  {
    && (h, k + 1) in records
    && (forall r, q | r in records && q in records && r.0 == q.0 :: r == q)
    && (forall r {:trigger RecordSettled(graph, h, k, records, r)} | r in records ::
          RecordSettled(graph, h, k, records, r))
  }

  /** What a run leaves when the last copy is gone is settled, and exactly its publishers have accepted. */
  lemma DrainedSettles(graph: set<(Host, Host)>, h: Host, k: nat, v: View)
    requires AnyInv(graph, h, k, v) && v.nets == {} && v.waiting == {}
    ensures Settled(graph, h, k, v.records)
    ensures forall n :: n in v.accepted <==> n != h && Has(v.records, n)
  {
    forall r | r in v.records ensures RecordSettled(graph, h, k, v.records, r) {
      assert AnyRecordOk(graph, h, k, v, r);
      forall y | r.1 >= 2 && (y, r.0) in graph ensures Has(v.records, y) {
        assert HasRecord(v, y, 1);
      }
    }
    forall n ensures n in v.accepted <==> n != h && Has(v.records, n) {
      if n != h && Has(v.records, n) {
        var t :| (n, t) in v.records;
        assert AnyRecordOk(graph, h, k, v, (n, t));
      }
      if n in v.accepted {
        assert HasRecord(v, n, 1);
      }
    }
  }

  /** A settled set has a publication that is missing from `records` although the one before it is there. */
  lemma {:induction false} FirstMissing(graph: set<(Host, Host)>, h: Host, k: nat, goal: set<(Host, int)>,
                                        records: set<(Host, int)>, r: (Host, int)) returns (x: (Host, Host, int))
    requires Settled(graph, h, k, goal) && (h, k + 1) in records && r in goal && r !in records
    ensures (x.0, x.2 - 1) in goal && (x.0, x.2 - 1) !in records && (x.1, x.2) in records && (x.0, x.1) in graph
    ensures x.2 >= 2
    decreases k + 1 - r.1
  {
    assert RecordSettled(graph, h, k, goal, r);
    if r.1 < k + 1 {
      var p :| (p, r.1 + 1) in goal && (r.0, p) in graph;
      if (p, r.1 + 1) in records {
        x := (r.0, p, r.1 + 1);
      } else {
        assert RecordSettled(graph, h, k, goal, (p, r.1 + 1));
        x := FirstMissing(graph, h, k, goal, records, (p, r.1 + 1));
      }
    }
  }

  // ---------------------------------------------------------------- steps that a calm run can take

  /** The broadcast has been published by its origin and runs its course. */
  ghost predicate Under(s: System, graph: set<(Host, Host)>, h: Host, id: nat, text: Bytes, k: nat)
  {
    Calm(s, h, id, text, k) && Hearing(s) == graph && NoLocal(s, h, id) && AnyInv(graph, h, k, ViewOf(s, h, id))
  }

  /** A forwarder can always take a copy of the broadcast without leaving the calm. */
  lemma CanForward(garble: Garble, s: System, c: Copy, h: Host, id: nat, text: Bytes, k: nat)
    requires Calm(s, h, id, text, k) && c in s.flight && !c.Rx? && Ours(c.m, h, id)
    ensures CalmStep(garble, s, Fwd(c), h, id)
    ensures var s' := FwdStep(garble, s, c);
            c.m.ttl <= 1 || Seen(s.nodes[c.dst], h) >= id ==> s'.flight == s.flight - multiset{c}
  {
    assert CopyFresh(s, h, id, text, c);
    assert NodeOk(s, c.dst);
    FreshForward(garble, s, c, h, id, text, k);
    var n := s.nodes[c.dst];
    var r := Forward(garble, n, c.m);
    if r.out.Some? {
      ForwardPublishes(garble, n, c.m);
    }
    NodeReplaced(s, FwdStep(garble, s, c), r.node, h);
  }

  /** And a receive loop. */
  lemma CanReceive(garble: Garble, s: System, c: Copy, newKey: Key, h: Host, id: nat, text: Bytes, k: nat)
    requires Calm(s, h, id, text, k) && c in s.flight && c.Rx? && Ours(c.m, h, id)
    ensures CalmStep(garble, s, Rcv(c, newKey), h, id)
    ensures RcvStep(garble, s, c, newKey).flight == s.flight - multiset{c}
    ensures RcvStep(garble, s, c, newKey).pubs == s.pubs && RcvStep(garble, s, c, newKey).nodes == s.nodes
  {
    assert CopyFresh(s, h, id, text, c);
    assert NodeOk(s, c.dst);
    FreshReceive(garble, s, c, newKey, h, id, text, k);
    NodeReplaced(s, RcvStep(garble, s, c, newKey), s.nodes[c.dst], h);
  }

  lemma NodeReplaced(s: System, s': System, n: Node, h: Host)
    requires AllAlive(s) && n.name in s.nodes && s'.nodes == s.nodes[n.name := n]
    requires n.nbrs.Keys == s.nodes[n.name].nbrs.Keys && n.rxAlive == s.nodes[n.name].rxAlive
    requires n.localId == s.nodes[n.name].localId
    ensures AllAlive(s') && (forall x :: SameEntries(s, s', x))
    ensures h in s.nodes && h in s'.nodes ==> s'.nodes[h].localId == s.nodes[h].localId
  {
    forall x ensures Alive(s', x) {
      assert Alive(s, x) && Alive(s, n.name);
    }
  }

  lemma UnderStep(garble: Garble, s: System, a: Action, graph: set<(Host, Host)>, h: Host, id: nat, text: Bytes, k: nat)
    requires Under(s, graph, h, id, text, k) && CalmStep(garble, s, a, h, id) && OnOurs(a, h, id)
    ensures Under(Step(garble, s, a), graph, h, id, text, k)
  {
    CalmKept(garble, s, a, h, id, text, k);
    OurStep(garble, s, a, h, id, text, k);
    WaitingDone(s, h, id);
    assert Move(graph, ViewOf(s, h, id), ViewOf(Step(garble, s, a), h, id));
    MoveAny(graph, h, k, ViewOf(s, h, id), ViewOf(Step(garble, s, a), h, id));
  }

  // ---------------------------------------------------------------- every settled set is the end of a run

  /** A calm run from s on that is still under way. */
  ghost predicate Ongoing(garble: Garble, s: System, run: seq<Action>, graph: set<(Host, Host)>, h: Host, id: nat,
                          text: Bytes, k: nat)
  {
    CalmRun(garble, s, run, h, id) && Under(Run(garble, s, run), graph, h, id, text, k)
  }

  lemma OngoingMore(garble: Garble, s: System, run: seq<Action>, a: Action, s1: System, s2: System,
                    graph: set<(Host, Host)>, h: Host, id: nat, text: Bytes, k: nat)
    requires CalmRun(garble, s, run, h, id) && s1 == Run(garble, s, run) && CalmStep(garble, s1, a, h, id)
    requires s2 == Step(garble, s1, a) && Under(s2, graph, h, id, text, k)
    ensures Ongoing(garble, s, run + [a], graph, h, id, text, k) && Run(garble, s, run + [a]) == s2
  {
    assert (run + [a])[..|run|] == run;
  }

  /** The forwarder's step in the set model. */
  lemma ForwardUnder(garble: Garble, s: System, c: Copy, graph: set<(Host, Host)>, h: Host, id: nat, text: Bytes,
                     k: nat)
    requires Under(s, graph, h, id, text, k) && c in s.flight && c.Net? && Ours(c.m, h, id)
    ensures var a := Fwd(c);
            && CalmStep(garble, s, a, h, id) && Under(Step(garble, s, a), graph, h, id, text, k) && c.m.lasthop.Via?
            && Take(graph, ViewOf(s, h, id), ViewOf(Step(garble, s, a), h, id), NetOf(c))
  {
    CanForward(garble, s, c, h, id, text, k);
    UnderStep(garble, s, Fwd(c), graph, h, id, text, k);
    OurStep(garble, s, Fwd(c), h, id, text, k);
  }

  lemma TakeCopy(garble: Garble, s: System, c: Copy, x: (Host, Host, int), graph: set<(Host, Host)>, h: Host, id: nat,
                 text: Bytes, k: nat) returns (a: Action, s': System)
    requires Under(s, graph, h, id, text, k) && c in s.flight && c.Net? && Ours(c.m, h, id)
    requires c.m.lasthop.Via? && NetOf(c) == x
    ensures s' == Step(garble, s, a) && CalmStep(garble, s, a, h, id) && Under(s', graph, h, id, text, k)
    ensures Take(graph, ViewOf(s, h, id), ViewOf(s', h, id), x)
  {
    a, s' := Fwd(c), Step(garble, s, Fwd(c));
    ForwardUnder(garble, s, c, graph, h, id, text, k);
  }

  lemma NotYetDone(graph: set<(Host, Host)>, h: Host, k: nat, v: View, goal: set<(Host, int)>, n: Host, t: int)
    requires AnyInv(graph, h, k, v) && v.records <= goal && Settled(graph, h, k, goal)
    requires (n, t) in goal && (n, t) !in v.records
    ensures n !in v.done
  {
    assert n in v.done ==> HasRecord(v, n, 1);
  }

  /** The copy that a missing publication is made from is under way. */
  lemma CopyIsThere(graph: set<(Host, Host)>, h: Host, k: nat, v: View, goal: set<(Host, int)>, x: (Host, Host, int))
    requires AnyInv(graph, h, k, v) && v.records <= goal && Settled(graph, h, k, goal)
    requires (x.0, x.2 - 1) in goal && (x.0, x.2 - 1) !in v.records
    requires (x.1, x.2) in v.records && (x.0, x.1) in graph && x.2 >= 2
    ensures x in v.nets && x.0 !in v.done
  {
    NotYetDone(graph, h, k, v, goal, x.0, x.2 - 1);
    assert AnyRecordOk(graph, h, k, v, (x.1, x.2));
  }

  lemma NetCopy(s: System, h: Host, id: nat, x: (Host, Host, int)) returns (c: Copy)
    requires x in NetsOf(s, h, id)
    ensures c in s.flight && c.Net? && Ours(c.m, h, id) && c.m.lasthop.Via? && NetOf(c) == x
  {
    c :| c in s.flight && c.Net? && Ours(c.m, h, id) && c.m.lasthop.Via? && x == (c.dst, c.m.lasthop.host, c.m.ttl);
  }

  /** A copy that leads to one more publication of the goal. */
  lemma NextCopy(s: System, graph: set<(Host, Host)>, h: Host, id: nat, text: Bytes, k: nat, goal: set<(Host, int)>)
    returns (c: Copy, x: (Host, Host, int))
    requires Under(s, graph, h, id, text, k) && RecordsOf(s.pubs, h, id) < goal && Settled(graph, h, k, goal)
    ensures c in s.flight && c.Net? && Ours(c.m, h, id) && c.m.lasthop.Via? && NetOf(c) == x
    ensures x.2 >= 2 && x.0 !in DoneOf(s, h, id)
    ensures (x.0, x.2 - 1) in goal && (x.0, x.2 - 1) !in RecordsOf(s.pubs, h, id)
  {
    var v := ViewOf(s, h, id);
    var missing :| missing in goal && missing !in v.records;
    x := FirstMissing(graph, h, k, goal, v.records, missing);
    CopyIsThere(graph, h, k, v, goal, x);
    c := NetCopy(s, h, id, x);
  }

  lemma MustPublish(graph: set<(Host, Host)>, v: View, v': View, x: (Host, Host, int), goal: set<(Host, int)>)
    requires Take(graph, v, v', x) && x.2 >= 2 && x.0 !in v.done && v.records <= goal
    requires (x.0, x.2 - 1) in goal && (x.0, x.2 - 1) !in v.records
    ensures v.records < v'.records <= goal
  {
  }

  /** One more publication of the goal. */
  lemma TakeNext(garble: Garble, s: System, graph: set<(Host, Host)>, h: Host, id: nat, text: Bytes, k: nat,
                 goal: set<(Host, int)>) returns (a: Action, s': System)
    requires Under(s, graph, h, id, text, k) && RecordsOf(s.pubs, h, id) < goal && Settled(graph, h, k, goal)
    ensures s' == Step(garble, s, a) && CalmStep(garble, s, a, h, id) && Under(s', graph, h, id, text, k)
    ensures RecordsOf(s.pubs, h, id) < RecordsOf(s'.pubs, h, id) <= goal
  {
    var c, x := NextCopy(s, graph, h, id, text, k, goal);
    a, s' := TakeCopy(garble, s, c, x, graph, h, id, text, k);
    MustPublish(graph, ViewOf(s, h, id), ViewOf(s', h, id), x, goal);
  }

  lemma FillMore(garble: Garble, s: System, run: seq<Action>, graph: set<(Host, Host)>, h: Host, id: nat, text: Bytes,
                 k: nat, goal: set<(Host, int)>) returns (a: Action)
    requires Ongoing(garble, s, run, graph, h, id, text, k) && Settled(graph, h, k, goal)
    requires RecordsOf(Run(garble, s, run).pubs, h, id) < goal
    ensures Ongoing(garble, s, run + [a], graph, h, id, text, k)
    ensures RecordsOf(Run(garble, s, run + [a]).pubs, h, id) <= goal
    ensures RecordsOf(Run(garble, s, run).pubs, h, id) < RecordsOf(Run(garble, s, run + [a]).pubs, h, id)
  {
    var s2;
    var s1 := Run(garble, s, run);
    a, s2 := TakeNext(garble, s1, graph, h, id, text, k, goal);
    OngoingMore(garble, s, run, a, s1, s2, graph, h, id, text, k);
  }

  lemma Shrinks(goal: set<(Host, int)>, x: set<(Host, int)>, y: set<(Host, int)>)
    requires x < y <= goal
    ensures goal - y < goal - x
  {
    var r :| r in y && r !in x;
    assert r in goal - x;
  }

  lemma {:induction false} Fill(garble: Garble, s: System, run: seq<Action>, graph: set<(Host, Host)>, h: Host, id: nat,
                                text: Bytes, k: nat, goal: set<(Host, int)>) returns (all: seq<Action>)
    requires Ongoing(garble, s, run, graph, h, id, text, k) && Settled(graph, h, k, goal)
    requires RecordsOf(Run(garble, s, run).pubs, h, id) <= goal
    ensures Ongoing(garble, s, all, graph, h, id, text, k)
    ensures RecordsOf(Run(garble, s, all).pubs, h, id) == goal
    decreases goal - RecordsOf(Run(garble, s, run).pubs, h, id)
  {
    all := run;
    var records := RecordsOf(Run(garble, s, run).pubs, h, id);
    if records != goal {
      var a := FillMore(garble, s, run, graph, h, id, text, k, goal);
      Shrinks(goal, records, RecordsOf(Run(garble, s, run + [a]).pubs, h, id));
      all := Fill(garble, s, run + [a], graph, h, id, text, k, goal);
    }
  }

  /** When the publications are settled, a copy is a duplicate or has run out of TTL. */
  lemma Exhausted(graph: set<(Host, Host)>, h: Host, k: nat, v: View, x: (Host, Host, int))
    requires AnyInv(graph, h, k, v) && Settled(graph, h, k, v.records) && x in v.nets
    ensures x.0 in v.done || x.2 <= 1
  {
    var r := (x.1, x.2);
    assert RecordSettled(graph, h, k, v.records, r);
    if x.2 >= 2 {
      assert Has(v.records, x.0);
      var t :| (x.0, t) in v.records;
      assert AnyRecordOk(graph, h, k, v, (x.0, t));
    }
  }

  lemma LastForward(garble: Garble, s: System, c: Copy, graph: set<(Host, Host)>, h: Host, id: nat, text: Bytes, k: nat)
    requires Under(s, graph, h, id, text, k) && Settled(graph, h, k, RecordsOf(s.pubs, h, id))
    requires c in s.flight && c.Net? && Ours(c.m, h, id)
    ensures var s' := Step(garble, s, Fwd(c));
            && CalmStep(garble, s, Fwd(c), h, id) && Under(s', graph, h, id, text, k)
            && RecordsOf(s'.pubs, h, id) == RecordsOf(s.pubs, h, id) && s'.flight == s.flight - multiset{c}
  {
    assert CopyFresh(s, h, id, text, c);
    NetsIn(s, h, id, c);
    Exhausted(graph, h, k, ViewOf(s, h, id), NetOf(c));
    ForwardUnder(garble, s, c, graph, h, id, text, k);
    CanForward(garble, s, c, h, id, text, k);
  }

  lemma LastReceive(garble: Garble, s: System, c: Copy, newKey: Key, graph: set<(Host, Host)>, h: Host, id: nat,
                    text: Bytes, k: nat)
    requires Under(s, graph, h, id, text, k) && c in s.flight && c.Rx? && Ours(c.m, h, id)
    ensures var s' := Step(garble, s, Rcv(c, newKey));
            && CalmStep(garble, s, Rcv(c, newKey), h, id) && Under(s', graph, h, id, text, k)
            && s'.pubs == s.pubs && s'.nodes == s.nodes && s'.flight == s.flight - multiset{c}
  {
    CanReceive(garble, s, c, newKey, h, id, text, k);
    UnderStep(garble, s, Rcv(c, newKey), graph, h, id, text, k);
  }

  lemma FewerCopies(flight: multiset<Copy>, c: Copy)
    requires c in flight
    ensures |flight - multiset{c}| < |flight|
  {
  }

  lemma DrainMore(garble: Garble, s: System, run: seq<Action>, graph: set<(Host, Host)>, h: Host, id: nat, text: Bytes,
                  k: nat, newKey: Key, c: Copy) returns (a: Action)
    requires Ongoing(garble, s, run, graph, h, id, text, k)
    requires Settled(graph, h, k, RecordsOf(Run(garble, s, run).pubs, h, id))
    requires c in Run(garble, s, run).flight && Ours(c.m, h, id)
    ensures Ongoing(garble, s, run + [a], graph, h, id, text, k)
    ensures RecordsOf(Run(garble, s, run + [a]).pubs, h, id) == RecordsOf(Run(garble, s, run).pubs, h, id)
    ensures |Run(garble, s, run + [a]).flight| < |Run(garble, s, run).flight|
  {
    var s1 := Run(garble, s, run);
    if c.Rx? {
      a := Rcv(c, newKey);
      LastReceive(garble, s1, c, newKey, graph, h, id, text, k);
    } else {
      a := Fwd(c);
      assert !c.Local?;
      LastForward(garble, s1, c, graph, h, id, text, k);
    }
    OngoingMore(garble, s, run, a, s1, Step(garble, s1, a), graph, h, id, text, k);
    FewerCopies(s1.flight, c);
  }

  lemma {:induction false} Drain(garble: Garble, s: System, run: seq<Action>, graph: set<(Host, Host)>, h: Host,
                                 id: nat, text: Bytes, k: nat, newKey: Key) returns (all: seq<Action>)
    requires Ongoing(garble, s, run, graph, h, id, text, k)
    requires Settled(graph, h, k, RecordsOf(Run(garble, s, run).pubs, h, id))
    ensures CalmRun(garble, s, all, h, id) && forall c | c in Run(garble, s, all).flight :: !Ours(c.m, h, id)
    ensures RecordsOf(Run(garble, s, all).pubs, h, id) == RecordsOf(Run(garble, s, run).pubs, h, id)
    decreases |Run(garble, s, run).flight|
  {
    all := run;
    if c :| c in Run(garble, s, run).flight && Ours(c.m, h, id) {
      var a := DrainMore(garble, s, run, graph, h, id, text, k, newKey, c);
      all := Drain(garble, s, run + [a], graph, h, id, text, k, newKey);
    }
  }

  /** The origin's forwarder takes the broadcast from the send socket. */
  lemma Launch(garble: Garble, s: System, graph: set<(Host, Host)>, h: Host, id: nat, text: Bytes, k: nat, m: Msg)
    returns (run: seq<Action>)
    requires Calm(s, h, id, text, k) && Pending(s, h, id, m) && Hearing(s) == graph
    ensures Ongoing(garble, s, run, graph, h, id, text, k) && |run| == 1 && run[0] == Fwd(Local(h, m))
    ensures RecordsOf(Run(garble, s, run).pubs, h, id) == {(h, k + 1)}
  {
    var c := Local(h, m);
    var a := Fwd(c);
    assert c in s.flight;
    CanForward(garble, s, c, h, id, text, k);
    CalmKept(garble, s, a, h, id, text, k);
    LaunchStep(garble, s, h, id, text, k, m);
    LaunchedAny(graph, h, k, ViewOf(Step(garble, s, a), h, id));
    run := [] + [a];
    OngoingMore(garble, s, [], a, s, Step(garble, s, a), graph, h, id, text, k);
  }

  // ---------------------------------------------------------------- hop order is possible

  lemma {:induction false} LargestTtl(nets: set<(Host, Host, int)>) returns (x: (Host, Host, int))
    requires nets != {}
    ensures x in nets && forall y | y in nets :: y.2 <= x.2
  {
    var z :| z in nets;
    x := z;
    if nets - {z} != {} {
      var y := LargestTtl(nets - {z});
      if y.2 > z.2 {
        x := y;
      }
      assert nets == (nets - {z}) + {z};
    }
  }

  /** Nodes that have not published, and copies left. */
  ghost function Ahead(s: System, h: Host, id: nat): (r: set<Host>)
  {
    s.nodes.Keys - DoneOf(s, h, id)
  }

  lemma HopForward(garble: Garble, s: System, graph: set<(Host, Host)>, h: Host, id: nat, text: Bytes, k: nat)
    returns (a: Action, s': System)
    requires Under(s, graph, h, id, text, k) && NetsOf(s, h, id) != {}
    ensures s' == Step(garble, s, a) && CalmStep(garble, s, a, h, id) && Under(s', graph, h, id, text, k)
    ensures InHopOrder(s, a, h, id)
    ensures Ahead(s', h, id) < Ahead(s, h, id) || (Ahead(s', h, id) == Ahead(s, h, id) && |s'.flight| < |s.flight|)
  {
    var x := LargestTtl(NetsOf(s, h, id));
    var c := NetCopy(s, h, id, x);
    a, s' := Fwd(c), Step(garble, s, Fwd(c));
    ForwardUnder(garble, s, c, graph, h, id, text, k);
    IsLargest(s, c, h, id, text);
    HandlerNodes(garble, s, a);
    CanForward(garble, s, c, h, id, text, k);
    FewerCopies(s.flight, c);
    TakeShrinks(s, s', graph, x, h, id);
  }

  lemma IsLargest(s: System, c: Copy, h: Host, id: nat, text: Bytes)
    requires CopiesFresh(s, h, id, text) && c.m.lasthop.Via? && forall y | y in NetsOf(s, h, id) :: y.2 <= c.m.ttl
    ensures InHopOrder(s, Fwd(c), h, id)
  {
    forall x | x in s.flight && x.Net? && Ours(x.m, h, id) ensures x.m.ttl <= c.m.ttl {
      assert CopyFresh(s, h, id, text, x);
      NetsIn(s, h, id, x);
    }
  }

  lemma TakeShrinks(s: System, s': System, graph: set<(Host, Host)>, x: (Host, Host, int), h: Host, id: nat)
    requires Take(graph, ViewOf(s, h, id), ViewOf(s', h, id), x) && s'.nodes.Keys == s.nodes.Keys && x.0 in s.nodes
    ensures if x.2 <= 1 || x.0 in DoneOf(s, h, id) then Ahead(s', h, id) == Ahead(s, h, id)
            else Ahead(s', h, id) < Ahead(s, h, id)
  {
    assert x.0 !in DoneOf(s, h, id) ==> x.0 in Ahead(s, h, id);
  }

  lemma HopMore(garble: Garble, s: System, run: seq<Action>, a: Action, h: Host, id: nat)
    requires HopRun(garble, s, run, h, id) && InHopOrder(Run(garble, s, run), a, h, id)
    ensures HopRun(garble, s, run + [a], h, id)
  {
    assert (run + [a])[..|run|] == run;
  }

  lemma HopReceive(garble: Garble, s: System, graph: set<(Host, Host)>, h: Host, id: nat, text: Bytes, k: nat,
                   newKey: Key, c: Copy) returns (a: Action, s': System)
    requires Under(s, graph, h, id, text, k) && c in s.flight && c.Rx? && Ours(c.m, h, id)
    ensures s' == Step(garble, s, a) && CalmStep(garble, s, a, h, id) && Under(s', graph, h, id, text, k)
    ensures InHopOrder(s, a, h, id) && Ahead(s', h, id) == Ahead(s, h, id) && |s'.flight| < |s.flight|
  {
    a, s' := Rcv(c, newKey), Step(garble, s, Rcv(c, newKey));
    LastReceive(garble, s, c, newKey, graph, h, id, text, k);
    FewerCopies(s.flight, c);
  }

  /** The next step in hop order: a receive loop if one has a copy, otherwise the copy with the largest TTL. */
  lemma HopNext(garble: Garble, s: System, graph: set<(Host, Host)>, h: Host, id: nat, text: Bytes, k: nat, newKey: Key,
                c: Copy) returns (a: Action, s': System)
    requires Under(s, graph, h, id, text, k) && c in s.flight && Ours(c.m, h, id)
    ensures s' == Step(garble, s, a) && CalmStep(garble, s, a, h, id) && Under(s', graph, h, id, text, k)
    ensures InHopOrder(s, a, h, id)
    ensures Ahead(s', h, id) < Ahead(s, h, id) || (Ahead(s', h, id) == Ahead(s, h, id) && |s'.flight| < |s.flight|)
  {
    if c.Rx? {
      a, s' := HopReceive(garble, s, graph, h, id, text, k, newKey, c);
    } else {
      assert CopyFresh(s, h, id, text, c);
      NetsIn(s, h, id, c);
      a, s' := HopForward(garble, s, graph, h, id, text, k);
    }
  }

  lemma {:induction false} HopDrain(garble: Garble, s: System, run: seq<Action>, graph: set<(Host, Host)>, h: Host,
                                    id: nat, text: Bytes, k: nat, newKey: Key) returns (all: seq<Action>)
    requires Ongoing(garble, s, run, graph, h, id, text, k) && HopRun(garble, s, run, h, id)
    ensures CalmRun(garble, s, all, h, id) && HopRun(garble, s, all, h, id)
    ensures forall c | c in Run(garble, s, all).flight :: !Ours(c.m, h, id)
    decreases Ahead(Run(garble, s, run), h, id), |Run(garble, s, run).flight|
  {
    all := run;
    var s1 := Run(garble, s, run);
    if c :| c in s1.flight && Ours(c.m, h, id) {
      var a, s2 := HopNext(garble, s1, graph, h, id, text, k, newKey, c);
      HopMore(garble, s, run, a, h, id);
      OngoingMore(garble, s, run, a, s1, s2, graph, h, id, text, k);
      all := HopDrain(garble, s, run + [a], graph, h, id, text, k, newKey);
    }
  }

  lemma LaunchHop(garble: Garble, s: System, a: Action, h: Host, id: nat)
    requires a.Fwd? && a.c.Local?
    ensures HopRun(garble, s, [a], h, id)
  {
    assert [a][..0] == [];
  }

  /** The broadcast is sent and published by its origin. */
  lemma Broadcasts(garble: Garble, s0: System, h: Host, text: string, k: nat) returns (s1: System, run: seq<Action>)
    requires Inv(s0) && h in s0.nodes && KeysKnown(s0) && AllAlive(s0)
    ensures var id := s0.nodes[h].localId;
            && s1 == Step(garble, s0, SendAll(h, text, k))
            && Ongoing(garble, s1, run, Hearing(s0), h, id, Text(text), k) && HopRun(garble, s1, run, h, id)
            && RecordsOf(Run(garble, s1, run).pubs, h, id) == {(h, k + 1)}
  {
    var id := s0.nodes[h].localId;
    var m := SendCalm(garble, s0, h, text, k);
    s1 := Step(garble, s0, SendAll(h, text, k));
    run := Launch(garble, s1, Hearing(s0), h, id, Text(text), k, m);
    LaunchHop(garble, s1, Fwd(Local(h, m)), h, id);
    assert run == [Fwd(Local(h, m))];
  }

  /** From every state with all keys known, some run brings the broadcast to its end in hop order. */
  lemma DrainsInHopOrder(garble: Garble, s0: System, h: Host, text: string, k: nat)
    returns (run: seq<Action>, s: System)
    requires Inv(s0) && h in s0.nodes && KeysKnown(s0) && AllAlive(s0)
    ensures Drained(garble, s0, h, text, k, run, s)
    ensures HopRun(garble, Step(garble, s0, SendAll(h, text, k)), run, h, s0.nodes[h].localId)
  {
    var id, graph := s0.nodes[h].localId, Hearing(s0);
    var s1;
    s1, run := Broadcasts(garble, s0, h, text, k);
    run := HopDrain(garble, s1, run, graph, h, id, Text(text), k, s0.nodes[h].key);
    s := Run(garble, s1, run);
  }

  // ---------------------------------------------------------------- the theorems

  /** A calm run, in any order, after which no copy of the broadcast is left and these are its publications. */
  ghost predicate EndsWith(garble: Garble, s0: System, h: Host, text: string, k: nat, run: seq<Action>, s: System,
                           records: set<(Host, int)>)
  {
    Drained(garble, s0, h, text, k, run, s) && RecordsOf(s.pubs, h, s0.nodes[h].localId) == records
  }

  lemma FillAndDrain(garble: Garble, s: System, run: seq<Action>, graph: set<(Host, Host)>, h: Host, id: nat,
                     text: Bytes, k: nat, newKey: Key, goal: set<(Host, int)>) returns (all: seq<Action>)
    requires Ongoing(garble, s, run, graph, h, id, text, k) && Settled(graph, h, k, goal)
    requires RecordsOf(Run(garble, s, run).pubs, h, id) <= goal
    ensures CalmRun(garble, s, all, h, id) && forall c | c in Run(garble, s, all).flight :: !Ours(c.m, h, id)
    ensures RecordsOf(Run(garble, s, all).pubs, h, id) == goal
  {
    all := Fill(garble, s, run, graph, h, id, text, k, goal);
    all := Drain(garble, s, all, graph, h, id, text, k, newKey);
  }

  lemma SettledIsReached(garble: Garble, s0: System, h: Host, text: string, k: nat, records: set<(Host, int)>)
    returns (run: seq<Action>, s: System)
    requires Inv(s0) && h in s0.nodes && KeysKnown(s0) && AllAlive(s0) && Settled(Hearing(s0), h, k, records)
    ensures EndsWith(garble, s0, h, text, k, run, s, records)
  {
    var id, graph := s0.nodes[h].localId, Hearing(s0);
    var s1;
    s1, run := Broadcasts(garble, s0, h, text, k);
    run := FillAndDrain(garble, s1, run, graph, h, id, Text(text), k, s0.nodes[h].key, records);
    s := Run(garble, s1, run);
  }

  lemma EndIsSettled(garble: Garble, s0: System, h: Host, text: string, k: nat, run: seq<Action>, s: System)
    requires Inv(s0) && Drained(garble, s0, h, text, k, run, s)
    ensures var id := s0.nodes[h].localId;
            && Settled(Hearing(s0), h, k, RecordsOf(s.pubs, h, id))
            && forall n :: n in AcceptedOf(s.got, h, id) <==> n != h && Has(RecordsOf(s.pubs, h, id), n)
  {
    DrainedInv(garble, s0, h, text, k, run, s);
    DrainedSettles(Hearing(s0), h, k, ViewOf(s, h, s0.nodes[h].localId));
  }

  /**
    After any run, with all group keys known: the sets of publications in which a broadcast can end, over all
    orders of its copies and whatever other nodes send, are exactly the settled ones.
   */
  lemma OutcomesExactly(garble: Garble, keys: map<Host, Key>, radio: set<(Host, Host)>, before: seq<Action>, s0: System,
                        h: Host, text: string, k: nat, records: set<(Host, int)>)
    requires s0 == Run(garble, Start(keys, radio), before) && h in s0.nodes && KeysKnown(s0) && AllAlive(s0)
    ensures (exists run, s :: EndsWith(garble, s0, h, text, k, run, s, records)) <==> Settled(Hearing(s0), h, k,
             records)
  {
    RunInv(garble, keys, radio, before);
    if run, s :| EndsWith(garble, s0, h, text, k, run, s, records) {
      EndIsSettled(garble, s0, h, text, k, run, s);
    }
    if Settled(Hearing(s0), h, k, records) {
      var run, s := SettledIsReached(garble, s0, h, text, k, records);
    }
  }

  /** Every settled set has n. */
  ghost predicate Sure(graph: set<(Host, Host)>, h: Host, k: nat, n: Host)
  {
    n != h && forall records | Settled(graph, h, k, records) :: Has(records, n)
  }

  /** A run that leaves n out, if n is not sure to be reached. */
  lemma Missed(garble: Garble, s0: System, h: Host, text: string, k: nat, n: Host) returns (run: seq<Action>, s: System)
    requires Inv(s0) && h in s0.nodes && KeysKnown(s0) && AllAlive(s0) && !Sure(Hearing(s0), h, k, n)
    ensures Drained(garble, s0, h, text, k, run, s) && n !in AcceptedOf(s.got, h, s0.nodes[h].localId)
  {
    if n == h {
      run, s := DrainsInHopOrder(garble, s0, h, text, k);
    } else {
      var records :| Settled(Hearing(s0), h, k, records) && !Has(records, n);
      run, s := SettledIsReached(garble, s0, h, text, k, records);
    }
    EndIsSettled(garble, s0, h, text, k, run, s);
  }

  /** A node gets the broadcast whatever the order if and only if every settled set of the graph has it. */
  lemma SureExactly(garble: Garble, keys: map<Host, Key>, radio: set<(Host, Host)>, before: seq<Action>, s0: System,
                    h: Host, text: string, k: nat, n: Host)
    requires s0 == Run(garble, Start(keys, radio), before) && h in s0.nodes && KeysKnown(s0) && AllAlive(s0)
    ensures (forall run, s | Drained(garble, s0, h, text, k, run, s) :: n in AcceptedOf(s.got, h, s0.nodes[h].localId))
       <==> Sure(Hearing(s0), h, k, n)
  {
    RunInv(garble, keys, radio, before);
    var graph, id := Hearing(s0), s0.nodes[h].localId;
    if Sure(graph, h, k, n) {
      forall run, s | Drained(garble, s0, h, text, k, run, s) ensures n in AcceptedOf(s.got, h, id) {
        EndIsSettled(garble, s0, h, text, k, run, s);
      }
    } else {
      var run, s := Missed(garble, s0, h, text, k, n);
    }
  }

  /** BroadcastReachesExactly is not about nothing: such a run exists from every state with all keys known. */
  lemma HopOrderIsPossible(garble: Garble, keys: map<Host, Key>, radio: set<(Host, Host)>, before: seq<Action>,
                           s0: System, h: Host, text: string, k: nat)
    requires s0 == Run(garble, Start(keys, radio), before) && h in s0.nodes && KeysKnown(s0) && AllAlive(s0)
    ensures exists run, s ::
              && Drained(garble, s0, h, text, k, run, s)
              && HopRun(garble, Step(garble, s0, SendAll(h, text, k)), run, h, s0.nodes[h].localId)
  {
    RunInv(garble, keys, radio, before);
    var run, s := DrainsInHopOrder(garble, s0, h, text, k);
  }

  // ---------------------------------------------------------------- a bound by the longest path

  /** A path from h on which every node hears the one before it and none comes twice. */
  predicate Simple(graph: set<(Host, Host)>, h: Host, path: seq<Host>)
  {
    && path != [] && path[0] == h
    && (forall i | 1 <= i < |path| :: (path[i], path[i - 1]) in graph)
    && (forall i, j | 0 <= i < j < |path| :: path[i] != path[j])
  }

  /** The TTL goes down by one from node to node. */
  predicate Along(records: set<(Host, int)>, path: seq<Host>, k: nat)
  {
    forall i | 0 <= i < |path| :: (path[i], k + 1 - i) in records
  }

  lemma {:induction false} PathTo(graph: set<(Host, Host)>, h: Host, k: nat, records: set<(Host, int)>, r: (Host, int))
    returns (path: seq<Host>)
    requires Settled(graph, h, k, records) && r in records
    ensures Simple(graph, h, path) && Along(records, path, k) && |path| == k + 2 - r.1 && path[|path| - 1] == r.0
    decreases k + 1 - r.1
  {
    assert RecordSettled(graph, h, k, records, r);
    if r.1 == k + 1 {
      path := [h];
    } else {
      var p :| (p, r.1 + 1) in records && (r.0, p) in graph;
      assert RecordSettled(graph, h, k, records, (p, r.1 + 1));
      var init := PathTo(graph, h, k, records, (p, r.1 + 1));
      path := init + [r.0];
      forall i | 0 <= i < |init| ensures init[i] != r.0 {
        assert (init[i], k + 1 - i) in records;
      }
    }
  }

  /** A node within reach that has not published lies behind a path that used up the TTL. */
  lemma {:induction false} PathBefore(graph: set<(Host, Host)>, h: Host, k: nat, records: set<(Host, int)>, n: Host,
                                      d: nat) returns (path: seq<Host>)
    requires Settled(graph, h, k, records) && InBall(graph, h, n, d) && !Has(records, n)
    ensures Simple(graph, h, path) && |path| == k + 2
    decreases d
  {
    assert d == 0 ==> Has(records, n);
    if InBall(graph, h, n, d - 1) {
      path := PathBefore(graph, h, k, records, n, d - 1);
    } else {
      var p :| InBall(graph, h, p, d - 1) && (n, p) in graph;
      if Has(records, p) {
        path := PathThrough(graph, h, k, records, p, n);
      } else {
        path := PathBefore(graph, h, k, records, p, d - 1);
      }
    }
  }

  lemma PathThrough(graph: set<(Host, Host)>, h: Host, k: nat, records: set<(Host, int)>, p: Host, n: Host)
    returns (path: seq<Host>)
    requires Settled(graph, h, k, records) && Has(records, p) && !Has(records, n) && (n, p) in graph
    ensures Simple(graph, h, path) && |path| == k + 2
  {
    var t :| (p, t) in records;
    assert RecordSettled(graph, h, k, records, (p, t));
    assert t == 1;
    var init := PathTo(graph, h, k, records, (p, t));
    path := init + [n];
    forall i | 0 <= i < |init| ensures init[i] != n {
      assert (init[i], k + 1 - i) in records;
    }
  }

  /** No path without repetition is longer than k links. */
  ghost predicate PathsWithin(graph: set<(Host, Host)>, h: Host, k: nat)
  {
    forall path | Simple(graph, h, path) :: |path| <= k + 1
  }

  /** With k at least the length of the longest path from the origin, every order reaches everyone within reach. */
  lemma LongestPathSuffices(garble: Garble, keys: map<Host, Key>, radio: set<(Host, Host)>, before: seq<Action>,
                            h: Host, text: string, k: nat, run: seq<Action>, s0: System, s: System)
    requires s0 == Run(garble, Start(keys, radio), before) && Drained(garble, s0, h, text, k, run, s)
    requires PathsWithin(Hearing(s0), h, k)
    ensures forall n :: n in AcceptedOf(s.got, h, s0.nodes[h].localId) <==> n != h && Reachable(Hearing(s0), h, n)
  {
    var id, graph := s0.nodes[h].localId, Hearing(s0);
    RunInv(garble, keys, radio, before);
    EndIsSettled(garble, s0, h, text, k, run, s);
    var records := RecordsOf(s.pubs, h, id);
    forall n ensures Has(records, n) <==> Reachable(graph, h, n) {
      if Has(records, n) {
        DrainedInv(garble, s0, h, text, k, run, s);
        var t :| (n, t) in records;
        DoneIsReached(graph, h, k, ViewOf(s, h, id), n, t);
      } else if Reachable(graph, h, n) {
        var d :| InBall(graph, h, n, d);
        var path := PathBefore(graph, h, k, records, n, d);
      }
    }
  }

  lemma {:induction false} DistinctFit(path: seq<Host>, nodes: set<Host>)
    requires forall i | 0 <= i < |path| :: path[i] in nodes
    requires forall i, j | 0 <= i < j < |path| :: path[i] != path[j]
    ensures |path| <= |nodes|
  {
    if path != [] {
      DistinctFit(path[1..], nodes - {path[0]});
    }
  }

  /** A network of k + 1 nodes has no longer path. */
  lemma FewNodes(graph: set<(Host, Host)>, h: Host, k: nat, nodes: set<Host>)
    requires h in nodes && |nodes| <= k + 1 && forall e | e in graph :: e.0 in nodes
    ensures PathsWithin(graph, h, k)
  {
    forall path | Simple(graph, h, path) ensures |path| <= k + 1 {
      forall i | 0 <= i < |path| ensures path[i] in nodes {
        assert i > 0 ==> (path[i], path[i - 1]) in graph;
      }
      DistinctFit(path, nodes);
    }
  }

  /**
    With an API value of at least the number of nodes less one, every order reaches every node that the
    subscriptions connect to the origin, and no other.
   */
  lemma EnoughHopsReachAll(garble: Garble, keys: map<Host, Key>, radio: set<(Host, Host)>, before: seq<Action>,
                           h: Host, text: string, k: nat, run: seq<Action>, s0: System, s: System)
    requires s0 == Run(garble, Start(keys, radio), before) && Drained(garble, s0, h, text, k, run, s)
    requires k >= |s0.nodes.Keys| - 1
    ensures forall n :: n in AcceptedOf(s.got, h, s0.nodes[h].localId) <==> n != h && Reachable(Hearing(s0), h, n)
  {
    FewNodes(Hearing(s0), h, k, s0.nodes.Keys);
    LongestPathSuffices(garble, keys, radio, before, h, text, k, run, s0, s);
  }
}
