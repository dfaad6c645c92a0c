/**
  One broadcast whose copies are taken in any order: it is accepted exactly by the nodes that hear a relay, a
  node that published it with a TTL of at least 2.  Which nodes these can be is the subject of FloodOutcomes.
 */
module FloodAnyOrder {
  import opened Agent
  import opened Network
  import opened FloodSafety
  import opened HopFlood
  import opened FloodComplete

  /** Where a calm run stands: still pending, or published, on the same nodes with the same subscriptions. */
  ghost predicate AnyStage(s: System, graph: set<(Host, Host)>, nodes: set<Host>, h: Host, id: nat, text: Bytes, k: nat,
                           m: Msg)
  {
    && Calm(s, h, id, text, k) && Hearing(s) == graph && s.nodes.Keys == nodes
    && (Pending(s, h, id, m) || (NoLocal(s, h, id) && AnyInv(graph, h, k, ViewOf(s, h, id))))
  }

  lemma HandlerNodes(garble: Garble, s: System, a: Action)
    requires Inv(s) && (a.Fwd? || a.Rcv?) && Enabled(s, a)
    ensures Step(garble, s, a).nodes.Keys == s.nodes.Keys
  {
    assert NodeOk(s, a.c.dst);
    if a.Fwd? {
      ForwardGroupKeys(garble, s.nodes[a.c.dst], a.c.m);
    } else {
      ReceiveGroupKeys(garble, s.nodes[a.c.dst], a.c.m, a.newKey);
    }
  }

  lemma SendNodes(garble: Garble, s: System, a: Action)
    requires Inv(s) && (a.SendAll? || a.SendTo?) && Enabled(s, a)
    ensures Step(garble, s, a).nodes.Keys == s.nodes.Keys
  {
    assert NodeOk(s, a.n);
  }

  lemma NodesStay(garble: Garble, s: System, a: Action)
    requires Inv(s) && (a.Fwd? || a.Rcv? || a.SendAll? || a.SendTo? || a.Lose?)
    ensures Step(garble, s, a).nodes.Keys == s.nodes.Keys
  {
    if Enabled(s, a) {
      if a.Fwd? || a.Rcv? {
        HandlerNodes(garble, s, a);
      } else if !a.Lose? {
        SendNodes(garble, s, a);
      }
    }
  }

  lemma AnyStageStep(garble: Garble, s: System, a: Action, graph: set<(Host, Host)>, nodes: set<Host>, h: Host, id: nat,
                     text: Bytes, k: nat, m: Msg)
    requires AnyStage(s, graph, nodes, h, id, text, k, m) && CalmStep(garble, s, a, h, id)
    ensures AnyStage(Step(garble, s, a), graph, nodes, h, id, text, k, m)
  {
    var s' := Step(garble, s, a);
    CalmKept(garble, s, a, h, id, text, k);
    NodesStay(garble, s, a);
    if Pending(s, h, id, m) {
      PendingStep(garble, s, a, h, id, text, k, m);
      if !Pending(s', h, id, m) {
        LaunchedAny(graph, h, k, ViewOf(s', h, id));
      }
    } else if OnOurs(a, h, id) {
      OurStep(garble, s, a, h, id, text, k);
      WaitingDone(s, h, id);
      assert Move(graph, ViewOf(s, h, id), ViewOf(s', h, id));
      MoveAny(graph, h, k, ViewOf(s, h, id), ViewOf(s', h, id));
    } else {
      OtherStep(garble, s, a, h, id, text, k);
      NoLocalKept(s, s', h, id);
    }
  }

  lemma {:induction false} AnyStageRun(garble: Garble, s: System, run: seq<Action>, graph: set<(Host, Host)>,
                                       nodes: set<Host>, h: Host, id: nat, text: Bytes, k: nat, m: Msg)
    requires AnyStage(s, graph, nodes, h, id, text, k, m) && CalmRun(garble, s, run, h, id)
    ensures AnyStage(Run(garble, s, run), graph, nodes, h, id, text, k, m)
  {
    if run != [] {
      var init := run[..|run| - 1];
      AnyStageRun(garble, s, init, graph, nodes, h, id, text, k, m);
      AnyStageStep(garble, Run(garble, s, init), run[|run| - 1], graph, nodes, h, id, text, k, m);
    }
  }

  /** s is the end of a calm run, in any order, of a broadcast of h that began in s0; no copy of it is left. */
  ghost predicate Drained(garble: Garble, s0: System, h: Host, text: string, k: nat, run: seq<Action>, s: System)
  {
    && h in s0.nodes && KeysKnown(s0) && AllAlive(s0)
    && CalmRun(garble, Step(garble, s0, SendAll(h, text, k)), run, h, s0.nodes[h].localId)
    && s == Run(garble, Step(garble, s0, SendAll(h, text, k)), run)
    && (forall c | c in s.flight :: !Ours(c.m, h, s0.nodes[h].localId))
  }

  lemma DrainedInv(garble: Garble, s0: System, h: Host, text: string, k: nat, run: seq<Action>, s: System)
    requires Inv(s0) && Drained(garble, s0, h, text, k, run, s)
    ensures var id := s0.nodes[h].localId;
            var v := ViewOf(s, h, id);
            && Calm(s, h, id, Text(text), k) && AnyInv(Hearing(s0), h, k, v) && v.nets == {} && v.waiting == {}
            && v.done <= s0.nodes.Keys
  {
    var id := s0.nodes[h].localId;
    var s1 := Step(garble, s0, SendAll(h, text, k));
    var m := SendCalm(garble, s0, h, text, k);
    NodesStay(garble, s0, SendAll(h, text, k));
    AnyStageRun(garble, s1, run, Hearing(s0), s0.nodes.Keys, h, id, Text(text), k, m);
    assert !Pending(s, h, id, m);
    DrainedView(s, h, id);
  }

  /**
    In any order, a broadcast is in the end accepted, with its text and once, exactly by the nodes other than its
    origin that hear a node which published it with a TTL of at least 2.
   */
  lemma AnyOrderReaches(garble: Garble, keys: map<Host, Key>, radio: set<(Host, Host)>, before: seq<Action>,
                        h: Host, text: string, k: nat, run: seq<Action>, s0: System, s: System)
    requires s0 == Run(garble, Start(keys, radio), before) && Drained(garble, s0, h, text, k, run, s)
    ensures var id := s0.nodes[h].localId;
            && (forall n :: n in AcceptedOf(s.got, h, id) <==>
                              n != h && HearsRelay(Hearing(s0), RecordsOf(s.pubs, h, id), n))
            && (forall i | 0 <= i < |s.got| && s.got[i].host == h && s.got[i].id == id ::
                  && s.got[i].plain == Text(text)
                  && (forall j | 0 <= j < |s.got| && s.got[j].node == s.got[i].node && s.got[j].host == h
                                 && s.got[j].id == s.got[i].id :: j == i))
  {
    var id := s0.nodes[h].localId;
    RunInv(garble, keys, radio, before);
    DrainedInv(garble, s0, h, text, k, run, s);
    AcceptedOnce(s, h, id, Text(text), k);
    forall n ensures n in AcceptedOf(s.got, h, id) <==> n != h && HearsRelay(Hearing(s0), RecordsOf(s.pubs, h, id), n) {
      DrainedAny(Hearing(s0), h, k, ViewOf(s, h, id), n);
    }
  }
}
