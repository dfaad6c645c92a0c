/**
  A run of two agents in which one changes its keys under an arbitrary SSID: the other's receive loop survives
  exactly if the third piece of the message names the sender.
 */
module KeyChangeRun {
  import opened Agent
  import opened Tokens
  import opened Network
  import opened KeyChange
  import opened ReceiveLoop

  /** What the run is made of; b hears a and knows a's first key. */
  datatype Case = Case(a: Host, b: Host, ka: Key, kb: Key, newKey: Key, freq: int, ssid: string, scanned: string)

  predicate CaseOk(x: Case)
  {
    x.a != x.b
  }

  function First(x: Case): (s: System)
  {
    Start(map[x.a := x.ka, x.b := x.kb], {(x.b, x.a)})
  }

  function Payload(x: Case): (p: Bytes)
  {
    Text(KcmPayload(x.freq, x.ssid, x.a))
  }

  /** The message as a sends it, as a publishes it, and as b does. */
  function Sent(x: Case): (m: Msg)
  {
    Msg(x.a, OldKeys, 1, Broadcast, 3, Kcm, Sealed(x.ka, Payload(x)), Sig(x.a, Payload(x)))
  }

  function Published(x: Case): (m: Msg)
  {
    Msg(x.a, Via(x.a), 1, Broadcast, 2, Kcm, Sealed(x.ka, Payload(x)), Sig(x.a, Payload(x)))
  }

  function Relayed(x: Case): (m: Msg)
  {
    Msg(x.a, Via(x.b), 1, Broadcast, 1, Kcm, Sealed(x.kb, Payload(x)), Sig(x.b, Payload(x)))
  }

  function JoinAct(x: Case): (act: Action)
  {
    Join(x.b, Scan(x.a, x.ka, Some(x.a), x.scanned, x.freq, 0, 0, 0))
  }

  function Acts(x: Case): (run: seq<Action>)
  {
    [JoinAct(x)] + [Rotate(x.a, x.newKey, x.freq, x.ssid)] + [Fwd(Local(x.a, Sent(x)))] + [Fwd(Net(x.b, Published(x)))]
    + [Rcv(Rx(x.b, Relayed(x)), x.newKey)]
  }

  /** b has its own entry and one for a, with a's first key. */
  predicate BReady(x: Case, s: System)
  {
    && x.b in s.nodes
    && var n := s.nodes[x.b];
    && n.name == x.b && n.key == x.kb && n.rxAlive && n.oldKeys.None? && n.nbrs.Keys == {x.a, x.b}
    && n.nbrs[x.a].encryptionKey == x.ka && n.nbrs[x.a].pubKey == Some(x.a)
  }

  lemma AfterJoin(garble: Garble, x: Case)
    requires CaseOk(x)
    ensures var s := Step(garble, First(x), JoinAct(x));
            BReady(x, s) && s.nodes[x.b].fwdCache == map[] && x.a in s.nodes && s.nodes[x.a] == Boot(x.a, x.ka)
  {
  }

  lemma AfterRotate(garble: Garble, x: Case, s: System)
    requires CaseOk(x) && BReady(x, s) && s.nodes[x.b].fwdCache == map[] && x.a in s.nodes && s.nodes[x.a] == Boot(x.a, x.ka)
    ensures var s' := Step(garble, s, Rotate(x.a, x.newKey, x.freq, x.ssid));
            && BReady(x, s') && s'.nodes[x.b] == s.nodes[x.b] && Local(x.a, Sent(x)) in s'.flight
            && x.a in s'.nodes && s'.nodes[x.a].name == x.a && s'.nodes[x.a].oldKeys == Some(x.ka)
            && s'.nodes[x.a].fwdCache == map[]
  {
  }

  lemma AfterPublish(garble: Garble, x: Case, s: System)
    requires CaseOk(x) && BReady(x, s) && s.nodes[x.b].fwdCache == map[] && Local(x.a, Sent(x)) in s.flight
    requires x.a in s.nodes && s.nodes[x.a].name == x.a && s.nodes[x.a].oldKeys == Some(x.ka)
    requires s.nodes[x.a].fwdCache == map[]
    ensures var s' := Step(garble, s, Fwd(Local(x.a, Sent(x))));
            && BReady(x, s') && s'.nodes[x.b] == s.nodes[x.b] && Net(x.b, Published(x)) in s'.flight
  {
    var n := s.nodes[x.a];
    assert OpenHop(garble, n, Sent(x)) == Some(Payload(x));
    assert Forward(garble, n, Sent(x)).out == Some(Published(x));
    assert x.b in Subscribers(s, x.a);
    assert Net(x.b, Published(x)) in NetCopies(s, x.a, Published(x));
  }

  lemma AfterRelay(garble: Garble, x: Case, s: System)
    requires CaseOk(x) && BReady(x, s) && s.nodes[x.b].fwdCache == map[] && Net(x.b, Published(x)) in s.flight
    ensures var s' := Step(garble, s, Fwd(Net(x.b, Published(x))));
            BReady(x, s') && Rx(x.b, Relayed(x)) in s'.flight
  {
    var n := s.nodes[x.b];
    assert OpenHop(garble, n, Published(x)) == Some(Payload(x));
    assert Forward(garble, n, Published(x)).out == Some(Relayed(x));
  }

  lemma ReceiveIsHandle(garble: Garble, x: Case, s: System)
    requires CaseOk(x) && BReady(x, s)
    ensures Receive(garble, s.nodes[x.b], Relayed(x), x.newKey) == HandleKcm(s.nodes[x.b], Relayed(x), Payload(x))
  {
  }

  lemma HandleKeepsList(n: Node, m: Msg, plain: Bytes)
    ensures HandleKcm(n, m, plain).node.nbrs.Keys == n.nbrs.Keys && HandleKcm(n, m, plain).node.name == n.name
  {
  }

  lemma AfterReceive(garble: Garble, x: Case, s: System)
    requires CaseOk(x) && BReady(x, s) && Rx(x.b, Relayed(x)) in s.flight
    ensures var s' := Step(garble, s, Rcv(Rx(x.b, Relayed(x)), x.newKey));
            && x.b in s'.nodes && s'.nodes[x.b].nbrs.Keys == {x.a, x.b}
            && (s'.nodes[x.b].rxAlive <==> Target(x.ssid, x.a) == x.a)
  {
    var n := s.nodes[x.b];
    ReceiveIsHandle(garble, x, s);
    HandleKeepsList(n, Relayed(x), Payload(x));
    KcmSurvivesExactly(n, Relayed(x), x.freq, x.ssid, x.a);
  }

  /**
    From the start, b comes to hear a, a changes its keys under the SSID, and the message takes its way.  b drops
    no entry; its receive loop goes on if and only if the third piece of the message is a.
   */
  lemma LoopEndsExactly(garble: Garble, x: Case)
    requires CaseOk(x)
    ensures var s := Run(garble, First(x), Acts(x));
            && x.b in s.nodes && s.nodes[x.b].nbrs.Keys == {x.a, x.b}
            && (s.nodes[x.b].rxAlive <==> Target(x.ssid, x.a) == x.a)
    ensures NeverDropsAny(garble, First(x), Acts(x), x.b)
  {
    var s0 := First(x);
    var r1 := [JoinAct(x)];
    var r2 := r1 + [Rotate(x.a, x.newKey, x.freq, x.ssid)];
    var r3 := r2 + [Fwd(Local(x.a, Sent(x)))];
    var r4 := r3 + [Fwd(Net(x.b, Published(x)))];
    assert [] + r1 == r1;
    AfterJoin(garble, x);
    Extend(garble, x, [], JoinAct(x));
    AfterRotate(garble, x, Run(garble, s0, r1));
    Extend(garble, x, r1, Rotate(x.a, x.newKey, x.freq, x.ssid));
    AfterPublish(garble, x, Run(garble, s0, r2));
    Extend(garble, x, r2, Fwd(Local(x.a, Sent(x))));
    AfterRelay(garble, x, Run(garble, s0, r3));
    Extend(garble, x, r3, Fwd(Net(x.b, Published(x))));
    AfterReceive(garble, x, Run(garble, s0, r4));
    Extend(garble, x, r4, Rcv(Rx(x.b, Relayed(x)), x.newKey));
  }

  lemma Extend(garble: Garble, x: Case, run: seq<Action>, act: Action)
    ensures Run(garble, First(x), run + [act]) == Step(garble, Run(garble, First(x), run), act)
    ensures NeverDropsAny(garble, First(x), run, x.b)
            && KeepsAll(Run(garble, First(x), run), Step(garble, Run(garble, First(x), run), act), x.b)
            ==> NeverDropsAny(garble, First(x), run + [act], x.b)
  {
    assert (run + [act])[..|run|] == run;
  }

  /** An SSID with a bar and anything but the sender's name behind it ends the loop, b's own name included. */
  lemma BarEndsLoop(garble: Garble, x: Case)
    requires CaseOk(x) && !Lacks(x.ssid, '|') && Split(x.ssid, '|')[1] != x.a
    ensures var s := Run(garble, First(x), Acts(x)); x.b in s.nodes && !s.nodes[x.b].rxAlive
  {
    SplitOne(x.ssid, '|');
    LoopEndsExactly(garble, x);
  }
}
