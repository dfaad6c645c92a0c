/**
  A run of two agents from the start to a shared unicast key: a asks b, b answers.  After it, b dropping its entry
  for a breaks the agreement.
 */
module KeyExchangeRun {
  import opened Agent
  import opened Network
  import opened FloodSafety
  import opened KeyAgreement

  datatype Case = Case(a: Host, b: Host, ka: Key, kb: Key, k: Key, text: string)

  predicate CaseOk(x: Case)
  {
    x.a != x.b
  }

  function First(x: Case): (s: System)
  {
    Start(map[x.a := x.ka, x.b := x.kb], {(x.a, x.b), (x.b, x.a)})
  }

  /** A unicast control message of p for q as p sends it (ttl 3), as p publishes it (2) and as q does (1). */
  function Ctrl(p: Host, q: Host, kind: Kind, body: Bytes, key: Key, hop: Host, ttl: int): (m: Msg)
  {
    Msg(p, Via(hop), 1, To(q), ttl, kind, Sealed(key, body), Sig(hop, body))
  }

  // ---------------------------------------------------------------- one agent

  /** n is agent p with key kp, and knows q with key kq. */
  predicate AgentUp(n: Node, p: Host, kp: Key, q: Host, kq: Key)
  {
    && n.name == p && n.key == kp && n.rxAlive && n.nbrs.Keys == {p, q} && n.nbrs[p].encryptionKey == kp
    && n.nbrs[q].encryptionKey == kq && n.nbrs[q].pubKey == Some(q)
  }

  /** Handlers change neither keys nor unicast keys here, only caches and counters. */
  predicate SameKeys(n: Node, n': Node, q: Host)
    requires q in n.nbrs && q in n'.nbrs
  {
    && n'.localId == n.localId && n'.nbrs[q].unicastSendKey == n.nbrs[q].unicastSendKey
    && n'.nbrs[q].unicastRecKey == n.nbrs[q].unicastRecKey
  }

  lemma OwnForward(garble: Garble, n: Node, p: Host, kp: Key, q: Host, kq: Key, kind: Kind, body: Bytes)
    requires p != q && AgentUp(n, p, kp, q, kq) && Seen(n, p) == 0
    ensures var r := Forward(garble, n, Ctrl(p, q, kind, body, kp, p, 3));
            && r.out == Some(Ctrl(p, q, kind, body, kp, p, 2)) && AgentUp(r.node, p, kp, q, kq) && SameKeys(n, r.node, q)
            && Seen(r.node, p) == 1 && Seen(r.node, q) == Seen(n, q)
  {
    assert OpenHop(garble, n, Ctrl(p, q, kind, body, kp, p, 3)) == Some(body);
  }

  lemma PeerForward(garble: Garble, n: Node, q: Host, kq: Key, p: Host, kp: Key, kind: Kind, body: Bytes)
    requires p != q && AgentUp(n, q, kq, p, kp) && Seen(n, p) == 0
    ensures var r := Forward(garble, n, Ctrl(p, q, kind, body, kp, p, 2));
            && r.out == Some(Ctrl(p, q, kind, body, kq, q, 1)) && AgentUp(r.node, q, kq, p, kp) && SameKeys(n, r.node, p)
            && Seen(r.node, p) == 1 && Seen(r.node, q) == Seen(n, q)
  {
    assert OpenHop(garble, n, Ctrl(p, q, kind, body, kp, p, 2)) == Some(body);
  }

  // ---------------------------------------------------------------- the state

  /** How far the exchange has come: what each has seen of the other and itself, next ids, and b's and a's unicast keys. */
  datatype Point = Point(aa: nat, ab: nat, ba: nat, bb: nat, idA: nat, idB: nat, recB: Option<Key>, sendA: Option<Key>)

  predicate At(x: Case, s: System, t: Point)
  {
    && s.nodes.Keys == {x.a, x.b} && s.radio == {(x.a, x.b), (x.b, x.a)}
    && var na, nb := s.nodes[x.a], s.nodes[x.b];
    && AgentUp(na, x.a, x.ka, x.b, x.kb) && AgentUp(nb, x.b, x.kb, x.a, x.ka)
    && Seen(na, x.a) == t.aa && Seen(na, x.b) == t.ab && Seen(nb, x.a) == t.ba && Seen(nb, x.b) == t.bb
    && na.localId == t.idA && nb.localId == t.idB
    && nb.nbrs[x.a].unicastRecKey == t.recB && na.nbrs[x.b].unicastSendKey == t.sendA
  }

  function Asked(x: Case): (body: Bytes)
  {
    Oaep(x.b, Text(""))
  }

  function Answered(x: Case): (body: Bytes)
  {
    Oaep(x.a, NukText(x.k))
  }

  function Ask(x: Case, key: Key, hop: Host, ttl: int): (m: Msg)
  {
    Ctrl(x.a, x.b, Ruk, Asked(x), key, hop, ttl)
  }

  function Answer(x: Case, key: Key, hop: Host, ttl: int): (m: Msg)
  {
    Ctrl(x.b, x.a, Nuk, Answered(x), key, hop, ttl)
  }

  function JoinOf(n: Host, p: Host, key: Key): (act: Action)
  {
    Join(n, Scan(p, key, Some(p), "net", 2412, 0, 0, 0))
  }

  // ---------------------------------------------------------------- the steps

  lemma AfterJoins(garble: Garble, x: Case)
    requires CaseOk(x)
    ensures var s := Step(garble, Step(garble, First(x), JoinOf(x.a, x.b, x.kb)), JoinOf(x.b, x.a, x.ka));
            At(x, s, Point(0, 0, 0, 0, 1, 1, None, None))
  {
  }

  lemma AfterAsking(garble: Garble, x: Case, s: System)
    requires CaseOk(x) && At(x, s, Point(0, 0, 0, 0, 1, 1, None, None))
    ensures var s' := Step(garble, s, SendTo(x.a, x.b, x.text));
            At(x, s', Point(0, 0, 0, 0, 2, 1, None, None)) && Local(x.a, Ask(x, x.ka, x.a, 3)) in s'.flight
  {
  }

  lemma AskPublished(garble: Garble, x: Case, s: System)
    requires CaseOk(x) && At(x, s, Point(0, 0, 0, 0, 2, 1, None, None)) && Local(x.a, Ask(x, x.ka, x.a, 3)) in s.flight
    ensures var s' := Step(garble, s, Fwd(Local(x.a, Ask(x, x.ka, x.a, 3))));
            At(x, s', Point(1, 0, 0, 0, 2, 1, None, None)) && Net(x.b, Ask(x, x.ka, x.a, 2)) in s'.flight
  {
    OwnForward(garble, s.nodes[x.a], x.a, x.ka, x.b, x.kb, Ruk, Asked(x));
    assert x.b in Subscribers(s, x.a);
    assert Net(x.b, Ask(x, x.ka, x.a, 2)) in NetCopies(s, x.a, Ask(x, x.ka, x.a, 2));
  }

  lemma AskRelayed(garble: Garble, x: Case, s: System)
    requires CaseOk(x) && At(x, s, Point(1, 0, 0, 0, 2, 1, None, None)) && Net(x.b, Ask(x, x.ka, x.a, 2)) in s.flight
    ensures var s' := Step(garble, s, Fwd(Net(x.b, Ask(x, x.ka, x.a, 2))));
            At(x, s', Point(1, 0, 1, 0, 2, 1, None, None)) && Rx(x.b, Ask(x, x.kb, x.b, 1)) in s'.flight
  {
    PeerForward(garble, s.nodes[x.b], x.b, x.kb, x.a, x.ka, Ruk, Asked(x));
  }

  lemma Answers(garble: Garble, n: Node, x: Case)
    requires CaseOk(x) && AgentUp(n, x.b, x.kb, x.a, x.ka) && n.nbrs[x.a].unicastRecKey.None? && n.localId == 1
    ensures var r := Receive(garble, n, Ask(x, x.kb, x.b, 1), x.k);
            && r.reply == Some(Answer(x, x.kb, x.b, 3)) && AgentUp(r.node, x.b, x.kb, x.a, x.ka)
            && r.node.localId == 2 && r.node.nbrs[x.a].unicastRecKey == Some(x.k) && r.node.fwdCache == n.fwdCache
  {
    assert Receive(garble, n, Ask(x, x.kb, x.b, 1), x.k) == HandleRuk(n, Ask(x, x.kb, x.b, 1), Text(""), x.k);
  }

  lemma AskTaken(garble: Garble, x: Case, s: System)
    requires CaseOk(x) && At(x, s, Point(1, 0, 1, 0, 2, 1, None, None)) && Rx(x.b, Ask(x, x.kb, x.b, 1)) in s.flight
    ensures var s' := Step(garble, s, Rcv(Rx(x.b, Ask(x, x.kb, x.b, 1)), x.k));
            At(x, s', Point(1, 0, 1, 0, 2, 2, Some(x.k), None)) && Local(x.b, Answer(x, x.kb, x.b, 3)) in s'.flight
  {
    Answers(garble, s.nodes[x.b], x);
  }

  lemma AnswerPublished(garble: Garble, x: Case, s: System)
    requires CaseOk(x) && At(x, s, Point(1, 0, 1, 0, 2, 2, Some(x.k), None)) && Local(x.b, Answer(x, x.kb, x.b, 3)) in s.flight
    ensures var s' := Step(garble, s, Fwd(Local(x.b, Answer(x, x.kb, x.b, 3))));
            At(x, s', Point(1, 0, 1, 1, 2, 2, Some(x.k), None)) && Net(x.a, Answer(x, x.kb, x.b, 2)) in s'.flight
  {
    OwnForward(garble, s.nodes[x.b], x.b, x.kb, x.a, x.ka, Nuk, Answered(x));
    assert x.a in Subscribers(s, x.b);
    assert Net(x.a, Answer(x, x.kb, x.b, 2)) in NetCopies(s, x.b, Answer(x, x.kb, x.b, 2));
  }

  lemma AnswerRelayed(garble: Garble, x: Case, s: System)
    requires CaseOk(x) && At(x, s, Point(1, 0, 1, 1, 2, 2, Some(x.k), None)) && Net(x.a, Answer(x, x.kb, x.b, 2)) in s.flight
    ensures var s' := Step(garble, s, Fwd(Net(x.a, Answer(x, x.kb, x.b, 2))));
            At(x, s', Point(1, 1, 1, 1, 2, 2, Some(x.k), None)) && Rx(x.a, Answer(x, x.ka, x.a, 1)) in s'.flight
  {
    PeerForward(garble, s.nodes[x.a], x.a, x.ka, x.b, x.kb, Nuk, Answered(x));
  }

  lemma AnswerTaken(garble: Garble, x: Case, s: System)
    requires CaseOk(x) && At(x, s, Point(1, 1, 1, 1, 2, 2, Some(x.k), None)) && Rx(x.a, Answer(x, x.ka, x.a, 1)) in s.flight
    ensures var s' := Step(garble, s, Rcv(Rx(x.a, Answer(x, x.ka, x.a, 1)), 0));
            At(x, s', Point(1, 1, 1, 1, 2, 2, Some(x.k), Some(x.k)))
  {
    var n, m := s.nodes[x.a], Answer(x, x.ka, x.a, 1);
    assert Receive(garble, n, m, 0) == HandleNuk(n, m, NukText(x.k));
  }

  // ---------------------------------------------------------------- the run

  function Acts(x: Case): (run: seq<Action>)
  {
    [] + [JoinOf(x.a, x.b, x.kb)] + [JoinOf(x.b, x.a, x.ka)] + [SendTo(x.a, x.b, x.text)]
    + [Fwd(Local(x.a, Ask(x, x.ka, x.a, 3)))] + [Fwd(Net(x.b, Ask(x, x.ka, x.a, 2)))]
    + [Rcv(Rx(x.b, Ask(x, x.kb, x.b, 1)), x.k)]
    + [Fwd(Local(x.b, Answer(x, x.kb, x.b, 3)))] + [Fwd(Net(x.a, Answer(x, x.kb, x.b, 2)))]
    + [Rcv(Rx(x.a, Answer(x, x.ka, x.a, 1)), 0)]
  }

  lemma FirstHalf(garble: Garble, x: Case) returns (run: seq<Action>)
    requires CaseOk(x)
    ensures run == [] + [JoinOf(x.a, x.b, x.kb)] + [JoinOf(x.b, x.a, x.ka)] + [SendTo(x.a, x.b, x.text)]
                   + [Fwd(Local(x.a, Ask(x, x.ka, x.a, 3)))] + [Fwd(Net(x.b, Ask(x, x.ka, x.a, 2)))]
    ensures var s := Run(garble, First(x), run);
            At(x, s, Point(1, 0, 1, 0, 2, 1, None, None)) && Rx(x.b, Ask(x, x.kb, x.b, 1)) in s.flight
  {
    var s0 := First(x);
    var r1 := [] + [JoinOf(x.a, x.b, x.kb)];
    var r2 := r1 + [JoinOf(x.b, x.a, x.ka)];
    var r3 := r2 + [SendTo(x.a, x.b, x.text)];
    var r4 := r3 + [Fwd(Local(x.a, Ask(x, x.ka, x.a, 3)))];
    run := r4 + [Fwd(Net(x.b, Ask(x, x.ka, x.a, 2)))];
    RunSnoc(garble, s0, [], JoinOf(x.a, x.b, x.kb));
    RunSnoc(garble, s0, r1, JoinOf(x.b, x.a, x.ka));
    AfterJoins(garble, x);
    RunSnoc(garble, s0, r2, SendTo(x.a, x.b, x.text));
    AfterAsking(garble, x, Run(garble, s0, r2));
    RunSnoc(garble, s0, r3, Fwd(Local(x.a, Ask(x, x.ka, x.a, 3))));
    AskPublished(garble, x, Run(garble, s0, r3));
    RunSnoc(garble, s0, r4, Fwd(Net(x.b, Ask(x, x.ka, x.a, 2))));
    AskRelayed(garble, x, Run(garble, s0, r4));
  }

  lemma SecondHalf(garble: Garble, x: Case, r0: seq<Action>)
    requires CaseOk(x) && At(x, Run(garble, First(x), r0), Point(1, 0, 1, 0, 2, 1, None, None))
    requires Rx(x.b, Ask(x, x.kb, x.b, 1)) in Run(garble, First(x), r0).flight
    ensures var run := r0 + [Rcv(Rx(x.b, Ask(x, x.kb, x.b, 1)), x.k)] + [Fwd(Local(x.b, Answer(x, x.kb, x.b, 3)))]
                       + [Fwd(Net(x.a, Answer(x, x.kb, x.b, 2)))] + [Rcv(Rx(x.a, Answer(x, x.ka, x.a, 1)), 0)];
            At(x, Run(garble, First(x), run), Point(1, 1, 1, 1, 2, 2, Some(x.k), Some(x.k)))
  {
    var s0 := First(x);
    var r1 := r0 + [Rcv(Rx(x.b, Ask(x, x.kb, x.b, 1)), x.k)];
    var r2 := r1 + [Fwd(Local(x.b, Answer(x, x.kb, x.b, 3)))];
    var r3 := r2 + [Fwd(Net(x.a, Answer(x, x.kb, x.b, 2)))];
    RunSnoc(garble, s0, r0, Rcv(Rx(x.b, Ask(x, x.kb, x.b, 1)), x.k));
    AskTaken(garble, x, Run(garble, s0, r0));
    RunSnoc(garble, s0, r1, Fwd(Local(x.b, Answer(x, x.kb, x.b, 3))));
    AnswerPublished(garble, x, Run(garble, s0, r1));
    RunSnoc(garble, s0, r2, Fwd(Net(x.a, Answer(x, x.kb, x.b, 2))));
    AnswerRelayed(garble, x, Run(garble, s0, r2));
    RunSnoc(garble, s0, r3, Rcv(Rx(x.a, Answer(x, x.ka, x.a, 1)), 0));
    AnswerTaken(garble, x, Run(garble, s0, r3));
  }

  /** From the start, the exchange ends with the key shared; then b forgets a, and they no longer agree. */
  lemma SharedThenLost(garble: Garble, x: Case)
    requires CaseOk(x)
    ensures var s := Run(garble, First(x), Acts(x));
            && SendKeyIs(s, x.a, x.b, x.k) && RecKeyIs(s, x.b, x.a, x.k) && Agreed(s, x.a, x.b)
            && !Agreed(Run(garble, First(x), Acts(x) + [Leave(x.b, x.a)]), x.a, x.b)
  {
    var r0 := FirstHalf(garble, x);
    SecondHalf(garble, x, r0);
    var s := Run(garble, First(x), Acts(x));
    RunInv(garble, map[x.a := x.ka, x.b := x.kb], {(x.a, x.b), (x.b, x.a)}, Acts(x));
    RunSnoc(garble, First(x), Acts(x), Leave(x.b, x.a));
    RemovalBreaksAgreement(garble, s, x.a, x.b, x.k, x.b, x.a);
  }
}
