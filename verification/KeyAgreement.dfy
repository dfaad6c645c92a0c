/**
  The request/reply exchange of unicast keys that runs on top of the flooding protocol.

  For any two nodes a and b, in every run in which b does not drop its entry for a: whenever a holds a send
  key for b it is b's receive key for a, that key never changes, and unicast data decrypts to the text that
  was sent.
 */
module KeyAgreement {
  import opened Agent
  import opened Network
  import opened FloodSafety

  // ---------------------------------------------------------------- the invariant for a pair

  predicate SendKeyIs(s: System, a: Host, b: Host, k: Key)
  {
    a in s.nodes && b in s.nodes[a].nbrs && s.nodes[a].nbrs[b].unicastSendKey == Some(k)
  }

  predicate RecKeyIs(s: System, b: Host, a: Host, k: Key)
  {
    b in s.nodes && a in s.nodes[b].nbrs && s.nodes[b].nbrs[a].unicastRecKey == Some(k)
  }

  ghost predicate Agreed(s: System, a: Host, b: Host)
  {
    forall k :: SendKeyIs(s, a, b, k) ==> RecKeyIs(s, b, a, k)
  }

  /** A key reply of b to a carries b's receive key; a text of a to b is sealed with that key. */
  ghost predicate SentPairOk(s: System, a: Host, b: Host, k: (Host, nat))
  {
    && k in s.sent
    && var o := s.sent[k];
    && (k.0 == b && o.kind.Nuk? && o.rec == To(a) ==> o.text.NukText? && RecKeyIs(s, b, a, o.text.key))
    && (k.0 == a && o.kind.Data? && o.rec == To(b) ==> o.signed.Sealed? && RecKeyIs(s, b, a, o.signed.key))
  }

  ghost predicate GotPairOk(s: System, a: Host, b: Host, g: Got)
  {
    g.node == b && g.host == a ==> (g.host, g.id) in s.sent && g.plain == s.sent[(g.host, g.id)].text
  }

  ghost predicate PairInv(s: System, a: Host, b: Host)
  {
    && Agreed(s, a, b)
    && (forall k {:trigger SentPairOk(s, a, b, k)} | k in s.sent :: SentPairOk(s, a, b, k))
    && (forall i | 0 <= i < |s.got| :: GotPairOk(s, a, b, s.got[i]))
  }

  // ---------------------------------------------------------------- what handlers do to keys

  /** The entry for p stays and a receive key that is set stays as it is. */
  predicate RecKept(n: Node, n': Node, p: Host)
  {
    p in n.nbrs ==>
      && p in n'.nbrs
      && (n.nbrs[p].unicastRecKey.Some? ==> n'.nbrs[p].unicastRecKey == n.nbrs[p].unicastRecKey)
  }

  /** A send key that n' holds for p was already held. */
  predicate SendOld(n: Node, n': Node, p: Host)
  {
    p in n'.nbrs && n'.nbrs[p].unicastSendKey.Some? ==>
      p in n.nbrs && n.nbrs[p].unicastSendKey == n'.nbrs[p].unicastSendKey
  }

  lemma ForwardKeys(garble: Garble, n: Node, m: Msg, p: Host)
    ensures var n' := Forward(garble, n, m).node;
            (p in n.nbrs && p in n'.nbrs ==> RecKept(n, n', p)) && SendOld(n, n', p)
  {
  }

  lemma NeighborKeys(n: Node, scan: Scan, p: Host)
    ensures RecKept(n, Joined(n, scan), p) && SendOld(n, Joined(n, scan), p)
    ensures scan.host in n.nbrs ==> RecKept(n, Rescanned(n, scan), p) && SendOld(n, Rescanned(n, scan), p)
    ensures SendOld(n, Left(n, p), p)
  {
  }

  /** Only a key request sets a receive key, and only a key reply a send key. */
  ghost predicate ReceivesKeys(garble: Garble, n: Node, m: Msg, r: Receiving)
  {
    && (forall p :: RecKept(n, r.node, p))
    && (forall p :: SendOld(n, r.node, p) ||
                    (&& p == m.host && m.kind.Nuk? && r.accepted.Some? && r.accepted.value.NukText?
                     && r.node.nbrs[p].unicastSendKey == Some(r.accepted.value.key)))
    && (r.reply.Some? ==>
          && r.replyText.NukText? && m.host in r.node.nbrs
          && r.node.nbrs[m.host].unicastRecKey == Some(r.replyText.key))
    && (r.accepted.Some? && m.kind.Data? && m.rec == To(n.name) && n.name in n.nbrs ==>
          && m.host in n.nbrs && n.nbrs[m.host].unicastRecKey.Some?
          && r.accepted.value == Decrypt(garble, n.nbrs[m.host].unicastRecKey.value, m.sig.over))
  }

  lemma KcmKeys(garble: Garble, n: Node, m: Msg, plain: Bytes)
    requires m.kind.Kcm?
    ensures ReceivesKeys(garble, n, m, HandleKcm(n, m, plain))
  {
  }

  lemma RukKeys(garble: Garble, n: Node, m: Msg, plain: Bytes, newKey: Key)
    requires m.kind.Ruk?
    ensures ReceivesKeys(garble, n, m, HandleRuk(n, m, plain, newKey))
  {
  }

  lemma NukKeys(garble: Garble, n: Node, m: Msg, plain: Bytes)
    requires m.kind.Nuk?
    ensures ReceivesKeys(garble, n, m, HandleNuk(n, m, plain))
  {
  }

  lemma ReceiveKeyFacts(garble: Garble, n: Node, m: Msg, newKey: Key)
    ensures ReceivesKeys(garble, n, m, Receive(garble, n, m, newKey))
  {
    var body := CheckedOpen(garble, n.key, Some(n.name), m);
    if n.rxAlive && m.host != n.name && body.Some? {
      var plain := Unwrap(garble, n, m, body.value);
      if plain.Plain? {
        match m.kind {
          case Data =>
          case Kcm => KcmKeys(garble, n, m, plain.bytes);
          case Ruk => RukKeys(garble, n, m, plain.bytes, newKey);
          case Nuk => NukKeys(garble, n, m, plain.bytes);
        }
      }
    }
  }

  // ---------------------------------------------------------------- steps

  /** Replacing a node that keeps the pair's keys leaves only the additions to be checked. */
  lemma PairKept(s: System, s': System, a: Host, b: Host, n: Node)
    requires a != b && PairInv(s, a, b) && Extends(s, s')
    requires n.name in s.nodes && s'.nodes == s.nodes[n.name := n]
    requires n.name == b ==> RecKept(s.nodes[b], n, a)
    requires n.name == a ==> SendOld(s.nodes[a], n, b) || Agreed(s', a, b)
    requires forall k | k in s'.sent :: k in s.sent || SentPairOk(s', a, b, k)
    requires s.got <= s'.got && forall i | |s.got| <= i < |s'.got| :: GotPairOk(s', a, b, s'.got[i])
    ensures PairInv(s', a, b)
  {
    forall k | SendKeyIs(s', a, b, k) ensures RecKeyIs(s', b, a, k) {
      if n.name != a || SendOld(s.nodes[a], n, b) {
        assert SendKeyIs(s, a, b, k);
      }
    }
    forall k | k in s'.sent ensures SentPairOk(s', a, b, k) {
      if k in s.sent {
        assert SentPairOk(s, a, b, k);
      }
    }
    forall i | 0 <= i < |s'.got| ensures GotPairOk(s', a, b, s'.got[i]) {
      if i < |s.got| {
        assert GotPairOk(s, a, b, s.got[i]);
      }
    }
  }

  lemma SendPair(s: System, a: Host, b: Host, n: Node, text: Bytes, ttl: int, kind: Kind,
                 retired: Option<Key>, rec: Rec)
    requires a != b && PairInv(s, a, b) && n.name in s.nodes && !kind.Nuk?
    requires RecKept(s.nodes[n.name], n, a) && SendOld(s.nodes[n.name], n, b)
    requires Extends(s, SendStep(s, SendFlooding(n, text, ttl, kind, retired, rec), text))
    ensures PairInv(SendStep(s, SendFlooding(n, text, ttl, kind, retired, rec), text), a, b)
  {
    var r := SendFlooding(n, text, ttl, kind, retired, rec);
    SendFloodingFacts(n, text, ttl, kind, retired, rec);
    var s' := SendStep(s, r, text);
    if r.out.Some? {
      if n.name == a && kind.Data? && rec == To(b) {
        assert SendKeyIs(s, a, b, n.nbrs[b].unicastSendKey.value);
      }
      assert SentPairOk(s', a, b, (n.name, n.localId));
    }
    PairKept(s, s', a, b, r.node);
  }

  /** What b accepts from a is what a sent: its receive key is the key the text was sealed with. */
  lemma AcceptedPair(garble: Garble, s: System, s': System, a: Host, b: Host, c: Copy, r: Receiving)
    requires Inv(s) && PairInv(s, a, b) && c in s.flight && c.Rx? && c.dst in s.nodes
    requires ReceivesKeys(garble, s.nodes[c.dst], c.m, r) && r.accepted.Some? && Extends(s, s')
    requires GotOk(s', Got(c.dst, c.m.host, c.m.id, r.accepted.value))
    ensures GotPairOk(s', a, b, Got(c.dst, c.m.host, c.m.id, r.accepted.value))
  {
    if c.dst == b && c.m.host == a {
      assert NodeOk(s, b) && CopyOk(s, c);
      var k := (a, c.m.id);
      assert SentPairOk(s, a, b, k) && OriginOk(s.sent[k]);
    }
  }

  /** A key reply that a accepts from b carries b's receive key. */
  lemma ReplyPair(garble: Garble, s: System, s': System, a: Host, b: Host, c: Copy, r: Receiving)
    requires a != b && Inv(s) && PairInv(s, a, b) && c in s.flight && c.Rx? && c.dst == a && a in s.nodes
    requires ReceivesKeys(garble, s.nodes[a], c.m, r)
    requires s'.nodes == s.nodes[a := r.node] && Extends(s, s')
    requires r.accepted.Some? ==> GotOk(s', Got(c.dst, c.m.host, c.m.id, r.accepted.value))
    ensures SendOld(s.nodes[a], r.node, b) || Agreed(s', a, b)
  {
    if !SendOld(s.nodes[a], r.node, b) {
      assert CopyOk(s, c);
      var k := (b, c.m.id);
      assert SentPairOk(s, a, b, k) && OriginOk(s.sent[k]);
      forall x | SendKeyIs(s', a, b, x) ensures RecKeyIs(s', b, a, x) {
        assert RecKeyIs(s, b, a, x);
      }
    }
  }

  lemma ReceivePair(garble: Garble, s: System, a: Host, b: Host, c: Copy, r: Receiving)
    requires a != b && Inv(s) && PairInv(s, a, b) && c in s.flight && c.Rx? && c.dst in s.nodes
    requires Receives(s.nodes[c.dst], c.m, r) && ReceivesKeys(garble, s.nodes[c.dst], c.m, r)
    ensures PairInv(AfterReceive(s, c, r), a, b)
  {
    var s' := AfterReceive(s, c, r);
    AfterReceiveInv(s, c, r);
    assert NodeOk(s, c.dst);
    if r.accepted.Some? {
      assert GotOk(s', s'.got[|s.got|]);
    }
    ReceivePairKept(garble, s, s', a, b, c, r);
  }

  lemma ReceivePairKept(garble: Garble, s: System, s': System, a: Host, b: Host, c: Copy, r: Receiving)
    requires a != b && Inv(s) && PairInv(s, a, b) && c in s.flight && c.Rx? && c.dst in s.nodes
    requires Receives(s.nodes[c.dst], c.m, r) && ReceivesKeys(garble, s.nodes[c.dst], c.m, r)
    requires s' == AfterReceive(s, c, r) && Extends(s, s') && s.nodes[c.dst].name == c.dst
    requires r.accepted.Some? ==> GotOk(s', Got(c.dst, c.m.host, c.m.id, r.accepted.value))
    ensures PairInv(s', a, b)
  {
    assert s'.nodes == s.nodes[c.dst := r.node];
    if r.accepted.Some? {
      AcceptedPair(garble, s, s', a, b, c, r);
    }
    if c.dst == a {
      ReplyPair(garble, s, s', a, b, c, r);
    }
    if r.reply.Some? {
      assert SentPairOk(s', a, b, (c.dst, s.nodes[c.dst].localId));
    }
    PairKept(s, s', a, b, r.node);
  }

  lemma ForwardPair(garble: Garble, s: System, a: Host, b: Host, c: Copy)
    requires a != b && Inv(s) && PairInv(s, a, b) && c in s.flight && !c.Rx? && c.dst in s.nodes
    requires c.dst == b && a in s.nodes[b].nbrs ==> a in Forward(garble, s.nodes[b], c.m).node.nbrs
    ensures PairInv(FwdStep(garble, s, c), a, b)
  {
    var n := s.nodes[c.dst];
    var r := Forward(garble, n, c.m);
    assert NodeOk(s, c.dst) && CopyOk(s, c);
    FwdStepInv(garble, s, c);
    ForwardKeys(garble, n, c.m, a);
    ForwardKeys(garble, n, c.m, b);
    if r.out.Some? {
      ForwardPublishes(garble, n, c.m);
    } else {
      ForwardQuiet(garble, n, c.m);
    }
    PairKept(s, AfterForward(s, c, r), a, b, r.node);
  }

  lemma SendActionPair(garble: Garble, s: System, a: Host, b: Host, act: Action)
    requires a != b && Inv(s) && PairInv(s, a, b) && Enabled(s, act)
    requires act.SendAll? || act.SendTo? || act.Rotate?
    ensures PairInv(Step(garble, s, act), a, b)
  {
    if act.SendAll? {
      SendAllPair(garble, s, a, b, act);
    } else if act.SendTo? {
      SendToPair(garble, s, a, b, act);
    } else {
      RotatePair(garble, s, a, b, act);
    }
  }

  lemma SendAllPair(garble: Garble, s: System, a: Host, b: Host, act: Action)
    requires a != b && Inv(s) && PairInv(s, a, b) && Enabled(s, act) && act.SendAll?
    ensures PairInv(Step(garble, s, act), a, b)
  {
    assert NodeOk(s, act.n);
    SendActionInv(garble, s, act);
    SendPair(s, a, b, s.nodes[act.n], Text(act.text), act.ttl + 2, Data, None, Broadcast);
  }

  lemma SendToPair(garble: Garble, s: System, a: Host, b: Host, act: Action)
    requires a != b && Inv(s) && PairInv(s, a, b) && Enabled(s, act) && act.SendTo?
    ensures PairInv(Step(garble, s, act), a, b)
  {
    assert NodeOk(s, act.n);
    SendActionInv(garble, s, act);
    var n := s.nodes[act.n];
    if act.to in n.nbrs && n.nbrs[act.to].unicastSendKey.Some? {
      SendPair(s, a, b, n, Text(act.text), UNICAST_TTL, Data, None, To(act.to));
    } else if act.to in n.nbrs {
      SendPair(s, a, b, n, Text(""), CTRL_TTL, Ruk, None, To(act.to));
    }
  }

  lemma RotatePair(garble: Garble, s: System, a: Host, b: Host, act: Action)
    requires a != b && Inv(s) && PairInv(s, a, b) && Enabled(s, act) && act.Rotate?
    ensures PairInv(Step(garble, s, act), a, b)
  {
    assert NodeOk(s, act.n);
    SendActionInv(garble, s, act);
    var n := s.nodes[act.n];
    var n1 := n.(key := act.newKey);
    NeighborKeys(n1, SelfScan(n.name, act.newKey), a);
    NeighborKeys(n1, SelfScan(n.name, act.newKey), b);
    SendPair(s, a, b, Joined(n1, SelfScan(n.name, act.newKey)), Text(KcmPayload(act.freq, act.ssid, n.name)), CTRL_TTL, Kcm,
             Some(n.key), Broadcast);
  }

  lemma NeighborActionPair(garble: Garble, s: System, a: Host, b: Host, act: Action)
    requires a != b && Inv(s) && PairInv(s, a, b) && Enabled(s, act)
    requires act.Join? || act.Refresh? || act.Leave?
    requires act.Leave? && act.n == b && a in s.nodes[b].nbrs ==> act.host != a
    ensures PairInv(Step(garble, s, act), a, b)
  {
    assert NodeOk(s, act.n);
    NeighborActionInv(garble, s, act);
    var n := s.nodes[act.n];
    match act {
      case Join(_, scan) =>
        NeighborKeys(n, scan, a);
        NeighborKeys(n, scan, b);
        PairKept(s, SetNode(s, Joined(n, scan)), a, b, Joined(n, scan));
      case Refresh(_, scan) =>
        NeighborKeys(n, scan, a);
        NeighborKeys(n, scan, b);
        PairKept(s, SetNode(s, Rescanned(n, scan)), a, b, Rescanned(n, scan));
      case Leave(_, host) =>
        PairKept(s, SetNode(s, Left(n, host)), a, b, Left(n, host));
    }
  }

  /** b still lists a, if it did before. */
  predicate KeepsEntry(s: System, s': System, b: Host, a: Host)
  {
    b in s.nodes && a in s.nodes[b].nbrs ==> b in s'.nodes && a in s'.nodes[b].nbrs
  }

  lemma StepPair(garble: Garble, s: System, a: Host, b: Host, act: Action)
    requires a != b && Inv(s) && PairInv(s, a, b) && KeepsEntry(s, Step(garble, s, act), b, a)
    ensures PairInv(Step(garble, s, act), a, b)
  {
    if Enabled(s, act) {
      match act {
        case Fwd(c) =>
          assert NodeOk(s, c.dst);
          ForwardSets(garble, s, c);
          ForwardPair(garble, s, a, b, c);
        case Rcv(c, newKey) =>
          ReceiveFacts(garble, s.nodes[c.dst], c.m, newKey);
          ReceiveKeyFacts(garble, s.nodes[c.dst], c.m, newKey);
          ReceivePair(garble, s, a, b, c, Receive(garble, s.nodes[c.dst], c.m, newKey));
        case Lose(c) => LosePair(s, a, b, c);
        case SendAll(_, _, _) => SendActionPair(garble, s, a, b, act);
        case SendTo(_, _, _) => SendActionPair(garble, s, a, b, act);
        case Rotate(_, _, _, _) => SendActionPair(garble, s, a, b, act);
        case Join(_, _) => NeighborActionPair(garble, s, a, b, act);
        case Refresh(_, _) => NeighborActionPair(garble, s, a, b, act);
        case Leave(n, _) =>
          assert NodeOk(s, n);
          NeighborActionPair(garble, s, a, b, act);
      }
    }
  }

  lemma ForwardSets(garble: Garble, s: System, c: Copy)
    requires c.dst in s.nodes && s.nodes[c.dst].name == c.dst
    ensures FwdStep(garble, s, c).nodes[c.dst] == Forward(garble, s.nodes[c.dst], c.m).node
  {
  }

  lemma LosePair(s: System, a: Host, b: Host, c: Copy)
    requires PairInv(s, a, b)
    ensures PairInv(s.(flight := s.flight - multiset{c}), a, b)
  {
    var s' := s.(flight := s.flight - multiset{c});
    forall k | SendKeyIs(s', a, b, k) ensures RecKeyIs(s', b, a, k) {
      assert SendKeyIs(s, a, b, k);
    }
    forall k | k in s'.sent ensures SentPairOk(s', a, b, k) {
      assert SentPairOk(s, a, b, k);
    }
    forall i | 0 <= i < |s'.got| ensures GotPairOk(s', a, b, s'.got[i]) {
      assert GotPairOk(s, a, b, s.got[i]);
    }
  }

  // ---------------------------------------------------------------- every run

  /** Throughout the run, b never drops an entry it has for a. */
  ghost predicate NeverDrops(garble: Garble, s: System, run: seq<Action>, b: Host, a: Host)
  {
    run != [] ==>
      && NeverDrops(garble, s, run[..|run| - 1], b, a)
      && KeepsEntry(Run(garble, s, run[..|run| - 1]), Run(garble, s, run), b, a)
  }

  lemma {:induction false} RunPair(garble: Garble, keys: map<Host, Key>, radio: set<(Host, Host)>,
                                   run: seq<Action>, a: Host, b: Host)
    requires a != b && NeverDrops(garble, Start(keys, radio), run, b, a)
    ensures PairInv(Run(garble, Start(keys, radio), run), a, b)
  {
    if run != [] {
      var init := run[..|run| - 1];
      RunPair(garble, keys, radio, init, a, b);
      RunInv(garble, keys, radio, init);
      StepPair(garble, Run(garble, Start(keys, radio), init), a, b, run[|run| - 1]);
    }
  }

  lemma RecKeySet(s: System, s': System, a: Host, b: Host, n: Node, k: Key)
    requires RecKeyIs(s, b, a, k) && n.name in s.nodes && s'.nodes == s.nodes[n.name := n]
    requires n.name == b ==> RecKept(s.nodes[b], n, a)
    ensures RecKeyIs(s', b, a, k)
  {
  }

  lemma RecKeyHandler(garble: Garble, s: System, a: Host, b: Host, act: Action, k: Key)
    requires Nodes(s) && RecKeyIs(s, b, a, k) && KeepsEntry(s, Step(garble, s, act), b, a)
    requires Enabled(s, act) && (act.Fwd? || act.Rcv?)
    ensures RecKeyIs(Step(garble, s, act), b, a, k)
  {
    var n := s.nodes[act.c.dst];
    assert NodeOk(s, act.c.dst);
    if act.Fwd? {
      ForwardSets(garble, s, act.c);
      ForwardKeys(garble, n, act.c.m, a);
    } else {
      ReceiveFacts(garble, n, act.c.m, act.newKey);
      ReceiveKeyFacts(garble, n, act.c.m, act.newKey);
      RecKeySet(s, Step(garble, s, act), a, b, Receive(garble, n, act.c.m, act.newKey).node, k);
    }
  }

  /** While b keeps its entry for a, no step changes the receive key in it. */
  lemma RecKeyStep(garble: Garble, s: System, a: Host, b: Host, act: Action, k: Key)
    requires Nodes(s) && RecKeyIs(s, b, a, k) && KeepsEntry(s, Step(garble, s, act), b, a)
    ensures RecKeyIs(Step(garble, s, act), b, a, k)
  {
    if Enabled(s, act) {
      if act.Fwd? || act.Rcv? {
        RecKeyHandler(garble, s, a, b, act, k);
      } else if act.SendAll? || act.SendTo? || act.Rotate? {
        RecKeySends(garble, s, a, b, act, k);
      } else if !act.Lose? {
        assert NodeOk(s, act.n);
        if !act.Leave? {
          NeighborKeys(s.nodes[act.n], act.scan, a);
        }
      }
    }
  }

  lemma RecKeySends(garble: Garble, s: System, a: Host, b: Host, act: Action, k: Key)
    requires Nodes(s) && RecKeyIs(s, b, a, k) && Enabled(s, act)
    requires act.SendAll? || act.SendTo? || act.Rotate?
    ensures RecKeyIs(Step(garble, s, act), b, a, k)
  {
    if act.Rotate? {
      RecKeyRotate(garble, s, a, b, act, k);
    } else if act.SendTo? {
      RecKeySendTo(garble, s, a, b, act, k);
    } else {
      assert NodeOk(s, act.n);
    }
  }

  lemma RecKeySendTo(garble: Garble, s: System, a: Host, b: Host, act: Action, k: Key)
    requires Nodes(s) && RecKeyIs(s, b, a, k) && Enabled(s, act) && act.SendTo?
    ensures RecKeyIs(Step(garble, s, act), b, a, k)
  {
    assert NodeOk(s, act.n);
  }

  lemma RecKeyRotate(garble: Garble, s: System, a: Host, b: Host, act: Action, k: Key)
    requires Nodes(s) && RecKeyIs(s, b, a, k) && Enabled(s, act) && act.Rotate?
    ensures RecKeyIs(Step(garble, s, act), b, a, k)
  {
    assert NodeOk(s, act.n);
    NeighborKeys(s.nodes[act.n].(key := act.newKey), SelfScan(act.n, act.newKey), a);
  }

  lemma {:induction false} RecKeyRun(garble: Garble, keys: map<Host, Key>, radio: set<(Host, Host)>,
                                     run: seq<Action>, i: nat, a: Host, b: Host, k: Key)
    requires i <= |run| && NeverDrops(garble, Start(keys, radio), run, b, a)
    requires RecKeyIs(Run(garble, Start(keys, radio), run[..i]), b, a, k)
    ensures RecKeyIs(Run(garble, Start(keys, radio), run), b, a, k)
    decreases |run|
  {
    if i == |run| {
      assert run[..i] == run;
    } else {
      var init := run[..|run| - 1];
      assert init[..i] == run[..i];
      RecKeyRun(garble, keys, radio, init, i, a, b, k);
      RunInv(garble, keys, radio, init);
      RecKeyStep(garble, Run(garble, Start(keys, radio), init), a, b, run[|run| - 1], k);
    }
  }

  // ---------------------------------------------------------------- the theorems

  /**
    Key agreement: under any retry, loss, reordering and removal elsewhere, a send key of a for b is b's
    receive key for a, and everything b accepts from a is the text a sent, unicast data included.
   */
  lemma UnicastKeyAgreement(garble: Garble, keys: map<Host, Key>, radio: set<(Host, Host)>,
                            run: seq<Action>, a: Host, b: Host)
    requires a != b && NeverDrops(garble, Start(keys, radio), run, b, a)
    ensures var s := Run(garble, Start(keys, radio), run);
            && (forall k | SendKeyIs(s, a, b, k) :: RecKeyIs(s, b, a, k))
            && (forall i | 0 <= i < |s.got| && s.got[i].node == b && s.got[i].host == a ::
                  && (a, s.got[i].id) in s.sent
                  && s.got[i].plain == s.sent[(a, s.got[i].id)].text)
  {
    RunPair(garble, keys, radio, run, a, b);
    var s := Run(garble, Start(keys, radio), run);
    forall i | 0 <= i < |s.got| ensures GotPairOk(s, a, b, s.got[i]) {
    }
  }

  /** The agreed key never changes: whenever a holds a send key for b, early or late in a run, it is the same. */
  lemma UnicastKeyNeverChanges(garble: Garble, keys: map<Host, Key>, radio: set<(Host, Host)>,
                               run: seq<Action>, i: nat, a: Host, b: Host, k: Key, k': Key)
    requires a != b && i <= |run| && NeverDrops(garble, Start(keys, radio), run, b, a)
    requires SendKeyIs(Run(garble, Start(keys, radio), run[..i]), a, b, k)
    requires SendKeyIs(Run(garble, Start(keys, radio), run), a, b, k')
    ensures k == k'
  {
    NeverDropsPrefix(garble, Start(keys, radio), run, i, b, a);
    RunPair(garble, keys, radio, run[..i], a, b);
    RunPair(garble, keys, radio, run, a, b);
    RecKeyRun(garble, keys, radio, run, i, a, b, k);
    assert RecKeyIs(Run(garble, Start(keys, radio), run), b, a, k');
  }

  lemma {:induction false} NeverDropsPrefix(garble: Garble, s: System, run: seq<Action>, i: nat, b: Host, a: Host)
    requires i <= |run| && NeverDrops(garble, s, run, b, a)
    ensures NeverDrops(garble, s, run[..i], b, a)
    decreases |run|
  {
    if i == |run| {
      assert run[..i] == run;
    } else {
      assert run[..|run| - 1][..i] == run[..i];
      NeverDropsPrefix(garble, s, run[..|run| - 1], i, b, a);
    }
  }

  /**
    The condition is the exact one: in any state in which a and b share a key, a removal breaks the
    agreement if and only if it is b dropping a.
   */
  lemma RemovalBreaksAgreement(garble: Garble, s: System, a: Host, b: Host, k: Key, n: Host, host: Host)
    requires Nodes(s) && a != b && SendKeyIs(s, a, b, k) && RecKeyIs(s, b, a, k)
    requires n in s.nodes && host != n
    ensures Agreed(Step(garble, s, Leave(n, host)), a, b) <==> !(n == b && host == a)
  {
    assert NodeOk(s, n) && NodeOk(s, a) && NodeOk(s, b);
    var s' := Step(garble, s, Leave(n, host));
    if n == b && host == a {
      assert SendKeyIs(s', a, b, k) && !RecKeyIs(s', b, a, k);
    } else {
      forall x | SendKeyIs(s', a, b, x) ensures RecKeyIs(s', b, a, x) {
        assert SendKeyIs(s, a, b, x);
      }
    }
  }
}
