/**
  The receive loop has no exception handler, so a failed look-up or a malformed payload ends it for good.  In
  every run in which a node drops no neighbour entry and every key-change message names its sender, no message
  makes its loop fail.
 */
module ReceiveLoop {
  import opened Agent
  import opened Tokens
  import opened Network
  import opened FloodSafety
  import opened KeyAgreement
  import opened KeyChange

  /** The text of a key-change message that names the host. */
  predicate Names(text: Bytes, host: Host)
  {
    text.Text? && ReadKcm(text.text).KcmFields? && ReadKcm(text.text).host == host
  }

  /** Control payloads have the form their handler parses. */
  ghost predicate FormOk(s: System, k: (Host, nat))
  {
    && k in s.sent
    && (s.sent[k].kind.Kcm? ==> Names(s.sent[k].text, k.0))
    && (s.sent[k].kind.Nuk? ==> s.sent[k].text.NukText?)
  }

  /** The sender of a control or unicast message that waits for b's loop is listed at b. */
  ghost predicate Listed(s: System, b: Host, c: Copy)
  {
    c.Rx? && c.dst == b && b != c.m.host && (!c.m.kind.Data? || c.m.rec.To?) ==>
      b in s.nodes && c.m.host in s.nodes[b].nbrs
  }

  ghost predicate AliveInv(s: System, b: Host)
  {
    && b in s.nodes && s.nodes[b].rxAlive
    && (forall k {:trigger FormOk(s, k)} | k in s.sent :: FormOk(s, k))
    && (forall c {:trigger Listed(s, b, c)} | c in s.flight :: Listed(s, b, c))
  }

  /** b lists everyone it listed before. */
  predicate KeepsAll(s: System, s': System, b: Host)
  {
    b in s.nodes ==> b in s'.nodes && s.nodes[b].nbrs.Keys <= s'.nodes[b].nbrs.Keys
  }

  lemma AliveKept(s: System, s': System, b: Host)
    requires AliveInv(s, b) && Extends(s, s') && KeepsAll(s, s', b) && s'.nodes[b].rxAlive
    requires forall k | k in s'.sent :: k in s.sent || FormOk(s', k)
    requires forall c | c in s'.flight :: c in s.flight || Listed(s', b, c)
    ensures AliveInv(s', b)
  {
    forall k | k in s'.sent ensures FormOk(s', k) {
      if k in s.sent {
        assert FormOk(s, k);
      }
    }
    forall c | c in s'.flight ensures Listed(s', b, c) {
      if c in s.flight {
        assert Listed(s, b, c);
      }
    }
  }

  // ---------------------------------------------------------------- receiving

  /** A copy for the receive loop of n, signed by n itself over the bytes of origin o. */
  ghost predicate Expected(n: Node, m: Msg, o: Origin)
  {
    && n.rxAlive && n.name in n.nbrs && m.host != n.name
    && m.sig == Sig(n.name, o.signed) && OriginOk(o) && o.rec == m.rec && o.kind == m.kind
    && (!m.kind.Data? || m.rec.To? ==> m.host in n.nbrs && n.nbrs[m.host].pubKey.Some?)
    && (m.rec.To? ==> m.rec == To(n.name))
    && (m.kind.Kcm? ==> Names(o.text, m.host))
    && (m.kind.Nuk? ==> o.text.NukText?)
  }

  lemma ReceiveExpected(garble: Garble, n: Node, m: Msg, o: Origin, newKey: Key)
    requires Expected(n, m, o)
    ensures Receive(garble, n, m, newKey).node.rxAlive
  {
  }

  lemma WaitingIsExpected(s: System, c: Copy)
    requires Inv(s) && AliveInv(s, c.dst) && c in s.flight && c.Rx? && c.m.host != c.dst
    ensures (c.m.host, c.m.id) in s.sent
    ensures Expected(s.nodes[c.dst], c.m, s.sent[(c.m.host, c.m.id)])
  {
    assert NodeOk(s, c.dst) && CopyOk(s, c) && Listed(s, c.dst, c);
    var k := (c.m.host, c.m.id);
    assert FormOk(s, k) && OriginOk(s.sent[k]);
  }

  lemma ReceiveAlive(garble: Garble, s: System, b: Host, c: Copy, newKey: Key)
    requires Inv(s) && AliveInv(s, b) && c in s.flight && c.Rx? && c.dst in s.nodes
    ensures AliveInv(RcvStep(garble, s, c, newKey), b)
  {
    var n := s.nodes[c.dst];
    var r := Receive(garble, n, c.m, newKey);
    assert NodeOk(s, c.dst) && NodeOk(s, b);
    RcvStepInv(garble, s, c, newKey);
    ReceiveFacts(garble, n, c.m, newKey);
    ReceiveKeyFacts(garble, n, c.m, newKey);
    if c.dst == b && c.m.host != c.dst {
      WaitingIsExpected(s, c);
      ReceiveExpected(garble, n, c.m, s.sent[(c.m.host, c.m.id)], newKey);
    }
    var s' := AfterReceive(s, c, r);
    if r.reply.Some? {
      assert FormOk(s', (c.dst, n.localId));
    }
    AliveKept(s, s', b);
  }

  // ---------------------------------------------------------------- forwarding and sending

  /** A control or unicast message is published one link from its origin, so its last hop was its origin. */
  lemma OneHop(s: System, c: Copy)
    requires CopyOk(s, c) && !c.Rx? && SentOk(s)
    requires !c.m.kind.Data? || c.m.rec.To?
    requires c.m.ttl - 1 > 0 && c.dst != c.m.host
    ensures c.m.lasthop == Via(c.m.host)
  {
    var o := s.sent[(c.m.host, c.m.id)];
    assert OriginOk(o);
    if c.Net? {
      assert Reaches(s.radio, c.m.host, c.m.lasthop.host, 0);
    }
  }

  lemma ForwardAlive(garble: Garble, s: System, b: Host, c: Copy)
    requires Inv(s) && AliveInv(s, b) && c in s.flight && !c.Rx? && c.dst in s.nodes
    requires KeepsAll(s, FwdStep(garble, s, c), b)
    ensures AliveInv(FwdStep(garble, s, c), b)
  {
    var n := s.nodes[c.dst];
    var r := Forward(garble, n, c.m);
    assert NodeOk(s, c.dst) && CopyOk(s, c);
    FwdStepInv(garble, s, c);
    if r.out.Some? {
      ForwardPublishes(garble, n, c.m);
      PublishAlive(s, b, c, r);
    } else {
      ForwardQuiet(garble, n, c.m);
      AliveKept(s, AfterForward(s, c, r), b);
    }
  }

  lemma PublishAlive(s: System, b: Host, c: Copy, r: Forwarding)
    requires Inv(s) && AliveInv(s, b) && c in s.flight && !c.Rx? && c.dst in s.nodes
    requires Publishes(s.nodes[c.dst], c.m, r)
    requires Extends(s, AfterForward(s, c, r)) && KeepsAll(s, AfterForward(s, c, r), b)
    ensures AliveInv(AfterForward(s, c, r), b)
  {
    var s' := AfterForward(s, c, r);
    assert NodeOk(s, c.dst) && CopyOk(s, c);
    if c.dst != c.m.host && (!c.m.kind.Data? || c.m.rec.To?) {
      OneHop(s, c);
    }
    assert Listed(s', b, Rx(c.dst, r.out.value));
    AliveKept(s, s', b);
  }

  lemma SendAlive(s: System, b: Host, n: Node, text: Bytes, ttl: int, kind: Kind, retired: Option<Key>, rec: Rec)
    requires AliveInv(s, b) && n.name in s.nodes && n.rxAlive == s.nodes[n.name].rxAlive
    requires s.nodes[n.name].nbrs.Keys <= n.nbrs.Keys
    requires !kind.Nuk? && (kind.Kcm? ==> Names(text, n.name))
    requires Extends(s, SendStep(s, SendFlooding(n, text, ttl, kind, retired, rec), text))
    ensures AliveInv(SendStep(s, SendFlooding(n, text, ttl, kind, retired, rec), text), b)
  {
    SendFloodingFacts(n, text, ttl, kind, retired, rec);
    var r := SendFlooding(n, text, ttl, kind, retired, rec);
    var s' := SendStep(s, r, text);
    if r.out.Some? {
      assert FormOk(s', (n.name, n.localId));
    }
    AliveKept(s, s', b);
  }

  /** A key change whose message names the node that sends it. */
  predicate NamesSender(act: Action)
  {
    act.Rotate? ==> Target(act.ssid, act.n) == act.n
  }

  lemma SendActionAlive(garble: Garble, s: System, b: Host, act: Action)
    requires Inv(s) && AliveInv(s, b) && Enabled(s, act) && (act.SendAll? || act.SendTo? || act.Rotate?)
    requires NamesSender(act)
    ensures AliveInv(Step(garble, s, act), b)
  {
    match act {
      case SendAll(_, _, _) => SendAllAlive(garble, s, b, act);
      case SendTo(_, _, _) => SendToAlive(garble, s, b, act);
      case Rotate(_, _, _, _) => RotateAlive(garble, s, b, act);
    }
  }

  lemma SendAllAlive(garble: Garble, s: System, b: Host, act: Action)
    requires Inv(s) && AliveInv(s, b) && Enabled(s, act) && act.SendAll?
    ensures AliveInv(Step(garble, s, act), b)
  {
    assert NodeOk(s, act.n);
    SendActionInv(garble, s, act);
    SendAlive(s, b, s.nodes[act.n], Text(act.text), act.ttl + 2, Data, None, Broadcast);
  }

  lemma SendToAlive(garble: Garble, s: System, b: Host, act: Action)
    requires Inv(s) && AliveInv(s, b) && Enabled(s, act) && act.SendTo?
    ensures AliveInv(Step(garble, s, act), b)
  {
    assert NodeOk(s, act.n);
    SendActionInv(garble, s, act);
    var n := s.nodes[act.n];
    if act.to in n.nbrs && n.nbrs[act.to].unicastSendKey.Some? {
      SendAlive(s, b, n, Text(act.text), UNICAST_TTL, Data, None, To(act.to));
    } else if act.to in n.nbrs {
      SendAlive(s, b, n, Text(""), CTRL_TTL, Ruk, None, To(act.to));
    }
  }

  lemma RotateAlive(garble: Garble, s: System, b: Host, act: Action)
    requires Inv(s) && AliveInv(s, b) && Enabled(s, act) && act.Rotate? && NamesSender(act)
    ensures AliveInv(Step(garble, s, act), b)
  {
    assert NodeOk(s, act.n);
    SendActionInv(garble, s, act);
    var n := s.nodes[act.n];
    var n1 := Joined(n.(key := act.newKey), SelfScan(n.name, act.newKey));
    KcmRead(act.freq, act.ssid, n.name);
    SendAlive(s, b, n1, Text(KcmPayload(act.freq, act.ssid, n.name)), CTRL_TTL, Kcm, Some(n.key), Broadcast);
  }

  lemma StepAlive(garble: Garble, s: System, b: Host, act: Action)
    requires Inv(s) && AliveInv(s, b) && KeepsAll(s, Step(garble, s, act), b) && NamesSender(act)
    ensures AliveInv(Step(garble, s, act), b)
  {
    if Enabled(s, act) {
      if act.Fwd? {
        ForwardAlive(garble, s, b, act.c);
      } else if act.Rcv? {
        ReceiveAlive(garble, s, b, act.c, act.newKey);
      } else if act.SendAll? || act.SendTo? || act.Rotate? {
        SendActionAlive(garble, s, b, act);
      } else if act.Lose? {
        LoseInv(s, act.c);
        AliveKept(s, Step(garble, s, act), b);
      } else {
        NeighborAlive(garble, s, b, act);
      }
    }
  }

  lemma NeighborAlive(garble: Garble, s: System, b: Host, act: Action)
    requires Inv(s) && AliveInv(s, b) && KeepsAll(s, Step(garble, s, act), b) && Enabled(s, act)
    requires act.Join? || act.Refresh? || act.Leave?
    ensures AliveInv(Step(garble, s, act), b)
  {
    assert NodeOk(s, act.n);
    NeighborActionInv(garble, s, act);
    AliveKept(s, Step(garble, s, act), b);
  }

  predicate AllNameSender(run: seq<Action>)
  {
    forall i | 0 <= i < |run| :: NamesSender(run[i])
  }

  /** Neither names nor SSIDs of key changes have a bar. */
  predicate NoBars(run: seq<Action>)
  {
    forall i | 0 <= i < |run| && run[i].Rotate? :: Lacks(run[i].ssid, '|') && Lacks(run[i].n, '|')
  }

  lemma NoBarsNameSender(run: seq<Action>)
    requires NoBars(run)
    ensures AllNameSender(run)
  {
    forall i | 0 <= i < |run| ensures NamesSender(run[i]) {
      if run[i].Rotate? {
        TargetIsSender(run[i].ssid, run[i].n);
      }
    }
  }

  /** Throughout the run, b drops no entry. */
  ghost predicate NeverDropsAny(garble: Garble, s: System, run: seq<Action>, b: Host)
  {
    run != [] ==>
      && NeverDropsAny(garble, s, run[..|run| - 1], b)
      && KeepsAll(Run(garble, s, run[..|run| - 1]), Run(garble, s, run), b)
  }

  lemma {:induction false} RunAlive(garble: Garble, keys: map<Host, Key>, radio: set<(Host, Host)>,
                                    run: seq<Action>, b: Host)
    requires b in keys && NeverDropsAny(garble, Start(keys, radio), run, b) && AllNameSender(run)
    ensures AliveInv(Run(garble, Start(keys, radio), run), b)
  {
    if run != [] {
      var init := run[..|run| - 1];
      RunAlive(garble, keys, radio, init, b);
      RunInv(garble, keys, radio, init);
      StepAlive(garble, Run(garble, Start(keys, radio), init), b, run[|run| - 1]);
    }
  }

  /**
    The receive loop of a node that drops no neighbour entry is never ended by a message, as long as every
    key-change message names its sender, which it does when names and SSIDs have no bar.
   */
  lemma ReceiveLoopSurvives(garble: Garble, keys: map<Host, Key>, radio: set<(Host, Host)>,
                            run: seq<Action>, b: Host)
    requires b in keys && NeverDropsAny(garble, Start(keys, radio), run, b) && (NoBars(run) || AllNameSender(run))
    ensures var s := Run(garble, Start(keys, radio), run); b in s.nodes && s.nodes[b].rxAlive
  {
    if NoBars(run) {
      NoBarsNameSender(run);
    }
    RunAlive(garble, keys, radio, run, b);
  }
}
