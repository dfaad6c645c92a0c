/**
  A node's own messages on their way from the send socket to its own forwarder, which opens them with the key it
  keeps under its own name, or under old_keys for the announcement of a new key.
 */
module OwnMessages {
  import opened Agent
  import opened Network
  import opened FloodSafety
  import opened PreviousKey

  /** The agent lists itself with its own group key. */
  predicate OwnEntry(n: Node)
  {
    n.name in n.nbrs && n.nbrs[n.name].encryptionKey == n.key
  }

  ghost predicate OwnEntries(s: System)
  {
    forall h | h in s.nodes :: OwnEntry(s.nodes[h])
  }

  lemma KeptOwn(n: Node, n': Node)
    requires OwnEntry(n) && SameKeys(n, n') && n'.key == n.key && n'.name in n'.nbrs
    ensures OwnEntry(n')
  {
  }

  lemma PutOwn(s: System, s': System, r: Node)
    requires OwnEntries(s) && s'.nodes == s.nodes[r.name := r] && OwnEntry(r)
    ensures OwnEntries(s')
  {
  }

  lemma ForwardKeepsOwn(garble: Garble, s: System, c: Copy)
    requires Inv(s) && OwnEntries(s) && c in s.flight && !c.Rx? && c.dst in s.nodes
    ensures OwnEntries(FwdStep(garble, s, c))
  {
    var n := s.nodes[c.dst];
    var r := Forward(garble, n, c.m);
    assert NodeOk(s, c.dst) && CopyOk(s, c);
    ForwardKeepsKeys(garble, n, c.m);
    OwnStays(garble, n, c.m);
    KeptOwn(n, r.node);
    PutOwn(s, AfterForward(s, c, r), r.node);
  }

  /** No copy that could be counted against it names the own node as last hop. */
  lemma OwnStays(garble: Garble, n: Node, m: Msg)
    requires OwnEntry(n) && (m.host == n.name || m.lasthop != Via(n.name))
    ensures n.name in Forward(garble, n, m).node.nbrs && Forward(garble, n, m).node.key == n.key
  {
  }

  lemma ReceiveKeepsOwn(garble: Garble, s: System, c: Copy, newKey: Key)
    requires Inv(s) && OwnEntries(s) && c in s.flight && c.Rx? && c.dst in s.nodes
    ensures OwnEntries(RcvStep(garble, s, c, newKey))
  {
    var n := s.nodes[c.dst];
    var r := Receive(garble, n, c.m, newKey);
    assert NodeOk(s, c.dst);
    ReceiveKeepsKeys(garble, n, c.m, newKey);
    ReceiveFacts(garble, n, c.m, newKey);
    KeptOwn(n, r.node);
    PutOwn(s, AfterReceive(s, c, r), r.node);
  }

  lemma EmitKeepsOwn(s: System, q: Node, text: Bytes, ttl: int, kind: Kind, rec: Rec)
    requires OwnEntries(s) && q.name in s.nodes && s.nodes[q.name] == q
    ensures OwnEntries(SendStep(s, SendFlooding(q, text, ttl, kind, None, rec), text))
  {
    PutOwn(s, SendStep(s, SendFlooding(q, text, ttl, kind, None, rec), text),
           SendFlooding(q, text, ttl, kind, None, rec).node);
  }

  lemma SendKeepsOwn(garble: Garble, s: System, a: Action)
    requires Inv(s) && OwnEntries(s) && Enabled(s, a) && (a.SendAll? || a.SendTo?)
    ensures OwnEntries(Step(garble, s, a))
  {
    assert NodeOk(s, a.n);
    var q := s.nodes[a.n];
    if a.SendAll? {
      EmitKeepsOwn(s, q, Text(a.text), a.ttl + 2, Data, Broadcast);
    } else if a.to in q.nbrs && q.nbrs[a.to].unicastSendKey.Some? {
      EmitKeepsOwn(s, q, Text(a.text), UNICAST_TTL, Data, To(a.to));
    } else if a.to in q.nbrs {
      EmitKeepsOwn(s, q, Text(""), CTRL_TTL, Ruk, To(a.to));
    }
  }

  lemma RotateKeepsOwn(garble: Garble, s: System, a: Action)
    requires Inv(s) && OwnEntries(s) && Enabled(s, a) && a.Rotate?
    ensures OwnEntries(Step(garble, s, a))
  {
    assert NodeOk(s, a.n);
  }

  lemma NeighborKeepsOwn(garble: Garble, s: System, a: Action)
    requires Inv(s) && OwnEntries(s) && Enabled(s, a) && (a.Join? || a.Refresh? || a.Leave?)
    ensures OwnEntries(Step(garble, s, a))
  {
    assert NodeOk(s, a.n);
  }

  /** In every run, key changes included, every node lists itself with the key it seals with. */
  lemma {:induction false} RunKeepsOwn(garble: Garble, keys: map<Host, Key>, radio: set<(Host, Host)>, run: seq<Action>)
    ensures OwnEntries(Run(garble, Start(keys, radio), run))
  {
    if run != [] {
      var init, a := run[..|run| - 1], run[|run| - 1];
      var s := Run(garble, Start(keys, radio), init);
      RunKeepsOwn(garble, keys, radio, init);
      RunInv(garble, keys, radio, init);
      if Enabled(s, a) {
        if a.Fwd? {
          ForwardKeepsOwn(garble, s, a.c);
        } else if a.Rcv? {
          ReceiveKeepsOwn(garble, s, a.c, a.newKey);
        } else if a.SendAll? || a.SendTo? {
          SendKeepsOwn(garble, s, a);
        } else if a.Rotate? {
          RotateKeepsOwn(garble, s, a);
        } else if !a.Lose? {
          NeighborKeepsOwn(garble, s, a);
        }
      }
    }
  }

  /** The key that the own forwarder opens and re-seals an own message with. */
  predicate OpensWith(n: Node, m: Msg, key: Key)
  {
    match m.lasthop
    case OldKeys => n.oldKeys == Some(key)
    case Via(l) => l == n.name && n.key == key
  }

  lemma OwnForward(garble: Garble, n: Node, m: Msg, key: Key)
    requires OwnEntry(n) && m.host == n.name && m.ttl >= 2 && Seen(n, n.name) < m.id && m.sig.signer == n.name
    requires OpensWith(n, m, key)
    ensures var r := Forward(garble, n, m);
            if Decrypt(garble, key, m.msg) != m.sig.over then r == Forwarding(n, None, Ignored)
            else
              && r.out == Some(Msg(m.host, Via(n.name), m.id, m.rec, m.ttl - 1, m.kind, Sealed(key, m.sig.over), m.sig))
              && r.node == n.(fwdCache := n.fwdCache[m.host := m.id])
  {
  }

  /**
    In every run: an own message with TTL left that is not behind the cache is published if and only if the key it
    opens with gives the bytes that were signed, and then under that same key.  So what is still on the send
    socket when the key changes is dropped, and counted nowhere.
   */
  lemma OwnMessagePublished(garble: Garble, keys: map<Host, Key>, radio: set<(Host, Host)>, run: seq<Action>, s: System,
                            h: Host, m: Msg, key: Key)
    requires s == Run(garble, Start(keys, radio), run) && h in s.nodes
    requires m.host == h && m.ttl >= 2 && Seen(s.nodes[h], h) < m.id && m.sig.signer == h
    requires OpensWith(s.nodes[h], m, key)
    ensures var r := Forward(garble, s.nodes[h], m);
            if Decrypt(garble, key, m.msg) != m.sig.over then r == Forwarding(s.nodes[h], None, Ignored)
            else
              && r.out == Some(Msg(h, Via(h), m.id, m.rec, m.ttl - 1, m.kind, Sealed(key, m.sig.over), m.sig))
              && r.node == s.nodes[h].(fwdCache := s.nodes[h].fwdCache[h := m.id])
  {
    RunInv(garble, keys, radio, run);
    RunKeepsOwn(garble, keys, radio, run);
    assert NodeOk(s, h);
    OwnForward(garble, s.nodes[h], m, key);
  }

  /** A message sealed with the former own key is dropped, unless the new one garbles it into what was signed. */
  lemma OldOwnMessageIsDropped(garble: Garble, n: Node, m: Msg, former: Key)
    requires OwnEntry(n) && m.host == n.name && m.ttl >= 2 && Seen(n, n.name) < m.id && m.sig.signer == n.name
    requires m.lasthop == Via(n.name) && m.msg == Sealed(former, m.sig.over)
    requires former != n.key && garble(n.key, m.msg) != m.sig.over
    ensures Forward(garble, n, m) == Forwarding(n, None, Ignored)
  {
    OwnForward(garble, n, m, n.key);
  }

  /** The announcement of a new key, as it is sent. */
  function Announcement(n: Node, freq: int, ssid: string): (m: Msg)
  {
    var plain := Text(KcmPayload(freq, ssid, n.name));
    Msg(n.name, OldKeys, n.localId, Broadcast, 3, Kcm, Sealed(n.key, plain), Sig(n.name, plain))
  }

  /** The next broadcast, as it is sent. */
  function Next(n: Node, id: nat, key: Key, text: string, ttl: int): (m: Msg)
  {
    Msg(n.name, Via(n.name), id, Broadcast, ttl, Data, Sealed(key, Text(text)), Sig(n.name, Text(text)))
  }

  lemma RotatedNode(n: Node, newKey: Key, freq: int, ssid: string)
    requires OwnEntry(n)
    ensures var r := Rotated(n, newKey, freq, ssid);
            && r.out == Some(Announcement(n, freq, ssid)) && OwnEntry(r.node) && r.node.name == n.name
            && r.node.key == newKey && r.node.oldKeys == Some(n.key) && r.node.fwdCache == n.fwdCache
            && r.node.localId == n.localId + 1
  {
  }

  lemma NextSent(n: Node, text: string, ttl: int)
    ensures SendFlooding(n, Text(text), ttl, Data, None, Broadcast).out == Some(Next(n, n.localId, n.key, text, ttl))
  {
  }

  lemma AnnouncementOpens(garble: Garble, n: Node, newKey: Key, freq: int, ssid: string)
    requires OwnEntry(n) && Seen(n, n.name) < n.localId
    ensures var m := Announcement(n, freq, ssid);
            Forward(garble, Rotated(n, newKey, freq, ssid).node, m).out == Some(m.(lasthop := Via(n.name), ttl := 2))
  {
    RotatedNode(n, newKey, freq, ssid);
    OwnForward(garble, Rotated(n, newKey, freq, ssid).node, Announcement(n, freq, ssid), n.key);
  }

  lemma NextIsFresh(n: Node, newKey: Key, freq: int, ssid: string, text: string, ttl: int)
    requires OwnEntry(n)
    ensures SendFlooding(Rotated(n, newKey, freq, ssid).node, Text(text), ttl, Data, None, Broadcast).out
         == Some(Next(n, n.localId + 1, newKey, text, ttl))
  {
    RotatedNode(n, newKey, freq, ssid);
    NextSent(Rotated(n, newKey, freq, ssid).node, text, ttl);
  }

  /**
    A key change at n: the announcement goes out under the retired key, which its own forwarder keeps for it, and is
    published under that key for the neighbours that know it; the next broadcast of n is sealed with the new one.
   */
  ghost predicate Announces(garble: Garble, n: Node, newKey: Key, freq: int, ssid: string, text: string, k: int)
  {
    var r := Rotated(n, newKey, freq, ssid);
    var m := Announcement(n, freq, ssid);
    && r.out == Some(m) && Forward(garble, r.node, m).out == Some(m.(lasthop := Via(n.name), ttl := 2))
    && SendFlooding(r.node, Text(text), k + 2, Data, None, Broadcast).out
       == Some(Next(n, n.localId + 1, newKey, text, k + 2))
  }

  lemma NodeAnnounces(garble: Garble, n: Node, newKey: Key, freq: int, ssid: string, text: string, k: int)
    requires OwnEntry(n) && Seen(n, n.name) < n.localId
    ensures Announces(garble, n, newKey, freq, ssid, text, k)
  {
    RotatedNode(n, newKey, freq, ssid);
    AnnouncementOpens(garble, n, newKey, freq, ssid);
    NextIsFresh(n, newKey, freq, ssid, text, k + 2);
  }

  /** After every run every key change is announced that way. */
  lemma AnnouncementPublished(garble: Garble, keys: map<Host, Key>, radio: set<(Host, Host)>, run: seq<Action>,
                              s: System, h: Host, newKey: Key, freq: int, ssid: string, text: string, k: int)
    requires s == Run(garble, Start(keys, radio), run) && h in s.nodes
    ensures s.nodes[h].name == h && Announces(garble, s.nodes[h], newKey, freq, ssid, text, k)
  {
    RunInv(garble, keys, radio, run);
    RunKeepsOwn(garble, keys, radio, run);
    SeenIsOld(s, h);
    NodeAnnounces(garble, s.nodes[h], newKey, freq, ssid, text, k);
  }

  lemma SeenIsOld(s: System, h: Host)
    requires Inv(s) && h in s.nodes
    ensures s.nodes[h].name == h && Seen(s.nodes[h], h) < s.nodes[h].localId
  {
    assert NodeOk(s, h);
    assert CacheOk(s, h, h);
  }
}
