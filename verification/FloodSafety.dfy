/**
  What every run of the flooding protocol keeps: payload integrity over all hops and key changes, the TTL
  bound on how far a message travels, and at-most-once publishing and acceptance.
 */
module FloodSafety {
  import opened Agent
  import opened Network

  // ---------------------------------------------------------------- the invariant

  /** The agent lists itself, and otherwise only nodes it can hear, each with that node's public key. */
  ghost predicate EntriesOk(s: System, n: Node)
  {
    && n.name in n.nbrs
    && (forall p | p in n.nbrs && p != n.name ::
          p in s.nodes && (n.name, p) in s.radio && n.nbrs[p].pubKey == Some(p))
  }

  ghost predicate NodeOk(s: System, h: Host)
    requires h in s.nodes
  {
    s.nodes[h].name == h && s.nodes[h].localId >= 1 && EntriesOk(s, s.nodes[h])
  }

  /** The signed bytes are the text itself or one layer around it that only the recipient removes. */
  predicate OriginOk(o: Origin)
  {
    && (match o.rec
        case Broadcast => o.signed == o.text
        case To(b) => if o.kind.Data? then o.signed.Sealed? && o.signed.plain == o.text
                      else o.signed == Oaep(b, o.text))
    && WireShape(o.kind, o.rec, o.ttl)
  }

  /** Key requests and replies are unicast; control and unicast messages start with TTL 3. */
  predicate WireShape(kind: Kind, rec: Rec, ttl: int)
  {
    (kind.Ruk? || kind.Nuk? ==> rec.To?) && (!kind.Data? || rec.To? ==> ttl == CTRL_TTL)
  }

  ghost predicate SentOk(s: System)
  {
    forall k | k in s.sent :: k.0 in s.nodes && 1 <= k.1 < s.nodes[k.0].localId && OriginOk(s.sent[k])
  }

  predicate Stamped(s: System, m: Msg)
  {
    && (m.host, m.id) in s.sent && m.host in s.nodes
    && var o := s.sent[(m.host, m.id)]; o.rec == m.rec && o.kind == m.kind
  }

  /** m is as p published it: p's signature over the original bytes, and a TTL that counts the hops. */
  ghost predicate PublishedBy(s: System, p: Host, m: Msg)
  {
    && Stamped(s, m) && p in s.nodes
    && var o := s.sent[(m.host, m.id)];
    && m.lasthop == Via(p)
    && m.sig == Sig(p, o.signed)
    && 1 <= m.ttl <= o.ttl - 1
    && Reaches(s.radio, m.host, p, o.ttl - 1 - m.ttl)
    && (p == m.host || o.rec == Broadcast || o.rec == To(p))
    && m.id <= Seen(s.nodes[p], m.host)
    && m.id <= Seen(s.nodes[m.host], m.host)
  }

  ghost predicate CopyOk(s: System, c: Copy)
  {
    match c
    case Local(dst, m) =>
      && Stamped(s, m) && m.host == dst
      && var o := s.sent[(m.host, m.id)];
      && m.lasthop in {OldKeys, Via(dst)} && m.sig == Sig(dst, o.signed) && m.ttl == o.ttl
    case Net(dst, m) =>
      && m.lasthop.Via? && PublishedBy(s, m.lasthop.host, m)
      && dst != m.lasthop.host && (dst, m.lasthop.host) in s.radio
    case Rx(dst, m) => PublishedBy(s, dst, m)
  }

  /** An accepted text is the text that was sent, unless it is unicast data, which KeyAgreement covers. */
  ghost predicate GotOk(s: System, g: Got)
  {
    && g.node in s.nodes && g.host in s.nodes && (g.host, g.id) in s.sent
    && g.node != g.host
    && g.id <= Seen(s.nodes[g.node], g.host)
    && var o := s.sent[(g.host, g.id)];
    && (o.rec == Broadcast || o.rec == To(g.node))
    && (o.rec.Broadcast? || !o.kind.Data? ==> g.plain == o.text)
    && (exists d | 1 <= d <= o.ttl - 2 :: Reaches(s.radio, g.host, g.node, d))
  }

  ghost predicate Flights(s: System)
  {
    forall c {:trigger CopyOk(s, c)} | c in s.flight :: CopyOk(s, c)
  }

  ghost predicate Histories(s: System)
  {
    && (forall i | 0 <= i < |s.pubs| :: PublishedBy(s, s.pubs[i].node, s.pubs[i].m))
    && (forall i | 0 <= i < |s.got| :: GotOk(s, s.got[i]))
  }

  /** Per node and origin the published ids increase. */
  ghost predicate PubsIncrease(s: System)
  {
    forall i, j | 0 <= i < j < |s.pubs| && s.pubs[i].node == s.pubs[j].node
                  && s.pubs[i].m.host == s.pubs[j].m.host :: s.pubs[i].m.id < s.pubs[j].m.id
  }

  predicate SameRx(c: Copy, d: Copy)
  {
    c.Rx? && d.Rx? && c.dst == d.dst && c.m.host == d.m.host && c.m.id == d.m.id
  }

  /** A message waits for a node's receive loop at most once, and never after it was accepted there. */
  ghost predicate RxOnce(s: System)
  {
    && (forall c | c in s.flight && c.Rx? :: s.flight[c] == 1)
    && (forall c, d | c in s.flight && d in s.flight && SameRx(c, d) :: c == d)
    && (forall c, i | c in s.flight && c.Rx? && 0 <= i < |s.got| ::
          !(s.got[i].node == c.dst && s.got[i].host == c.m.host && s.got[i].id == c.m.id))
    && (forall i, j | 0 <= i < j < |s.got| ::
          !(s.got[i].node == s.got[j].node && s.got[i].host == s.got[j].host && s.got[i].id == s.got[j].id))
  }

  ghost predicate Nodes(s: System)
  {
    forall h {:trigger NodeOk(s, h)} | h in s.nodes :: NodeOk(s, h)
  }

  predicate CacheOk(s: System, n: Host, h: Host)
  {
    n in s.nodes && h in s.nodes[n].fwdCache ==> (h, s.nodes[n].fwdCache[h]) in s.sent
  }

  /** The duplicate filters hold ids of messages that were sent. */
  ghost predicate Caches(s: System)
  {
    forall n, h {:trigger CacheOk(s, n, h)} :: CacheOk(s, n, h)
  }

  ghost predicate Inv(s: System)
  {
    Nodes(s) && Caches(s) && SentOk(s) && Flights(s) && Histories(s) && PubsIncrease(s) && RxOnce(s)
  }

  // ---------------------------------------------------------------- what a step may change

  /** Nothing recorded is forgotten and no duplicate filter ever goes back. */
  ghost predicate Extends(s: System, s': System)
  {
    && s'.nodes.Keys == s.nodes.Keys && s'.radio == s.radio
    && (forall k | k in s.sent :: k in s'.sent && s'.sent[k] == s.sent[k])
    && (forall n, h | n in s.nodes :: Seen(s.nodes[n], h) <= Seen(s'.nodes[n], h))
  }

  lemma PublishedByExtends(s: System, s': System, p: Host, m: Msg)
    requires Extends(s, s') && PublishedBy(s, p, m)
    ensures PublishedBy(s', p, m)
  {
    assert Seen(s.nodes[p], m.host) <= Seen(s'.nodes[p], m.host);
    assert Seen(s.nodes[m.host], m.host) <= Seen(s'.nodes[m.host], m.host);
  }

  lemma CopyOkExtends(s: System, s': System, c: Copy)
    requires Extends(s, s') && CopyOk(s, c)
    ensures CopyOk(s', c)
  {
    if c.Net? {
      PublishedByExtends(s, s', c.m.lasthop.host, c.m);
    } else if c.Rx? {
      PublishedByExtends(s, s', c.dst, c.m);
    }
  }

  lemma GotOkExtends(s: System, s': System, g: Got)
    requires Extends(s, s') && GotOk(s, g)
    ensures GotOk(s', g)
  {
    assert Seen(s.nodes[g.node], g.host) <= Seen(s'.nodes[g.node], g.host);
  }

  lemma FlightsExtend(s: System, s': System)
    requires Extends(s, s') && Flights(s)
    requires forall c | c in s'.flight :: c in s.flight || CopyOk(s', c)
    ensures Flights(s')
  {
    forall c | c in s'.flight ensures CopyOk(s', c) {
      if c in s.flight {
        CopyOkExtends(s, s', c);
      }
    }
  }

  lemma HistoriesExtend(s: System, s': System)
    requires Extends(s, s') && Histories(s) && s'.pubs == s.pubs && s'.got == s.got
    ensures Histories(s')
  {
    forall i | 0 <= i < |s'.pubs| ensures PublishedBy(s', s'.pubs[i].node, s'.pubs[i].m) {
      PublishedByExtends(s, s', s.pubs[i].node, s.pubs[i].m);
    }
    forall i | 0 <= i < |s'.got| ensures GotOk(s', s'.got[i]) {
      GotOkExtends(s, s', s.got[i]);
    }
  }

  ghost predicate SameCaches(s: System, s': System)
  {
    forall n {:trigger s'.nodes[n]} | n in s.nodes :: n in s'.nodes && s'.nodes[n].fwdCache == s.nodes[n].fwdCache
  }

  lemma CachesKept(s: System, s': System)
    requires Caches(s) && Extends(s, s') && SameCaches(s, s')
    ensures Caches(s')
  {
    forall n, h ensures CacheOk(s', n, h) {
      assert CacheOk(s, n, h);
    }
  }

  // ---------------------------------------------------------------- steps that publish nothing

  lemma NodesKept(s: System, s': System, n: Node)
    requires Nodes(s) && n.name in s.nodes && s'.nodes == s.nodes[n.name := n] && s'.radio == s.radio
    requires n.localId >= 1 && EntriesOk(s, n)
    ensures s'.nodes.Keys == s.nodes.Keys && Nodes(s')
  {
    assert s'.nodes.Keys == s.nodes.Keys;
    forall h | h in s'.nodes ensures NodeOk(s', h) {
      assert NodeOk(s, h);
    }
  }

  lemma NodesSame(s: System, s': System)
    requires Nodes(s) && s'.nodes == s.nodes && s'.radio == s.radio
    ensures Nodes(s')
  {
    forall h | h in s'.nodes ensures NodeOk(s', h) {
      assert NodeOk(s, h);
    }
  }

  lemma RxOnceShrinks(s: System, s': System)
    requires RxOnce(s) && s'.got == s.got
    requires forall c | c in s'.flight && c.Rx? :: c in s.flight && s'.flight[c] <= s.flight[c]
    ensures RxOnce(s')
  {
    forall c, d | c in s'.flight && d in s'.flight && SameRx(c, d) ensures c == d {
      assert c in s.flight && d in s.flight;
    }
  }

  /** Replacing one node and dropping copies keeps the invariant when its duplicate filter is kept. */
  lemma QuietStep(s: System, s': System, n: Node)
    requires Inv(s) && n.name in s.nodes
    requires s' == SetNode(s, n).(flight := s'.flight) && s'.flight <= s.flight
    requires n.fwdCache == s.nodes[n.name].fwdCache && n.localId >= s.nodes[n.name].localId
    requires EntriesOk(s, n)
    ensures Extends(s, s') && Inv(s')
  {
    assert NodeOk(s, n.name);
    NodesKept(s, s', n);
    CachesKept(s, s');
    FlightsExtend(s, s');
    HistoriesExtend(s, s');
    RxOnceShrinks(s, s');
  }

  /** A new message with a fresh id on the own send socket. */
  lemma EmitStep(s: System, m: Msg, text: Bytes)
    requires Inv(s) && m.host in s.nodes && (m.host, m.id) !in s.sent
    requires 1 <= m.id < s.nodes[m.host].localId
    requires m.lasthop in {OldKeys, Via(m.host)} && m.sig.signer == m.host
    requires OriginOk(Origin(text, m.sig.over, m.ttl, m.rec, m.kind))
    ensures Extends(s, Emit(s, Some(m), text)) && Inv(Emit(s, Some(m), text))
  {
    var s' := Emit(s, Some(m), text);
    NodesSame(s, s');
    CachesKept(s, s');
    HistoriesExtend(s, s');
    assert CopyOk(s', Local(m.host, m));
    FlightsExtend(s, s');
    RxOnceShrinks(s, s');
  }

  /** What sendFloodingMessage hands to the send socket, and what it changes in the agent. */
  lemma SendFloodingFacts(n: Node, text: Bytes, ttl: int, kind: Kind, retired: Option<Key>, rec: Rec)
    ensures var r := SendFlooding(n, text, ttl, kind, retired, rec);
            && r.node == n.(oldKeys := r.node.oldKeys, localId := r.node.localId)
            && (r.out.None? ==> r.node.localId == n.localId)
            && (r.out.Some? ==>
                  && var m := r.out.value;
                  && r.node.localId == n.localId + 1
                  && m.host == n.name && m.id == n.localId && m.lasthop in {OldKeys, Via(n.name)}
                  && m.rec == rec && m.kind == kind && m.ttl == ttl && m.sig.signer == n.name
                  && (WireShape(kind, rec, ttl) &&
                      (rec.To? && !kind.Data? ==> n.nbrs[rec.host].pubKey == Some(rec.host)) ==>
                      OriginOk(Origin(text, m.sig.over, ttl, rec, kind))))
  {
  }

  /** Sending from a node keeps the invariant, whatever is sent. */
  lemma SendStepInv(s: System, n: Node, text: Bytes, ttl: int, kind: Kind, retired: Option<Key>, rec: Rec)
    requires Inv(s) && n.name in s.nodes
    requires n.fwdCache == s.nodes[n.name].fwdCache && n.localId == s.nodes[n.name].localId
    requires EntriesOk(s, n)
    requires rec.To? && !kind.Data? ==> rec.host != n.name
    requires WireShape(kind, rec, ttl)
    ensures var s' := SendStep(s, SendFlooding(n, text, ttl, kind, retired, rec), text);
            Extends(s, s') && Inv(s')
  {
    SendFloodingFacts(n, text, ttl, kind, retired, rec);
    var r := SendFlooding(n, text, ttl, kind, retired, rec);
    assert NodeOk(s, n.name);
    var s1 := SetNode(s, r.node);
    QuietStep(s, s1, r.node);
    if r.out.Some? {
      assert (n.name, n.localId) !in s.sent;
      EmitStep(s1, r.out.value, text);
    }
  }

  // ---------------------------------------------------------------- forwarding

  /** A forwarder that publishes nothing only touches counters, or forgets the last hop. */
  lemma ForwardQuiet(garble: Garble, n: Node, m: Msg)
    requires Forward(garble, n, m).out.None?
    requires m.host == n.name || m.lasthop != Via(n.name)
    ensures var r := Forward(garble, n, m).node;
            && r == n.(nbrs := r.nbrs) && r.nbrs.Keys <= n.nbrs.Keys
            && (n.name in n.nbrs ==> n.name in r.nbrs)
            && (forall p | p in r.nbrs :: r.nbrs[p].pubKey == n.nbrs[p].pubKey)
  {
  }

  /** What a publishing forwarder did: filters passed, incoming signed bytes signed again, id cached. */
  ghost predicate Publishes(n: Node, m: Msg, r: Forwarding)
  {
    && Passes(n, m) && KnowsLastHop(n, m) && r.out.Some?
    && r.out.value == m.(ttl := m.ttl - 1, msg := r.out.value.msg, sig := Sig(n.name, m.sig.over),
                         lasthop := Via(n.name))
    && r.node == n.(nbrs := r.node.nbrs, fwdCache := n.fwdCache[m.host := m.id])
    && r.node.nbrs.Keys == n.nbrs.Keys
    && (forall p | p in r.node.nbrs :: r.node.nbrs[p].pubKey == n.nbrs[p].pubKey)
  }

  lemma ForwardPublishes(garble: Garble, n: Node, m: Msg)
    requires Forward(garble, n, m).out.Some?
    ensures Publishes(n, m, Forward(garble, n, m))
  {
  }

  /** The heart of integrity and reach: a copy that is all right yields a publication that is all right. */
  lemma RepublishedOk(s: System, s': System, c: Copy, r: Forwarding)
    requires CopyOk(s, c) && !c.Rx? && c.dst in s.nodes && c.m.id >= 1
    requires s.nodes[c.dst].name == c.dst && Publishes(s.nodes[c.dst], c.m, r)
    requires Extends(s, s') && s'.nodes[c.dst] == r.node
    ensures PublishedBy(s', c.dst, r.out.value)
    ensures Seen(s.nodes[c.dst], c.m.host) < c.m.id
  {
    var d := s.sent[(c.m.host, c.m.id)].ttl - 1 - c.m.ttl;
    if c.Net? {
      assert Reaches(s.radio, c.m.host, c.m.lasthop.host, d);
    }
    assert Reaches(s.radio, c.m.host, c.dst, d + 1);
    assert Seen(s.nodes[c.m.host], c.m.host) <= Seen(s'.nodes[c.m.host], c.m.host);
  }

  lemma ForwardExtends(s: System, c: Copy, r: Forwarding)
    requires Inv(s) && c.dst in s.nodes && Publishes(s.nodes[c.dst], c.m, r)
    ensures Extends(s, AfterForward(s, c, r)) && Nodes(AfterForward(s, c, r))
  {
    assert NodeOk(s, c.dst);
    NodesKept(s, AfterForward(s, c, r), r.node);
  }

  lemma FanoutOk(s: System, s': System, p: Host, m: Msg)
    requires Nodes(s) && Nodes(s') && Extends(s, s') && p in s.nodes
    requires PublishedBy(s', p, m)
    ensures forall c | c in Fanout(s, p, m) :: CopyOk(s', c)
  {
    forall c | c in Fanout(s, p, m) ensures CopyOk(s', c) {
      if c.Net? {
        assert c in NetCopies(s, p, m);
        assert NodeOk(s, c.dst);
      }
    }
  }

  /** The new copy for the receive loop is the only one of its kind. */
  lemma RxOnceGrows(s: System, s': System, p: Host, m: Msg, nets: set<Copy>, c: Copy)
    requires RxOnce(s) && Flights(s) && Histories(s) && p in s.nodes
    requires s'.got == s.got && Seen(s.nodes[p], m.host) < m.id
    requires forall x | x in nets :: x.Net?
    requires s'.flight == s.flight - multiset{c} + (multiset(nets) + multiset{Rx(p, m)})
    ensures RxOnce(s')
  {
    forall x | x in s.flight && x.Rx? ensures !SameRx(x, Rx(p, m)) {
      assert CopyOk(s, x);
    }
    assert Rx(p, m) !in s.flight;
    forall i | 0 <= i < |s.got| ensures !(s.got[i].node == p && s.got[i].host == m.host && s.got[i].id == m.id) {
      assert GotOk(s, s.got[i]);
    }
    forall x | x in s'.flight && x.Rx? ensures x == Rx(p, m) || (x in s.flight && s'.flight[x] <= s.flight[x]) {
      assert x !in nets;
    }
    forall x, y | x in s'.flight && y in s'.flight && SameRx(x, y) ensures x == y {
      assert x == Rx(p, m) || x in s.flight;
      assert y == Rx(p, m) || y in s.flight;
    }
  }

  lemma PubsGrow(s: System, s': System, p: Pub)
    requires PubsIncrease(s) && Histories(s) && s'.pubs == s.pubs + [p]
    requires p.node in s.nodes && Seen(s.nodes[p.node], p.m.host) < p.m.id
    ensures PubsIncrease(s')
  {
    forall i, j | 0 <= i < j < |s'.pubs| && s'.pubs[i].node == s'.pubs[j].node
                  && s'.pubs[i].m.host == s'.pubs[j].m.host
      ensures s'.pubs[i].m.id < s'.pubs[j].m.id
    {
      if j == |s.pubs| {
        assert PublishedBy(s, s.pubs[i].node, s.pubs[i].m);
      }
    }
  }

  lemma HistoriesGrow(s: System, s': System, p: Pub)
    requires Extends(s, s') && Histories(s) && s'.pubs == s.pubs + [p] && s'.got == s.got
    requires PublishedBy(s', p.node, p.m)
    ensures Histories(s')
  {
    forall i | 0 <= i < |s'.pubs| ensures PublishedBy(s', s'.pubs[i].node, s'.pubs[i].m) {
      if i < |s.pubs| {
        PublishedByExtends(s, s', s.pubs[i].node, s.pubs[i].m);
      }
    }
    forall i | 0 <= i < |s'.got| ensures GotOk(s', s'.got[i]) {
      GotOkExtends(s, s', s.got[i]);
    }
  }

  lemma CachesGrow(s: System, c: Copy, r: Forwarding)
    requires Caches(s) && c.dst in s.nodes && s.nodes[c.dst].name == c.dst && Publishes(s.nodes[c.dst], c.m, r)
    requires (c.m.host, c.m.id) in s.sent
    ensures Caches(AfterForward(s, c, r))
  {
    var s' := AfterForward(s, c, r);
    forall n, h ensures CacheOk(s', n, h) {
      assert CacheOk(s, n, h);
    }
  }

  lemma PublishCopies(s: System, c: Copy, r: Forwarding)
    requires Inv(s) && c in s.flight && !c.Rx? && c.dst in s.nodes
    requires Publishes(s.nodes[c.dst], c.m, r)
    ensures var s' := AfterForward(s, c, r);
            && Extends(s, s') && Nodes(s') && Caches(s') && Flights(s')
            && PublishedBy(s', c.dst, r.out.value) && Seen(s.nodes[c.dst], c.m.host) < c.m.id
  {
    var s' := AfterForward(s, c, r);
    ForwardExtends(s, c, r);
    assert NodeOk(s, c.dst) && CopyOk(s, c);
    RepublishedOk(s, s', c, r);
    CachesGrow(s, c, r);
    FanoutOk(s, s', c.dst, r.out.value);
    FlightsExtend(s, s');
  }

  lemma PublishInv(s: System, c: Copy, r: Forwarding)
    requires Inv(s) && c in s.flight && !c.Rx? && c.dst in s.nodes
    requires Publishes(s.nodes[c.dst], c.m, r)
    ensures Extends(s, AfterForward(s, c, r)) && Inv(AfterForward(s, c, r))
  {
    var s' := AfterForward(s, c, r);
    PublishCopies(s, c, r);
    assert NodeOk(s, c.dst);
    HistoriesGrow(s, s', Pub(c.dst, r.out.value));
    RxOnceGrows(s, s', c.dst, r.out.value, NetCopies(s, c.dst, r.out.value), c);
    PubsGrow(s, s', Pub(c.dst, r.out.value));
  }

  lemma FwdStepInv(garble: Garble, s: System, c: Copy)
    requires Inv(s) && c in s.flight && !c.Rx? && c.dst in s.nodes
    ensures Extends(s, FwdStep(garble, s, c)) && Inv(FwdStep(garble, s, c))
  {
    assert NodeOk(s, c.dst) && CopyOk(s, c);
    var r := Forward(garble, s.nodes[c.dst], c.m);
    if r.out.None? {
      ForwardQuiet(garble, s.nodes[c.dst], c.m);
      QuietStep(s, AfterForward(s, c, r), r.node);
    } else {
      ForwardPublishes(garble, s.nodes[c.dst], c.m);
      PublishInv(s, c, r);
    }
  }

  // ---------------------------------------------------------------- receiving

  /** The receive loop keeps names, public keys and the duplicate filter; only a reply uses up an id. */
  ghost predicate Receives(n: Node, m: Msg, r: Receiving)
  {
    && r.node == n.(nbrs := r.node.nbrs, localId := r.node.localId, rxAlive := r.node.rxAlive)
    && r.node.nbrs.Keys == n.nbrs.Keys
    && (forall p | p in r.node.nbrs :: r.node.nbrs[p].pubKey == n.nbrs[p].pubKey)
    && r.node.localId == (if r.reply.Some? then n.localId + 1 else n.localId)
    && (r.reply.Some? ==>
          && r.accepted.Some? && m.kind.Ruk? && m.host in n.nbrs && n.nbrs[m.host].pubKey.Some?
          && var k := r.reply.value;
          && k.host == n.name && k.id == n.localId && k.lasthop == Via(n.name)
          && k.rec == To(m.host) && k.kind == Nuk && k.ttl == CTRL_TTL
          && k.sig == Sig(n.name, Oaep(n.nbrs[m.host].pubKey.value, r.replyText)))
    && (r.accepted.Some? ==>
          && m.host != n.name && m.sig.signer == n.name
          && (m.rec.Broadcast? ==> r.accepted.value == m.sig.over)
          && (m.rec == To(n.name) && !m.kind.Data? ==> m.sig.over == Oaep(n.name, r.accepted.value)))
  }

  /** The message is from another node, published by n itself, and plain is what it holds for n. */
  predicate HandsOn(n: Node, m: Msg, plain: Bytes)
  {
    && m.host != n.name && m.sig.signer == n.name
    && (m.rec.Broadcast? ==> plain == m.sig.over)
    && (m.rec == To(n.name) && !m.kind.Data? ==> m.sig.over == Oaep(n.name, plain))
  }

  lemma KcmReceives(n: Node, m: Msg, plain: Bytes)
    requires HandsOn(n, m, plain)
    ensures Receives(n, m, HandleKcm(n, m, plain))
  {
  }

  lemma RukReceives(n: Node, m: Msg, plain: Bytes, newKey: Key)
    requires HandsOn(n, m, plain) && m.kind.Ruk?
    ensures Receives(n, m, HandleRuk(n, m, plain, newKey))
  {
  }

  lemma NukReceives(n: Node, m: Msg, plain: Bytes)
    requires HandsOn(n, m, plain)
    ensures Receives(n, m, HandleNuk(n, m, plain))
  {
  }

  lemma ReceiveFacts(garble: Garble, n: Node, m: Msg, newKey: Key)
    ensures Receives(n, m, Receive(garble, n, m, newKey))
  {
    if n.rxAlive && m.host != n.name {
      var body := CheckedOpen(garble, n.key, Some(n.name), m);
      if body.Some? {
        var plain := Unwrap(garble, n, m, body.value);
        if plain.Plain? {
          assert HandsOn(n, m, plain.bytes);
          match m.kind {
            case Data =>
            case Kcm => KcmReceives(n, m, plain.bytes);
            case Ruk => RukReceives(n, m, plain.bytes, newKey);
            case Nuk => NukReceives(n, m, plain.bytes);
          }
        }
      }
    }
  }

  /** Accepting a message: it is the original text, within reach, and accepted for the first time. */
  lemma AcceptedOk(s: System, s': System, c: Copy, r: Receiving)
    requires CopyOk(s, c) && c.Rx? && c.dst in s.nodes && s.nodes[c.dst].name == c.dst
    requires (c.m.host, c.m.id) in s.sent && OriginOk(s.sent[(c.m.host, c.m.id)])
    requires Receives(s.nodes[c.dst], c.m, r) && r.accepted.Some?
    requires Extends(s, s')
    ensures GotOk(s', Got(c.dst, c.m.host, c.m.id, r.accepted.value))
  {
    var o := s.sent[(c.m.host, c.m.id)];
    var d := o.ttl - 1 - c.m.ttl;
    assert Reaches(s.radio, c.m.host, c.dst, d);
    assert d >= 1;
    assert Seen(s.nodes[c.dst], c.m.host) <= Seen(s'.nodes[c.dst], c.m.host);
  }

  lemma GotGrows(s: System, s': System, c: Copy, g: Got)
    requires RxOnce(s) && c in s.flight && c.Rx?
    requires s'.flight == s.flight - multiset{c} && s'.got == s.got + [g]
    requires g.node == c.dst && g.host == c.m.host && g.id == c.m.id
    ensures RxOnce(s')
  {
    assert c !in s'.flight;
    forall x | x in s'.flight ensures x in s.flight && s'.flight[x] <= s.flight[x] {
    }
    forall x | x in s'.flight && x.Rx? ensures !(g.node == x.dst && g.host == x.m.host && g.id == x.m.id) {
      assert x in s.flight && x != c;
      assert !SameRx(x, c);
    }
    forall x, y | x in s'.flight && y in s'.flight && SameRx(x, y) ensures x == y {
      assert x in s.flight && y in s.flight;
    }
  }

  /** The accepted message moves from the flight to the record of accepted messages. */
  lemma AcceptInv(s: System, s': System, c: Copy, r: Receiving)
    requires Inv(s) && c in s.flight && c.Rx? && c.dst in s.nodes
    requires Receives(s.nodes[c.dst], c.m, r) && r.accepted.Some?
    requires s' == SetNode(s, r.node).(flight := s.flight - multiset{c},
                                       got := s.got + [Got(c.dst, c.m.host, c.m.id, r.accepted.value)])
    ensures Extends(s, s') && Inv(s')
  {
    AcceptFrame(s, s', c, r);
    assert NodeOk(s, c.dst) && CopyOk(s, c);
    AcceptedOk(s, s', c, r);
    HistoriesAccept(s, s', Got(c.dst, c.m.host, c.m.id, r.accepted.value));
    GotGrows(s, s', c, Got(c.dst, c.m.host, c.m.id, r.accepted.value));
  }

  lemma AcceptFrame(s: System, s': System, c: Copy, r: Receiving)
    requires Inv(s) && c.dst in s.nodes && Receives(s.nodes[c.dst], c.m, r)
    requires s' == SetNode(s, r.node).(flight := s.flight - multiset{c}, got := s'.got)
    ensures Extends(s, s') && Nodes(s') && Caches(s') && SentOk(s') && Flights(s')
  {
    assert NodeOk(s, c.dst);
    NodesKept(s, s', r.node);
    CachesKept(s, s');
    FlightsExtend(s, s');
  }

  lemma HistoriesAccept(s: System, s': System, g: Got)
    requires Extends(s, s') && Histories(s) && s'.pubs == s.pubs && s'.got == s.got + [g] && GotOk(s', g)
    ensures Histories(s')
  {
    forall i | 0 <= i < |s'.pubs| ensures PublishedBy(s', s'.pubs[i].node, s'.pubs[i].m) {
      PublishedByExtends(s, s', s.pubs[i].node, s.pubs[i].m);
    }
    forall i | 0 <= i < |s'.got| ensures GotOk(s', s'.got[i]) {
      if i < |s.got| {
        GotOkExtends(s, s', s.got[i]);
      }
    }
  }

  lemma RcvStepInv(garble: Garble, s: System, c: Copy, newKey: Key)
    requires Inv(s) && c in s.flight && c.Rx? && c.dst in s.nodes
    ensures Extends(s, RcvStep(garble, s, c, newKey)) && Inv(RcvStep(garble, s, c, newKey))
  {
    var r := Receive(garble, s.nodes[c.dst], c.m, newKey);
    ReceiveFacts(garble, s.nodes[c.dst], c.m, newKey);
    AfterReceiveInv(s, c, r);
  }

  lemma AfterReceiveInv(s: System, c: Copy, r: Receiving)
    requires Inv(s) && c in s.flight && c.Rx? && c.dst in s.nodes
    requires Receives(s.nodes[c.dst], c.m, r)
    ensures Extends(s, AfterReceive(s, c, r)) && Inv(AfterReceive(s, c, r))
  {
    assert NodeOk(s, c.dst) && CopyOk(s, c);
    var s1 := AfterReceive(s, c, r.(reply := None));
    if r.accepted.None? {
      QuietStep(s, s1, r.node);
    } else {
      AcceptInv(s, s1, c, r);
      if r.reply.Some? {
        assert (c.dst, s.nodes[c.dst].localId) !in s.sent;
        EmitStep(s1, r.reply.value, r.replyText);
      }
    }
  }

  // ---------------------------------------------------------------- every run

  lemma SendActionInv(garble: Garble, s: System, a: Action)
    requires Inv(s) && Enabled(s, a) && (a.SendAll? || a.SendTo? || a.Rotate?)
    ensures Extends(s, Step(garble, s, a)) && Inv(Step(garble, s, a))
  {
    assert NodeOk(s, a.n);
    var n := s.nodes[a.n];
    match a {
      case SendAll(_, text, ttl) =>
        SendStepInv(s, n, Text(text), ttl + 2, Data, None, Broadcast);
      case SendTo(_, to, text) =>
        if to in n.nbrs && n.nbrs[to].unicastSendKey.Some? {
          SendStepInv(s, n, Text(text), UNICAST_TTL, Data, None, To(to));
        } else if to in n.nbrs {
          SendStepInv(s, n, Text(""), CTRL_TTL, Ruk, None, To(to));
        }
      case Rotate(_, newKey, freq, ssid) =>
        var n1 := Joined(n.(key := newKey), SelfScan(n.name, newKey));
        SendStepInv(s, n1, Text(KcmPayload(freq, ssid, n.name)), CTRL_TTL, Kcm, Some(n.key), Broadcast);
    }
  }

  lemma NeighborActionInv(garble: Garble, s: System, a: Action)
    requires Inv(s) && Enabled(s, a) && (a.Join? || a.Refresh? || a.Leave?)
    ensures Extends(s, Step(garble, s, a)) && Inv(Step(garble, s, a))
  {
    assert NodeOk(s, a.n);
    match a {
      case Join(n, scan) => QuietStep(s, Step(garble, s, a), Joined(s.nodes[n], scan));
      case Refresh(n, scan) => QuietStep(s, Step(garble, s, a), Rescanned(s.nodes[n], scan));
      case Leave(n, host) => QuietStep(s, Step(garble, s, a), Left(s.nodes[n], host));
    }
  }

  lemma StepInv(garble: Garble, s: System, a: Action)
    requires Inv(s)
    ensures Extends(s, Step(garble, s, a)) && Inv(Step(garble, s, a))
  {
    if Enabled(s, a) {
      match a {
        case Fwd(c) => FwdStepInv(garble, s, c);
        case Rcv(c, newKey) => RcvStepInv(garble, s, c, newKey);
        case Lose(c) => LoseInv(s, c);
        case SendAll(_, _, _) => SendActionInv(garble, s, a);
        case SendTo(_, _, _) => SendActionInv(garble, s, a);
        case Rotate(_, _, _, _) => SendActionInv(garble, s, a);
        case Join(_, _) => NeighborActionInv(garble, s, a);
        case Refresh(_, _) => NeighborActionInv(garble, s, a);
        case Leave(_, _) => NeighborActionInv(garble, s, a);
      }
    }
  }

  lemma LoseInv(s: System, c: Copy)
    requires Inv(s)
    ensures var s' := s.(flight := s.flight - multiset{c}); Extends(s, s') && Inv(s')
  {
    var s' := s.(flight := s.flight - multiset{c});
    NodesSame(s, s');
    CachesKept(s, s');
    FlightsExtend(s, s');
    HistoriesExtend(s, s');
    RxOnceShrinks(s, s');
  }

  lemma {:induction false} RunInv(garble: Garble, keys: map<Host, Key>, radio: set<(Host, Host)>, run: seq<Action>)
    ensures Inv(Run(garble, Start(keys, radio), run))
  {
    if run != [] {
      RunInv(garble, keys, radio, run[..|run| - 1]);
      StepInv(garble, Run(garble, Start(keys, radio), run[..|run| - 1]), run[|run| - 1]);
    }
  }

  // ---------------------------------------------------------------- the theorems

  /**
    Payload integrity: whatever the interleaving, the number of hops and the key changes on the way, a
    broadcast or control message that a node accepts is the text its origin sent under that id, and every
    copy on the wire is signed by its last hop over the bytes the origin signed.
   */
  lemma PayloadIntegrity(garble: Garble, keys: map<Host, Key>, radio: set<(Host, Host)>, run: seq<Action>)
    ensures var s := Run(garble, Start(keys, radio), run);
            && (forall i | 0 <= i < |s.got| ::
                  && var g := s.got[i];
                  && (g.host, g.id) in s.sent
                  && var o := s.sent[(g.host, g.id)];
                  && (o.rec == Broadcast || o.rec == To(g.node))
                  && (o.rec.Broadcast? || !o.kind.Data? ==> g.plain == o.text))
            && (forall i | 0 <= i < |s.pubs| ::
                  && var m := s.pubs[i].m;
                  && (m.host, m.id) in s.sent
                  && m.sig == Sig(s.pubs[i].node, s.sent[(m.host, m.id)].signed))
  {
    RunInv(garble, keys, radio, run);
    var s := Run(garble, Start(keys, radio), run);
    forall i | 0 <= i < |s.got| ensures GotOk(s, s.got[i]) {
    }
    forall i | 0 <= i < |s.pubs| ensures PublishedBy(s, s.pubs[i].node, s.pubs[i].m) {
    }
  }

  /** p was published d links from the origin, with d + 1 taken off the initial TTL and at least 1 left. */
  ghost predicate PubInReach(s: System, p: Pub, d: nat)
  {
    && (p.m.host, p.m.id) in s.sent && 1 <= p.m.ttl
    && p.m.ttl == s.sent[(p.m.host, p.m.id)].ttl - 1 - d
    && Reaches(s.radio, p.m.host, p.node, d)
  }

  /** Accepted between 1 and TTL - 2 links from the origin; exactly 1 for control and unicast messages. */
  ghost predicate GotInReach(s: System, g: Got, d: nat)
  {
    && (g.host, g.id) in s.sent && g.node != g.host
    && var o := s.sent[(g.host, g.id)];
    && 1 <= d <= o.ttl - 2 && Reaches(s.radio, g.host, g.node, d)
    && (!o.kind.Data? || o.rec.To? ==> d == 1 && (g.node, g.host) in s.radio)
  }

  ghost predicate PubWithinTtl(s: System, p: Pub)
  {
    exists d :: PubInReach(s, p, d)
  }

  ghost predicate GotWithinTtl(s: System, g: Got)
  {
    exists d :: GotInReach(s, g, d)
  }

  /**
    Reach, in every interleaving and topology.  With the API value k the wire starts at k + 2 (see HopLimit),
    so a publication d links away carries k + 1 - d and acceptance is confined to k links.
   */
  lemma FloodReach(garble: Garble, keys: map<Host, Key>, radio: set<(Host, Host)>, run: seq<Action>)
    ensures var s := Run(garble, Start(keys, radio), run);
            && s.radio == radio
            && (forall i | 0 <= i < |s.pubs| :: PubWithinTtl(s, s.pubs[i]))
            && (forall i | 0 <= i < |s.got| :: GotWithinTtl(s, s.got[i]))
  {
    RunInv(garble, keys, radio, run);
    RadioKept(garble, Start(keys, radio), run);
    ReachOfInv(Run(garble, Start(keys, radio), run));
  }

  lemma ReachOfInv(s: System)
    requires SentOk(s) && Histories(s)
    ensures forall i | 0 <= i < |s.pubs| :: PubWithinTtl(s, s.pubs[i])
    ensures forall i | 0 <= i < |s.got| :: GotWithinTtl(s, s.got[i])
  {
    forall i | 0 <= i < |s.pubs| ensures PubWithinTtl(s, s.pubs[i]) {
      PubReach(s, s.pubs[i]);
    }
    forall i | 0 <= i < |s.got| ensures GotWithinTtl(s, s.got[i]) {
      GotReach(s, s.got[i]);
    }
  }

  lemma PubReach(s: System, p: Pub)
    requires PublishedBy(s, p.node, p.m)
    ensures PubWithinTtl(s, p)
  {
    assert PubInReach(s, p, s.sent[(p.m.host, p.m.id)].ttl - 1 - p.m.ttl);
  }

  lemma GotReach(s: System, g: Got)
    requires SentOk(s) && GotOk(s, g)
    ensures GotWithinTtl(s, g)
  {
    var o := s.sent[(g.host, g.id)];
    var d :| 1 <= d <= o.ttl - 2 && Reaches(s.radio, g.host, g.node, d);
    if !o.kind.Data? || o.rec.To? {
      var q :| Reaches(s.radio, g.host, q, 0) && (g.node, q) in s.radio;
    }
    assert GotInReach(s, g, d);
  }

  /** sendToNeighbors with k hops puts k + 2 on the wire. */
  lemma SendAllTtl(garble: Garble, s: System, n: Host, text: string, k: int)
    requires n in s.nodes && s.nodes[n].name == n
    ensures var s' := Step(garble, s, SendAll(n, text, k));
            && var key := (n, s.nodes[n].localId);
            && key in s'.sent
            && s'.sent[key] == Origin(Text(text), Text(text), k + 2, Broadcast, Data)
  {
  }

  lemma {:induction false} SentKept(garble: Garble, s: System, run: seq<Action>, key: (Host, nat))
    requires Inv(s) && key in s.sent
    ensures var s' := Run(garble, s, run); Inv(s') && key in s'.sent && s'.sent[key] == s.sent[key]
  {
    if run != [] {
      SentKept(garble, s, run[..|run| - 1], key);
      StepInv(garble, Run(garble, s, run[..|run| - 1]), run[|run| - 1]);
    }
  }

  /** Accepted with this text between 1 and k links from h. */
  ghost predicate WithinHops(radio: set<(Host, Host)>, g: Got, text: Bytes, k: int)
  {
    g.plain == text && g.node != g.host && exists d | 1 <= d <= k :: Reaches(radio, g.host, g.node, d)
  }

  /**
    A broadcast with API value k, sent after any run, is accepted with its own text and within k links only,
    whatever happens afterwards; with k of at most 0 by nobody.
   */
  lemma HopLimit(garble: Garble, keys: map<Host, Key>, radio: set<(Host, Host)>, before: seq<Action>, h: Host,
                 text: string, k: int, after: seq<Action>)
    requires h in Run(garble, Start(keys, radio), before).nodes
    ensures var s0 := Run(garble, Start(keys, radio), before);
            var s := Run(garble, Step(garble, s0, SendAll(h, text, k)), after);
            forall i | 0 <= i < |s.got| && s.got[i].host == h && s.got[i].id == s0.nodes[h].localId ::
              WithinHops(radio, s.got[i], Text(text), k)
  {
    var s0 := Run(garble, Start(keys, radio), before);
    var s1 := Step(garble, s0, SendAll(h, text, k));
    RunInv(garble, keys, radio, before);
    RadioKept(garble, Start(keys, radio), before);
    assert NodeOk(s0, h);
    SendAllTtl(garble, s0, h, text, k);
    StepInv(garble, s0, SendAll(h, text, k));
    StepKeepsRadio(garble, s0, SendAll(h, text, k));
    SentKept(garble, s1, after, (h, s0.nodes[h].localId));
    RadioKept(garble, s1, after);
    var s := Run(garble, s1, after);
    forall i | 0 <= i < |s.got| && s.got[i].host == h && s.got[i].id == s0.nodes[h].localId
      ensures WithinHops(radio, s.got[i], Text(text), k)
    {
      assert GotOk(s, s.got[i]);
    }
  }

  lemma {:induction false} RadioKept(garble: Garble, s: System, run: seq<Action>)
    ensures Run(garble, s, run).radio == s.radio && Run(garble, s, run).nodes.Keys >= s.nodes.Keys
  {
    if run != [] {
      RadioKept(garble, s, run[..|run| - 1]);
      StepKeepsRadio(garble, Run(garble, s, run[..|run| - 1]), run[|run| - 1]);
    }
  }

  lemma StepKeepsRadio(garble: Garble, s: System, a: Action)
    ensures Step(garble, s, a).radio == s.radio && Step(garble, s, a).nodes.Keys >= s.nodes.Keys
  {
  }

  /** Publishers of one message, by position in the history. */
  ghost function PubsOf(s: System, h: Host, id: nat): (r: set<nat>)
  {
    set i: nat | 0 <= i < |s.pubs| && s.pubs[i].m.host == h && s.pubs[i].m.id == id
  }

  /**
    At most once: per node and origin the published ids increase strictly, so N nodes publish a message at
    most N times, and no node accepts a message twice.
   */
  lemma AtMostOnce(garble: Garble, keys: map<Host, Key>, radio: set<(Host, Host)>, run: seq<Action>)
    ensures var s := Run(garble, Start(keys, radio), run);
            && (forall i, j | 0 <= i < j < |s.pubs| && s.pubs[i].node == s.pubs[j].node
                              && s.pubs[i].m.host == s.pubs[j].m.host :: s.pubs[i].m.id < s.pubs[j].m.id)
            && (forall h, id :: |PubsOf(s, h, id)| <= |s.nodes|)
            && (forall i, j | 0 <= i < j < |s.got| ::
                  (s.got[i].node, s.got[i].host, s.got[i].id) != (s.got[j].node, s.got[j].host, s.got[j].id))
  {
    RunInv(garble, keys, radio, run);
    var s := Run(garble, Start(keys, radio), run);
    forall h, id ensures |PubsOf(s, h, id)| <= |s.nodes| {
      forall i | i in PubsOf(s, h, id) ensures s.pubs[i].node in s.nodes.Keys {
        assert PublishedBy(s, s.pubs[i].node, s.pubs[i].m);
      }
      InjectionSize(PubsOf(s, h, id), s.nodes.Keys, s.pubs);
    }
  }

  lemma {:induction false} InjectionSize(xs: set<nat>, hosts: set<Host>, pubs: seq<Pub>)
    requires forall x | x in xs :: x < |pubs| && pubs[x].node in hosts
    requires forall x, y | x in xs && y in xs && x != y :: pubs[x].node != pubs[y].node
    ensures |xs| <= |hosts|
    decreases |xs|
  {
    if xs != {} {
      var x :| x in xs;
      InjectionSize(xs - {x}, hosts - {pubs[x].node}, pubs);
    }
  }

  /** A message that comes back to its origin is ignored there. */
  lemma ReturningMessageIgnored(garble: Garble, keys: map<Host, Key>, radio: set<(Host, Host)>,
                                run: seq<Action>, c: Copy)
    requires var s := Run(garble, Start(keys, radio), run);
             c in s.flight && c.Net? && c.m.host == c.dst && c.dst in s.nodes
    ensures var n := Run(garble, Start(keys, radio), run).nodes[c.dst];
            Forward(garble, n, c.m) == Forwarding(n, None, Ignored)
  {
    RunInv(garble, keys, radio, run);
    var s := Run(garble, Start(keys, radio), run);
    assert CopyOk(s, c);
    assert (c.m.host, c.m.id) in s.sent;
  }
}
