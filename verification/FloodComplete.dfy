/**
  Completeness of one broadcast: when all group keys are known, the origin sends nothing further and copies
  of the broadcast are taken in hop order, it is accepted exactly once at every node within k hops of its
  origin and nowhere else, whatever the other nodes send meanwhile.  The agents are shown to refine module
  HopFlood.
 */
module FloodComplete {
  import opened Agent
  import opened Network
  import opened FloodSafety
  import opened HopFlood

  // ---------------------------------------------------------------- the broadcast seen as a View

  predicate Ours(m: Msg, h: Host, id: nat)
  {
    m.host == h && m.id == id
  }

  ghost function NetsOf(s: System, h: Host, id: nat): (r: set<(Host, Host, int)>)
  {
    set c | c in s.flight && c.Net? && Ours(c.m, h, id) && c.m.lasthop.Via? :: (c.dst, c.m.lasthop.host, c.m.ttl)
  }

  ghost function WaitingOf(s: System, h: Host, id: nat): (r: set<Host>)
  {
    set c | c in s.flight && c.Rx? && Ours(c.m, h, id) && c.dst != h :: c.dst
  }

  ghost function RecordsOf(pubs: seq<Pub>, h: Host, id: nat): (r: set<(Host, int)>)
  {
    set i | 0 <= i < |pubs| && Ours(pubs[i].m, h, id) :: (pubs[i].node, pubs[i].m.ttl)
  }

  ghost function DoneOf(s: System, h: Host, id: nat): (r: set<Host>)
  {
    set n | n in s.nodes && Seen(s.nodes[n], h) >= id
  }

  ghost function AcceptedOf(got: seq<Got>, h: Host, id: nat): (r: set<Host>)
  {
    set i | 0 <= i < |got| && got[i].host == h && got[i].id == id :: got[i].node
  }

  ghost function ViewOf(s: System, h: Host, id: nat): (v: View)
  {
    View(NetsOf(s, h, id), WaitingOf(s, h, id), RecordsOf(s.pubs, h, id), DoneOf(s, h, id), AcceptedOf(s.got, h, id))
  }

  lemma RecordsAppend(pubs: seq<Pub>, p: Pub, h: Host, id: nat)
    ensures RecordsOf(pubs + [p], h, id)
            == RecordsOf(pubs, h, id) + (if Ours(p.m, h, id) then {(p.node, p.m.ttl)} else {})
  {
    var all := pubs + [p];
    forall i | 0 <= i < |pubs| ensures all[i] == pubs[i] {
    }
    assert all[|pubs|] == p;
    forall x | x in RecordsOf(pubs, h, id) ensures x in RecordsOf(all, h, id) {
      var i :| 0 <= i < |pubs| && Ours(pubs[i].m, h, id) && x == (pubs[i].node, pubs[i].m.ttl);
      assert Ours(all[i].m, h, id);
    }
  }

  lemma AcceptedAppend(got: seq<Got>, g: Got, h: Host, id: nat)
    ensures AcceptedOf(got + [g], h, id)
            == AcceptedOf(got, h, id) + (if g.host == h && g.id == id then {g.node} else {})
  {
    var all := got + [g];
    assert all[|got|] == g;
    forall x | x in AcceptedOf(got, h, id) ensures x in AcceptedOf(all, h, id) {
      var i :| 0 <= i < |got| && got[i].host == h && got[i].id == id && x == got[i].node;
      assert all[i] == got[i];
    }
  }

  // ---------------------------------------------------------------- what a calm run keeps

  /** Who hears whom: the subscriptions. */
  function Hearing(s: System): (r: set<(Host, Host)>)
  {
    set n, p | n in s.nodes && p in s.nodes[n].nbrs && n != p :: (n, p)
  }

  predicate KeyKnown(s: System, n: Host, p: Host)
  {
    n in s.nodes && p in s.nodes[n].nbrs ==>
      p in s.nodes && s.nodes[n].nbrs[p].encryptionKey == s.nodes[p].key
  }

  ghost predicate KeysKnown(s: System)
  {
    forall n, p :: KeyKnown(s, n, p)
  }

  predicate Alive(s: System, n: Host)
  {
    n in s.nodes ==> s.nodes[n].rxAlive
  }

  ghost predicate AllAlive(s: System)
  {
    forall n :: Alive(s, n)
  }

  predicate SameEntries(s: System, s': System, n: Host)
  {
    n in s.nodes && n in s'.nodes ==> s'.nodes[n].nbrs.Keys == s.nodes[n].nbrs.Keys
  }

  /** A copy of the broadcast, sealed with the current key of its last hop, at a subscriber of that hop. */
  ghost predicate CopyFresh(s: System, h: Host, id: nat, text: Bytes, c: Copy)
  {
    Ours(c.m, h, id) ==>
      && c.m.lasthop.Via? && c.m.lasthop.host in s.nodes && c.dst in s.nodes
      && c.m.rec == Broadcast && c.m.kind == Data
      && c.m.msg == Sealed(s.nodes[c.m.lasthop.host].key, text) && c.m.sig == Sig(c.m.lasthop.host, text)
      && (c.Net? ==> (c.dst, c.m.lasthop.host) in Hearing(s))
      && (c.Rx? ==> c.m.lasthop.host == c.dst)
  }

  ghost predicate CopiesFresh(s: System, h: Host, id: nat, text: Bytes)
  {
    forall c {:trigger CopyFresh(s, h, id, text, c)} | c in s.flight :: CopyFresh(s, h, id, text, c)
  }

  /** The broadcast (h, id) with API value k is the latest message of h, and keys and loops are in order. */
  ghost predicate Calm(s: System, h: Host, id: nat, text: Bytes, k: int)
  {
    && Inv(s) && KeysKnown(s) && AllAlive(s) && CopiesFresh(s, h, id, text)
    && h in s.nodes && s.nodes[h].localId == id + 1
    && (h, id) in s.sent && s.sent[(h, id)] == Origin(text, text, k + 2, Broadcast, Data)
  }

  /**
    One step of a calm run: handlers, sends, and losses of other messages.  No entry comes or goes, no loop
    ends, and h sends nothing further.
   */
  ghost predicate CalmStep(garble: Garble, s: System, a: Action, h: Host, id: nat)
  {
    && Enabled(s, a)
    && (a.Fwd? || a.Rcv? || a.SendAll? || a.SendTo? || (a.Lose? && !Ours(a.c.m, h, id)))
    && var s' := Step(garble, s, a);
    && (forall n :: SameEntries(s, s', n))
    && AllAlive(s')
    && (h in s.nodes && h in s'.nodes ==> s'.nodes[h].localId == s.nodes[h].localId)
  }

  /** Of the copies of the broadcast, one with the largest TTL is taken. */
  predicate InHopOrder(s: System, a: Action, h: Host, id: nat)
  {
    a.Fwd? && a.c.Net? && Ours(a.c.m, h, id) ==>
      forall c | c in s.flight && c.Net? && Ours(c.m, h, id) :: c.m.ttl <= a.c.m.ttl
  }

  /** Handlers keep the group key and the keys of the entries that stay. */
  ghost predicate KeepsGroupKeys(n: Node, n': Node)
  {
    && n'.key == n.key && n'.name == n.name
    && (forall p | p in n.nbrs && p in n'.nbrs :: n'.nbrs[p].encryptionKey == n.nbrs[p].encryptionKey)
  }

  lemma ForwardGroupKeys(garble: Garble, n: Node, m: Msg)
    ensures KeepsGroupKeys(n, Forward(garble, n, m).node)
  {
  }

  lemma HandlersGroupKeys(n: Node, m: Msg, plain: Bytes, newKey: Key)
    ensures KeepsGroupKeys(n, HandleKcm(n, m, plain).node)
    ensures KeepsGroupKeys(n, HandleRuk(n, m, plain, newKey).node)
    ensures KeepsGroupKeys(n, HandleNuk(n, m, plain).node)
  {
  }

  lemma ReceiveGroupKeys(garble: Garble, n: Node, m: Msg, newKey: Key)
    ensures KeepsGroupKeys(n, Receive(garble, n, m, newKey).node)
  {
    var body := CheckedOpen(garble, n.key, Some(n.name), m);
    if body.Some? && Unwrap(garble, n, m, body.value).Plain? {
      HandlersGroupKeys(n, m, Unwrap(garble, n, m, body.value).bytes, newKey);
    }
  }

  lemma KeysKnownKept(s: System, s': System, n: Node)
    requires KeysKnown(s) && n.name in s.nodes && s'.nodes == s.nodes[n.name := n]
    requires KeepsGroupKeys(s.nodes[n.name], n) && n.nbrs.Keys == s.nodes[n.name].nbrs.Keys
    ensures KeysKnown(s') && Hearing(s') == Hearing(s)
  {
    forall x, p ensures KeyKnown(s', x, p) {
      assert KeyKnown(s, x, p);
    }
  }

  lemma FreshKept(s: System, s': System, h: Host, id: nat, text: Bytes, n: Node, c: Copy)
    requires n.name in s.nodes && s'.nodes == s.nodes[n.name := n] && n.key == s.nodes[n.name].key
    requires Hearing(s') == Hearing(s) && CopyFresh(s, h, id, text, c)
    ensures CopyFresh(s', h, id, text, c)
  {
  }

  // ---------------------------------------------------------------- messages other than the broadcast

  ghost predicate SameOurs(s: System, s': System, h: Host, id: nat)
  {
    forall c: Copy | Ours(c.m, h, id) :: s'.flight[c] == s.flight[c]
  }

  lemma SameFlightView(s: System, s': System, h: Host, id: nat)
    requires SameOurs(s, s', h, id)
    ensures NetsOf(s', h, id) == NetsOf(s, h, id) && WaitingOf(s', h, id) == WaitingOf(s, h, id)
  {
    forall x | x in NetsOf(s', h, id) ensures x in NetsOf(s, h, id) {
      var c :| c in s'.flight && c.Net? && Ours(c.m, h, id) && c.m.lasthop.Via?
               && x == (c.dst, c.m.lasthop.host, c.m.ttl);
      assert c in s.flight;
    }
    forall x | x in NetsOf(s, h, id) ensures x in NetsOf(s', h, id) {
      var c :| c in s.flight && c.Net? && Ours(c.m, h, id) && c.m.lasthop.Via?
               && x == (c.dst, c.m.lasthop.host, c.m.ttl);
      assert c in s'.flight;
    }
    forall x | x in WaitingOf(s', h, id) ensures x in WaitingOf(s, h, id) {
      var c :| c in s'.flight && c.Rx? && Ours(c.m, h, id) && c.dst != h && x == c.dst;
      assert c in s.flight;
    }
    forall x | x in WaitingOf(s, h, id) ensures x in WaitingOf(s', h, id) {
      var c :| c in s.flight && c.Rx? && Ours(c.m, h, id) && c.dst != h && x == c.dst;
      assert c in s'.flight;
    }
  }

  /** Ids of h in any message are at most id. */
  lemma OriginIds(s: System, h: Host, id: nat, text: Bytes, k: int, m: Msg)
    requires Calm(s, h, id, text, k) && (m.host, m.id) in s.sent && m.host == h
    ensures m.id <= id
  {
  }

  lemma ForwardFlight(s: System, c: Copy, r: Forwarding, h: Host, id: nat)
    requires c.dst in s.nodes && s.nodes[c.dst].name == c.dst && !Ours(c.m, h, id)
    requires r.out.Some? ==> Publishes(s.nodes[c.dst], c.m, r)
    ensures SameOurs(s, AfterForward(s, c, r), h, id)
  {
    var s' := AfterForward(s, c, r);
    forall x: Copy | Ours(x.m, h, id) ensures s'.flight[x] == s.flight[x] {
      if r.out.Some? {
        assert x !in Fanout(s, c.dst, r.out.value);
      }
    }
  }

  lemma DoneSame(s: System, s': System, n: Node, h: Host, id: nat)
    requires n.name in s.nodes && s'.nodes == s.nodes[n.name := n]
    requires Seen(n, h) >= id <==> Seen(s.nodes[n.name], h) >= id
    ensures DoneOf(s', h, id) == DoneOf(s, h, id)
  {
  }

  lemma OtherForwardView(s: System, c: Copy, r: Forwarding, h: Host, id: nat)
    requires c.dst in s.nodes && s.nodes[c.dst].name == c.dst && !Ours(c.m, h, id)
    requires c.m.host == h ==> c.m.id < id
    requires r.out.Some? ==> Publishes(s.nodes[c.dst], c.m, r)
    requires r.out.None? ==> r.node.name == c.dst && r.node.fwdCache == s.nodes[c.dst].fwdCache
    ensures ViewOf(AfterForward(s, c, r), h, id) == ViewOf(s, h, id)
  {
    var s' := AfterForward(s, c, r);
    if r.out.Some? {
      RecordsAppend(s.pubs, Pub(c.dst, r.out.value), h, id);
    }
    ForwardFlight(s, c, r, h, id);
    SameFlightView(s, s', h, id);
    DoneSame(s, s', r.node, h, id);
  }

  /** Forwarding another message does not change the view of the broadcast. */
  lemma OtherForward(garble: Garble, s: System, c: Copy, h: Host, id: nat, text: Bytes, k: int)
    requires Calm(s, h, id, text, k) && c in s.flight && !c.Rx? && c.dst in s.nodes && !Ours(c.m, h, id)
    ensures ViewOf(FwdStep(garble, s, c), h, id) == ViewOf(s, h, id)
    ensures SameOurs(s, FwdStep(garble, s, c), h, id)
  {
    var n := s.nodes[c.dst];
    var r := Forward(garble, n, c.m);
    assert NodeOk(s, c.dst) && CopyOk(s, c);
    if c.m.host == h {
      OriginIds(s, h, id, text, k, c.m);
    }
    if r.out.Some? {
      ForwardPublishes(garble, n, c.m);
    } else {
      ForwardQuiet(garble, n, c.m);
    }
    ForwardFlight(s, c, r, h, id);
    OtherForwardView(s, c, r, h, id);
  }

  lemma ReceiveFlight(s: System, c: Copy, r: Receiving, h: Host, id: nat)
    requires c.dst in s.nodes && s.nodes[c.dst].name == c.dst && !Ours(c.m, h, id)
    requires Receives(s.nodes[c.dst], c.m, r)
    requires r.reply.Some? ==> !Ours(r.reply.value, h, id)
    ensures SameOurs(s, AfterReceive(s, c, r), h, id)
  {
  }

  lemma OtherReceiveView(s: System, c: Copy, r: Receiving, h: Host, id: nat)
    requires c.dst in s.nodes && s.nodes[c.dst].name == c.dst && !Ours(c.m, h, id)
    requires Receives(s.nodes[c.dst], c.m, r) && (r.reply.Some? ==> !Ours(r.reply.value, h, id))
    ensures ViewOf(AfterReceive(s, c, r), h, id) == ViewOf(s, h, id)
    ensures SameOurs(s, AfterReceive(s, c, r), h, id)
  {
    var s' := AfterReceive(s, c, r);
    if r.accepted.Some? {
      AcceptedAppend(s.got, Got(c.dst, c.m.host, c.m.id, r.accepted.value), h, id);
    }
    ReceiveFlight(s, c, r, h, id);
    SameFlightView(s, s', h, id);
    DoneSame(s, s', r.node, h, id);
  }

  // ---------------------------------------------------------------- copies of the broadcast

  /** A fresh copy decrypts, so it is published unless it is a duplicate or its TTL is used up. */
  lemma FreshForward(garble: Garble, s: System, c: Copy, h: Host, id: nat, text: Bytes, k: int)
    requires Calm(s, h, id, text, k) && c in s.flight && c.dst in s.nodes && !c.Rx? && Ours(c.m, h, id)
    ensures var n := s.nodes[c.dst];
            && var r := Forward(garble, n, c.m);
            && (c.m.ttl - 1 <= 0 || Seen(n, h) >= id ==> r == Forwarding(n, None, Ignored))
            && (c.m.ttl - 1 > 0 && Seen(n, h) < id ==> r.out.Some? && r.out.value.msg == Sealed(n.key, text))
  {
    assert NodeOk(s, c.dst) && CopyFresh(s, h, id, text, c);
    assert CopyOk(s, c) && KeyKnown(s, c.dst, c.m.lasthop.host);
  }

  lemma FreshReceive(garble: Garble, s: System, c: Copy, newKey: Key, h: Host, id: nat, text: Bytes, k: int)
    requires Calm(s, h, id, text, k) && c in s.flight && c.dst in s.nodes && c.Rx? && Ours(c.m, h, id)
    ensures var n := s.nodes[c.dst];
            Receive(garble, n, c.m, newKey)
            == if c.dst == h then Skip(n) else Receiving(n, None, Text(""), Some(text))
  {
    assert NodeOk(s, c.dst) && CopyFresh(s, h, id, text, c) && Alive(s, c.dst);
  }

  lemma NetsIn(s: System, h: Host, id: nat, c: Copy)
    requires c in s.flight && c.Net? && Ours(c.m, h, id) && c.m.lasthop.Via?
    ensures (c.dst, c.m.lasthop.host, c.m.ttl) in NetsOf(s, h, id)
  {
  }

  lemma PublishNets(s: System, c: Copy, r: Forwarding, h: Host, id: nat)
    requires c.dst in s.nodes && s.nodes[c.dst].name == c.dst && Ours(c.m, h, id) && c in s.flight && !c.Rx?
    requires Publishes(s.nodes[c.dst], c.m, r) && (c.Net? ==> c.m.lasthop.Via?)
    ensures var nets := NetsOf(s, h, id); var nets' := NetsOf(AfterForward(s, c, r), h, id);
            && (forall y | y in nets && !(c.Net? && y == (c.dst, c.m.lasthop.host, c.m.ttl)) :: y in nets')
            && Sent(Hearing(s), c.dst, c.m.ttl - 1, nets')
            && (forall y | y in nets' ::
                  y in nets || (y.1 == c.dst && y.2 == c.m.ttl - 1 && (y.0, y.1) in Hearing(s)))
  {
    var s' := AfterForward(s, c, r);
    var out := r.out.value;
    forall y | y in NetsOf(s, h, id) && !(c.Net? && y == (c.dst, c.m.lasthop.host, c.m.ttl))
      ensures y in NetsOf(s', h, id)
    {
      var x :| x in s.flight && x.Net? && Ours(x.m, h, id) && x.m.lasthop.Via?
               && y == (x.dst, x.m.lasthop.host, x.m.ttl);
      assert x in s'.flight;
    }
    forall y | (y, c.dst) in Hearing(s) ensures (y, c.dst, c.m.ttl - 1) in NetsOf(s', h, id) {
      assert y in Subscribers(s, c.dst);
      assert Net(y, out) in NetCopies(s, c.dst, out);
      assert Net(y, out) in s'.flight;
      NetsIn(s', h, id, Net(y, out));
    }
    forall y | y in NetsOf(s', h, id)
      ensures y in NetsOf(s, h, id) || (y.1 == c.dst && y.2 == c.m.ttl - 1 && (y.0, y.1) in Hearing(s))
    {
      var x :| x in s'.flight && x.Net? && Ours(x.m, h, id) && x.m.lasthop.Via?
               && y == (x.dst, x.m.lasthop.host, x.m.ttl);
      if x !in s.flight {
        assert x in NetCopies(s, c.dst, out);
      }
    }
  }

  lemma PublishWaiting(s: System, c: Copy, r: Forwarding, h: Host, id: nat)
    requires c.dst in s.nodes && s.nodes[c.dst].name == c.dst && Ours(c.m, h, id) && !c.Rx?
    requires Publishes(s.nodes[c.dst], c.m, r)
    ensures WaitingOf(AfterForward(s, c, r), h, id)
            == WaitingOf(s, h, id) + (if c.dst != h then {c.dst} else {})
  {
    var s' := AfterForward(s, c, r);
    var out := r.out.value;
    assert Rx(c.dst, out) in s'.flight;
    forall y | y in WaitingOf(s, h, id) ensures y in WaitingOf(s', h, id) {
      var x :| x in s.flight && x.Rx? && Ours(x.m, h, id) && x.dst != h && y == x.dst;
      assert x in s'.flight;
    }
    forall y | y in WaitingOf(s', h, id) ensures y in WaitingOf(s, h, id) || (c.dst != h && y == c.dst) {
      var x :| x in s'.flight && x.Rx? && Ours(x.m, h, id) && x.dst != h && y == x.dst;
      if x !in s.flight {
        assert x !in NetCopies(s, c.dst, out);
      }
    }
  }

  lemma PublishDone(s: System, c: Copy, r: Forwarding, h: Host, id: nat)
    requires c.dst in s.nodes && s.nodes[c.dst].name == c.dst && Ours(c.m, h, id)
    requires Publishes(s.nodes[c.dst], c.m, r)
    ensures DoneOf(AfterForward(s, c, r), h, id) == DoneOf(s, h, id) + {c.dst}
  {
  }

  /** Publishing a copy that came from another node is the Publish step of the model. */
  lemma OurPublish(s: System, c: Copy, r: Forwarding, h: Host, id: nat)
    requires c.dst in s.nodes && s.nodes[c.dst].name == c.dst && Ours(c.m, h, id) && c in s.flight
    requires c.Net? && c.m.lasthop.Via? && c.dst != h && Seen(s.nodes[c.dst], h) < id
    requires Publishes(s.nodes[c.dst], c.m, r)
    ensures Publish(Hearing(s), ViewOf(s, h, id), ViewOf(AfterForward(s, c, r), h, id),
                    (c.dst, c.m.lasthop.host, c.m.ttl))
  {
    NetsIn(s, h, id, c);
    PublishNets(s, c, r, h, id);
    PublishWaiting(s, c, r, h, id);
    PublishDone(s, c, r, h, id);
    RecordsAppend(s.pubs, Pub(c.dst, r.out.value), h, id);
  }

  /** Ignoring a copy is the Drop step. */
  lemma OurDrop(s: System, c: Copy, h: Host, id: nat)
    requires c.dst in s.nodes && s.nodes[c.dst].name == c.dst && Ours(c.m, h, id) && c in s.flight
    requires c.Net? && c.m.lasthop.Via? && (c.m.ttl - 1 <= 0 || Seen(s.nodes[c.dst], h) >= id)
    ensures var s' := AfterForward(s, c, Forwarding(s.nodes[c.dst], None, Ignored));
            Drop(ViewOf(s, h, id), ViewOf(s', h, id), (c.dst, c.m.lasthop.host, c.m.ttl))
  {
    var s' := AfterForward(s, c, Forwarding(s.nodes[c.dst], None, Ignored));
    assert s'.nodes == s.nodes;
    NetsIn(s, h, id, c);
    forall y | y in NetsOf(s, h, id) && y != (c.dst, c.m.lasthop.host, c.m.ttl) ensures y in NetsOf(s', h, id) {
      var x :| x in s.flight && x.Net? && Ours(x.m, h, id) && x.m.lasthop.Via?
               && y == (x.dst, x.m.lasthop.host, x.m.ttl);
      assert x in s'.flight;
    }
    forall y | y in NetsOf(s', h, id) ensures y in NetsOf(s, h, id) {
      var x :| x in s'.flight && x.Net? && Ours(x.m, h, id) && x.m.lasthop.Via?
               && y == (x.dst, x.m.lasthop.host, x.m.ttl);
      assert x in s.flight;
    }
    forall x: Copy | x.Rx? ensures x in s.flight <==> x in s'.flight {
    }
    assert WaitingOf(s', h, id) == WaitingOf(s, h, id);
  }

  /** Accepting is the Accept step; at the origin itself nothing visible happens. */
  lemma OurReceive(s: System, c: Copy, r: Receiving, h: Host, id: nat, text: Bytes)
    requires c.dst in s.nodes && s.nodes[c.dst].name == c.dst && Ours(c.m, h, id) && c in s.flight && c.Rx?
    requires r == if c.dst == h then Skip(s.nodes[c.dst])
                  else Receiving(s.nodes[c.dst], None, Text(""), Some(text))
    ensures var v := ViewOf(s, h, id); var v' := ViewOf(AfterReceive(s, c, r), h, id);
            if c.dst == h then v' == v else Accept(v, v', c.dst)
  {
    var s' := AfterReceive(s, c, r);
    assert s'.nodes == s.nodes;
    forall x: Copy | x.Net? ensures x in s.flight <==> x in s'.flight {
    }
    assert NetsOf(s', h, id) == NetsOf(s, h, id);
    forall x | x in WaitingOf(s', h, id) ensures x in WaitingOf(s, h, id) {
      var y :| y in s'.flight && y.Rx? && Ours(y.m, h, id) && y.dst != h && x == y.dst;
      assert y in s.flight;
    }
    forall x | x in WaitingOf(s, h, id) && x != c.dst ensures x in WaitingOf(s', h, id) {
      var y :| y in s.flight && y.Rx? && Ours(y.m, h, id) && y.dst != h && x == y.dst;
      assert y in s'.flight;
    }
    if c.dst != h {
      AcceptedAppend(s.got, Got(c.dst, c.m.host, c.m.id, text), h, id);
      assert c.dst in WaitingOf(s, h, id);
    }
  }

  // ---------------------------------------------------------------- calm runs stay calm

  lemma CalmForward(garble: Garble, s: System, c: Copy, h: Host, id: nat, text: Bytes, k: int)
    requires Calm(s, h, id, text, k) && CalmStep(garble, s, Fwd(c), h, id)
    ensures Calm(FwdStep(garble, s, c), h, id, text, k) && Hearing(FwdStep(garble, s, c)) == Hearing(s)
  {
    var n := s.nodes[c.dst];
    var r := Forward(garble, n, c.m);
    var s' := AfterForward(s, c, r);
    assert NodeOk(s, c.dst);
    StepInv(garble, s, Fwd(c));
    ForwardGroupKeys(garble, n, c.m);
    assert s'.nodes == s.nodes[c.dst := r.node] && SameEntries(s, s', c.dst);
    KeysKnownKept(s, s', r.node);
    if r.out.Some? {
      ForwardPublishes(garble, n, c.m);
      if Ours(c.m, h, id) {
        assert CopyFresh(s, h, id, text, c);
        FreshForward(garble, s, c, h, id, text, k);
      }
    }
    CopiesFreshForward(s, s', c, r, h, id, text);
  }

  lemma CopiesFreshForward(s: System, s': System, c: Copy, r: Forwarding, h: Host, id: nat, text: Bytes)
    requires CopiesFresh(s, h, id, text) && c in s.flight && c.dst in s.nodes && s.nodes[c.dst].name == c.dst
    requires s' == AfterForward(s, c, r) && s'.nodes == s.nodes[c.dst := r.node] && r.node.name == c.dst
    requires Hearing(s') == Hearing(s) && r.node.key == s.nodes[c.dst].key
    requires r.out.Some? ==> Publishes(s.nodes[c.dst], c.m, r)
    requires r.out.Some? && Ours(c.m, h, id) ==> r.out.value.msg == Sealed(r.node.key, text)
    ensures CopiesFresh(s', h, id, text)
  {
    assert CopyFresh(s, h, id, text, c);
    forall x | x in s'.flight ensures CopyFresh(s', h, id, text, x) {
      if x in s.flight {
        assert CopyFresh(s, h, id, text, x);
        FreshKept(s, s', h, id, text, r.node, x);
      } else if x.Net? {
        assert x in NetCopies(s, c.dst, r.out.value);
        assert (x.dst, c.dst) in Hearing(s);
      }
    }
  }

  lemma CalmReceive(garble: Garble, s: System, c: Copy, newKey: Key, h: Host, id: nat, text: Bytes, k: int)
    requires Calm(s, h, id, text, k) && CalmStep(garble, s, Rcv(c, newKey), h, id)
    ensures var s' := RcvStep(garble, s, c, newKey);
            && Calm(s', h, id, text, k) && Hearing(s') == Hearing(s)
            && (Receive(garble, s.nodes[c.dst], c.m, newKey).reply.Some? ==> c.dst != h)
  {
    var n := s.nodes[c.dst];
    var r := Receive(garble, n, c.m, newKey);
    var s' := AfterReceive(s, c, r);
    assert NodeOk(s, c.dst);
    StepInv(garble, s, Rcv(c, newKey));
    ReceiveFacts(garble, n, c.m, newKey);
    ReceiveGroupKeys(garble, n, c.m, newKey);
    assert s'.nodes == s.nodes[c.dst := r.node] && SameEntries(s, s', c.dst);
    KeysKnownKept(s, s', r.node);
    CopiesFreshReceive(s, s', c, r, h, id, text);
  }

  lemma CopiesFreshReceive(s: System, s': System, c: Copy, r: Receiving, h: Host, id: nat, text: Bytes)
    requires CopiesFresh(s, h, id, text) && c.dst in s.nodes && s.nodes[c.dst].name == c.dst
    requires s' == AfterReceive(s, c, r) && s'.nodes == s.nodes[c.dst := r.node] && r.node.name == c.dst
    requires Hearing(s') == Hearing(s) && r.node.key == s.nodes[c.dst].key
    requires r.reply.Some? ==> r.reply.value.host == c.dst != h
    ensures CopiesFresh(s', h, id, text)
  {
    forall x | x in s'.flight ensures CopyFresh(s', h, id, text, x) {
      if x in s.flight {
        assert CopyFresh(s, h, id, text, x);
        FreshKept(s, s', h, id, text, r.node, x);
      }
    }
  }

  /** A send by another node than h, from n as its state. */
  lemma CalmEmit(s: System, s': System, n: Node, text': Bytes, ttl: int, kind: Kind, rec: Rec, h: Host, id: nat,
                 text: Bytes, k: int)
    requires Calm(s, h, id, text, k) && n.name in s.nodes && n == s.nodes[n.name]
    requires s' == SendStep(s, SendFlooding(n, text', ttl, kind, None, rec), text')
    requires Inv(s') && AllAlive(s') && h in s'.nodes && s'.nodes[h].localId == s.nodes[h].localId
    ensures Calm(s', h, id, text, k) && Hearing(s') == Hearing(s)
    ensures SameOurs(s, s', h, id) && ViewOf(s', h, id) == ViewOf(s, h, id)
  {
    SendFloodingFacts(n, text', ttl, kind, None, rec);
    var r := SendFlooding(n, text', ttl, kind, None, rec);
    assert r.node.nbrs == n.nbrs && r.node.key == n.key && r.node.fwdCache == n.fwdCache;
    assert s'.nodes == s.nodes[n.name := r.node];
    KeysKnownKept(s, s', r.node);
    EmitFresh(s, s', r, h, id, text);
    SameFlightView(s, s', h, id);
    DoneSame(s, s', r.node, h, id);
  }

  lemma EmitFresh(s: System, s': System, r: Sending, h: Host, id: nat, text: Bytes)
    requires CopiesFresh(s, h, id, text) && r.node.name in s.nodes && s'.nodes == s.nodes[r.node.name := r.node]
    requires r.node.key == s.nodes[r.node.name].key && Hearing(s') == Hearing(s)
    requires s'.flight == if r.out.None? then s.flight else s.flight + multiset{Local(r.out.value.host, r.out.value)}
    requires r.out.Some? ==> r.out.value.host == r.node.name != h
    ensures CopiesFresh(s', h, id, text) && SameOurs(s, s', h, id)
  {
    forall x | x in s'.flight ensures CopyFresh(s', h, id, text, x) {
      if x in s.flight {
        assert CopyFresh(s, h, id, text, x);
        FreshKept(s, s', h, id, text, r.node, x);
      }
    }
  }

  /** Sends by other nodes leave the broadcast alone. */
  lemma CalmSend(garble: Garble, s: System, a: Action, h: Host, id: nat, text: Bytes, k: int)
    requires Calm(s, h, id, text, k) && CalmStep(garble, s, a, h, id) && (a.SendAll? || a.SendTo?)
    ensures var s' := Step(garble, s, a);
            && Calm(s', h, id, text, k) && Hearing(s') == Hearing(s)
            && SameOurs(s, s', h, id) && ViewOf(s', h, id) == ViewOf(s, h, id)
  {
    assert NodeOk(s, a.n);
    StepInv(garble, s, a);
    var s' := Step(garble, s, a);
    var n := s.nodes[a.n];
    if a.SendAll? {
      CalmEmit(s, s', n, Text(a.text), a.ttl + 2, Data, Broadcast, h, id, text, k);
    } else if a.to in n.nbrs {
      if n.nbrs[a.to].unicastSendKey.Some? {
        CalmEmit(s, s', n, Text(a.text), UNICAST_TTL, Data, To(a.to), h, id, text, k);
      } else {
        CalmEmit(s, s', n, Text(""), CTRL_TTL, Ruk, To(a.to), h, id, text, k);
      }
    }
  }

  lemma CalmLose(garble: Garble, s: System, a: Action, h: Host, id: nat, text: Bytes, k: int)
    requires Calm(s, h, id, text, k) && CalmStep(garble, s, a, h, id) && a.Lose?
    ensures var s' := Step(garble, s, a);
            && Calm(s', h, id, text, k) && Hearing(s') == Hearing(s)
            && SameOurs(s, s', h, id) && ViewOf(s', h, id) == ViewOf(s, h, id)
  {
    StepInv(garble, s, a);
    var s' := Step(garble, s, a);
    assert s' == s.(flight := s.flight - multiset{a.c});
    forall n, p ensures KeyKnown(s', n, p) {
      assert KeyKnown(s, n, p);
    }
    forall x | x in s'.flight ensures CopyFresh(s', h, id, text, x) {
      assert x in s.flight && CopyFresh(s, h, id, text, x);
    }
    SameFlightView(s, s', h, id);
  }

  lemma CalmKept(garble: Garble, s: System, a: Action, h: Host, id: nat, text: Bytes, k: int)
    requires Calm(s, h, id, text, k) && CalmStep(garble, s, a, h, id)
    ensures var s' := Step(garble, s, a); Calm(s', h, id, text, k) && Hearing(s') == Hearing(s)
  {
    if a.Fwd? {
      CalmForward(garble, s, a.c, h, id, text, k);
    } else if a.Rcv? {
      CalmReceive(garble, s, a.c, a.newKey, h, id, text, k);
    } else if a.Lose? {
      CalmLose(garble, s, a, h, id, text, k);
    } else {
      CalmSend(garble, s, a, h, id, text, k);
    }
  }

  // ---------------------------------------------------------------- before and after the origin publishes

  const NOTHING: View := View({}, {}, {}, {}, {})

  /** The broadcast is still on the send socket of its origin and nowhere else. */
  ghost predicate Pending(s: System, h: Host, id: nat, m: Msg)
  {
    && Ours(m, h, id) && s.flight[Local(h, m)] == 1
    && (forall c | c in s.flight && Ours(c.m, h, id) :: c == Local(h, m))
    && ViewOf(s, h, id) == NOTHING
  }

  ghost predicate NoLocal(s: System, h: Host, id: nat)
  {
    forall c | c in s.flight && Ours(c.m, h, id) :: !c.Local?
  }

  lemma PendingKept(s: System, s': System, h: Host, id: nat, m: Msg)
    requires Pending(s, h, id, m) && SameOurs(s, s', h, id) && ViewOf(s', h, id) == ViewOf(s, h, id)
    ensures Pending(s', h, id, m)
  {
    forall c | c in s'.flight && Ours(c.m, h, id) ensures c == Local(h, m) {
      assert s'.flight[c] == s.flight[c];
    }
  }

  lemma NoLocalKept(s: System, s': System, h: Host, id: nat)
    requires NoLocal(s, h, id) && SameOurs(s, s', h, id)
    ensures NoLocal(s', h, id)
  {
    forall c | c in s'.flight && Ours(c.m, h, id) ensures !c.Local? {
      assert s'.flight[c] == s.flight[c];
    }
  }

  /** A handler takes a copy of the broadcast. */
  predicate OnOurs(a: Action, h: Host, id: nat)
  {
    (a.Fwd? || a.Rcv?) && Ours(a.c.m, h, id)
  }

  /** Any other step changes nothing that concerns the broadcast. */
  lemma OtherStep(garble: Garble, s: System, a: Action, h: Host, id: nat, text: Bytes, k: int)
    requires Calm(s, h, id, text, k) && CalmStep(garble, s, a, h, id) && !OnOurs(a, h, id)
    ensures var s' := Step(garble, s, a);
            SameOurs(s, s', h, id) && ViewOf(s', h, id) == ViewOf(s, h, id)
  {
    if a.Fwd? {
      OtherForward(garble, s, a.c, h, id, text, k);
    } else if a.Rcv? {
      assert NodeOk(s, a.c.dst);
      var r := Receive(garble, s.nodes[a.c.dst], a.c.m, a.newKey);
      ReceiveFacts(garble, s.nodes[a.c.dst], a.c.m, a.newKey);
      CalmReceive(garble, s, a.c, a.newKey, h, id, text, k);
      OtherReceiveView(s, a.c, r, h, id);
    } else if a.Lose? {
      CalmLose(garble, s, a, h, id, text, k);
    } else {
      CalmSend(garble, s, a, h, id, text, k);
    }
  }

  /** The origin's forwarder publishes the pending broadcast with TTL k + 1. */
  lemma LaunchStep(garble: Garble, s: System, h: Host, id: nat, text: Bytes, k: nat, m: Msg)
    requires Calm(s, h, id, text, k) && Pending(s, h, id, m)
    ensures var s' := FwdStep(garble, s, Local(h, m));
            Launched(Hearing(s), h, k, ViewOf(s', h, id)) && NoLocal(s', h, id)
  {
    var c := Local(h, m);
    assert c in s.flight && NodeOk(s, h) && CopyOk(s, c);
    assert h !in DoneOf(s, h, id);
    FreshForward(garble, s, c, h, id, text, k);
    var r := Forward(garble, s.nodes[h], m);
    ForwardPublishes(garble, s.nodes[h], m);
    PublishNets(s, c, r, h, id);
    PublishWaiting(s, c, r, h, id);
    PublishDone(s, c, r, h, id);
    RecordsAppend(s.pubs, Pub(h, r.out.value), h, id);
    LaunchClears(s, h, id, m, r);
  }

  lemma LaunchClears(s: System, h: Host, id: nat, m: Msg, r: Forwarding)
    requires Pending(s, h, id, m) && r.out.Some?
    ensures NoLocal(AfterForward(s, Local(h, m), r), h, id)
  {
    var s' := AfterForward(s, Local(h, m), r);
    forall c | c in s'.flight && Ours(c.m, h, id) ensures !c.Local? {
    }
  }

  function NetOf(c: Copy): (x: (Host, Host, int))
    requires c.m.lasthop.Via?
  {
    (c.dst, c.m.lasthop.host, c.m.ttl)
  }

  /** A step on a copy of the broadcast, once published, is a step of the set model. */
  lemma OurStep(garble: Garble, s: System, a: Action, h: Host, id: nat, text: Bytes, k: nat)
    requires Calm(s, h, id, text, k) && CalmStep(garble, s, a, h, id) && OnOurs(a, h, id) && NoLocal(s, h, id)
    requires h in DoneOf(s, h, id)
    ensures NoLocal(Step(garble, s, a), h, id)
    ensures var v := ViewOf(s, h, id);
            var v' := ViewOf(Step(garble, s, a), h, id);
            if a.Fwd? then a.c.Net? && a.c.m.lasthop.Via? && Take(Hearing(s), v, v', NetOf(a.c))
            else v' == v || Accept(v, v', a.c.dst)
  {
    var c := a.c;
    var n := s.nodes[c.dst];
    assert NodeOk(s, c.dst) && CopyFresh(s, h, id, text, c);
    if a.Fwd? {
      FreshForward(garble, s, c, h, id, text, k);
      var r := Forward(garble, n, c.m);
      if r.out.Some? {
        ForwardPublishes(garble, n, c.m);
        OurPublish(s, c, r, h, id);
      } else {
        OurDrop(s, c, h, id);
      }
      NoLocalForward(s, c, r, h, id);
    } else {
      FreshReceive(garble, s, c, a.newKey, h, id, text, k);
      OurReceive(s, c, Receive(garble, n, c.m, a.newKey), h, id, text);
    }
  }

  /** In hop order it is a step of the breadth-first search. */
  lemma OurNext(garble: Garble, s: System, a: Action, h: Host, id: nat, text: Bytes, k: nat)
    requires Calm(s, h, id, text, k) && CalmStep(garble, s, a, h, id) && OnOurs(a, h, id) && NoLocal(s, h, id)
    requires h in DoneOf(s, h, id) && InHopOrder(s, a, h, id)
    ensures Next(Hearing(s), ViewOf(s, h, id), ViewOf(Step(garble, s, a), h, id))
  {
    OurStep(garble, s, a, h, id, text, k);
    if a.Fwd? {
      HopOrder(s, a.c, h, id);
    }
  }

  lemma HopOrder(s: System, c: Copy, h: Host, id: nat)
    requires forall x | x in s.flight && x.Net? && Ours(x.m, h, id) :: x.m.ttl <= c.m.ttl
    requires c.Net? && c.m.lasthop.Via?
    ensures InOrder(ViewOf(s, h, id), NetOf(c))
  {
    forall y | y in NetsOf(s, h, id) ensures y.2 <= c.m.ttl {
      var x :| x in s.flight && x.Net? && Ours(x.m, h, id) && x.m.lasthop.Via?
               && y == (x.dst, x.m.lasthop.host, x.m.ttl);
    }
  }

  lemma NoLocalForward(s: System, c: Copy, r: Forwarding, h: Host, id: nat)
    requires NoLocal(s, h, id)
    ensures NoLocal(AfterForward(s, c, r), h, id)
  {
    var s' := AfterForward(s, c, r);
    forall x | x in s'.flight && Ours(x.m, h, id) ensures !x.Local? {
    }
  }

  lemma WaitingDone(s: System, h: Host, id: nat)
    requires Flights(s)
    ensures forall n | n in WaitingOf(s, h, id) :: n in DoneOf(s, h, id)
  {
    forall n | n in WaitingOf(s, h, id) ensures n in DoneOf(s, h, id) {
      var c :| c in s.flight && c.Rx? && Ours(c.m, h, id) && c.dst != h && n == c.dst;
      assert CopyOk(s, c);
    }
  }

  // ---------------------------------------------------------------- the theorem

  /** The send itself: from a state without any trace of the new id to a calm, pending one. */
  lemma NoTrace(s: System, h: Host)
    requires Inv(s) && h in s.nodes
    ensures var id := s.nodes[h].localId;
            && (h, id) !in s.sent && ViewOf(s, h, id) == NOTHING
            && (forall c | c in s.flight :: !Ours(c.m, h, id))
  {
    var id := s.nodes[h].localId;
    forall c | c in s.flight ensures !Ours(c.m, h, id) {
      assert CopyOk(s, c);
    }
    forall i | 0 <= i < |s.pubs| ensures !Ours(s.pubs[i].m, h, id) {
      assert PublishedBy(s, s.pubs[i].node, s.pubs[i].m);
    }
    forall i | 0 <= i < |s.got| ensures !(s.got[i].host == h && s.got[i].id == id) {
      assert GotOk(s, s.got[i]);
    }
    assert NodeOk(s, h);
    forall n | n in s.nodes ensures Seen(s.nodes[n], h) < id {
      assert CacheOk(s, n, h);
    }
    assert DoneOf(s, h, id) == {};
  }

  lemma SendCalm(garble: Garble, s: System, h: Host, text: string, k: int) returns (m: Msg)
    requires Inv(s) && h in s.nodes && KeysKnown(s) && AllAlive(s)
    ensures var id := s.nodes[h].localId; var s' := Step(garble, s, SendAll(h, text, k));
            Calm(s', h, id, Text(text), k) && Pending(s', h, id, m) && Hearing(s') == Hearing(s)
  {
    var id := s.nodes[h].localId;
    assert NodeOk(s, h);
    NoTrace(s, h);
    StepInv(garble, s, SendAll(h, text, k));
    var r := SendFlooding(s.nodes[h], Text(text), k + 2, Data, None, Broadcast);
    m := r.out.value;
    var s' := SendStep(s, r, Text(text));
    assert s' == Step(garble, s, SendAll(h, text, k));
    KeysKnownKept(s, s', r.node);
    forall n ensures Alive(s', n) {
      assert Alive(s, n);
    }
    SendPending(s, s', r.node, m, h, id, Text(text));
  }

  lemma SendPending(s: System, s': System, n: Node, m: Msg, h: Host, id: nat, text: Bytes)
    requires h in s.nodes && s'.nodes == s.nodes[h := n] && n.name == h && n.fwdCache == s.nodes[h].fwdCache
    requires n.key == s.nodes[h].key && Hearing(s') == Hearing(s)
    requires ViewOf(s, h, id) == NOTHING && forall c | c in s.flight :: !Ours(c.m, h, id)
    requires s'.flight == s.flight + multiset{Local(h, m)} && s'.pubs == s.pubs && s'.got == s.got
    requires Ours(m, h, id) && m.lasthop == Via(h) && m.rec == Broadcast && m.kind == Data
    requires m.msg == Sealed(n.key, text) && m.sig == Sig(h, text)
    ensures Pending(s', h, id, m) && CopiesFresh(s', h, id, text)
  {
    forall c | c in s'.flight ensures CopyFresh(s', h, id, text, c) {
    }
    assert NetsOf(s', h, id) == {} && WaitingOf(s', h, id) == {};
    DoneSame(s, s', n, h, id);
  }

  /** Every step of the run is calm. */
  ghost predicate CalmRun(garble: Garble, s: System, run: seq<Action>, h: Host, id: nat)
  {
    run != [] ==>
      && CalmRun(garble, s, run[..|run| - 1], h, id)
      && CalmStep(garble, Run(garble, s, run[..|run| - 1]), run[|run| - 1], h, id)
  }

  /** Every step of the run is in hop order. */
  ghost predicate HopRun(garble: Garble, s: System, run: seq<Action>, h: Host, id: nat)
  {
    run != [] ==>
      && HopRun(garble, s, run[..|run| - 1], h, id)
      && InHopOrder(Run(garble, s, run[..|run| - 1]), run[|run| - 1], h, id)
  }

  /** Where a calm run in hop order stands: still pending, or somewhere in the breadth-first search. */
  ghost predicate Stage(s: System, graph: set<(Host, Host)>, h: Host, id: nat, text: Bytes, k: nat, m: Msg, d: nat)
  {
    && Calm(s, h, id, text, k) && Hearing(s) == graph
    && (Pending(s, h, id, m) || (NoLocal(s, h, id) && HopInv(graph, h, k, ViewOf(s, h, id), d)))
  }

  /** Before the origin has published, a step keeps it pending or publishes it. */
  lemma PendingStep(garble: Garble, s: System, a: Action, h: Host, id: nat, text: Bytes, k: nat, m: Msg)
    requires Calm(s, h, id, text, k) && CalmStep(garble, s, a, h, id) && Pending(s, h, id, m)
    ensures var s' := Step(garble, s, a);
            Pending(s', h, id, m) || (NoLocal(s', h, id) && Launched(Hearing(s), h, k, ViewOf(s', h, id)))
  {
    if OnOurs(a, h, id) {
      LaunchStep(garble, s, h, id, text, k, m);
    } else {
      OtherStep(garble, s, a, h, id, text, k);
      PendingKept(s, Step(garble, s, a), h, id, m);
    }
  }

  lemma StageStep(garble: Garble, s: System, a: Action, graph: set<(Host, Host)>, h: Host, id: nat, text: Bytes,
                  k: nat, m: Msg, d: nat) returns (e: nat)
    requires Stage(s, graph, h, id, text, k, m, d) && CalmStep(garble, s, a, h, id) && InHopOrder(s, a, h, id)
    ensures Stage(Step(garble, s, a), graph, h, id, text, k, m, e)
  {
    var s' := Step(garble, s, a);
    e := d;
    CalmKept(garble, s, a, h, id, text, k);
    if Pending(s, h, id, m) {
      PendingStep(garble, s, a, h, id, text, k, m);
      if !Pending(s', h, id, m) {
        LaunchedInv(graph, h, k, ViewOf(s', h, id));
        e := 0;
      }
    } else if OnOurs(a, h, id) {
      OurStep(garble, s, a, h, id, text, k);
      OurNext(garble, s, a, h, id, text, k);
      WaitingDone(s, h, id);
      e := NextInv(graph, h, k, ViewOf(s, h, id), ViewOf(s', h, id), d);
    } else {
      OtherStep(garble, s, a, h, id, text, k);
      NoLocalKept(s, s', h, id);
    }
  }

  lemma {:induction false} StageRun(garble: Garble, s: System, run: seq<Action>, graph: set<(Host, Host)>, h: Host,
                                    id: nat, text: Bytes, k: nat, m: Msg) returns (d: nat)
    requires Stage(s, graph, h, id, text, k, m, 0) && CalmRun(garble, s, run, h, id) && HopRun(garble, s, run, h, id)
    ensures Stage(Run(garble, s, run), graph, h, id, text, k, m, d)
  {
    d := 0;
    if run != [] {
      var init := run[..|run| - 1];
      d := StageRun(garble, s, init, graph, h, id, text, k, m);
      d := StageStep(garble, Run(garble, s, init), run[|run| - 1], graph, h, id, text, k, m, d);
    }
  }

  lemma DrainedView(s: System, h: Host, id: nat)
    requires forall c | c in s.flight :: !Ours(c.m, h, id)
    ensures NetsOf(s, h, id) == {} && WaitingOf(s, h, id) == {}
  {
  }

  /** Whoever accepted the broadcast got its text, once. */
  lemma AcceptedOnce(s: System, h: Host, id: nat, text: Bytes, k: int)
    requires Calm(s, h, id, text, k)
    ensures forall i | 0 <= i < |s.got| && s.got[i].host == h && s.got[i].id == id ::
              && s.got[i].plain == text
              && (forall j | 0 <= j < |s.got| && s.got[j].node == s.got[i].node && s.got[j].host == h
                             && s.got[j].id == s.got[i].id :: j == i)
  {
    forall i | 0 <= i < |s.got| && s.got[i].host == h && s.got[i].id == id ensures s.got[i].plain == text {
      assert GotOk(s, s.got[i]);
    }
  }

  /**
    Completeness: after any run, when all group keys are known, a broadcast with API value k whose copies are
    taken in hop order is, once its last copy is gone, accepted with its text exactly at the nodes other than
    its origin that hear it over at most k links, and at each of them exactly once.
   */
  lemma BroadcastReachesExactly(garble: Garble, keys: map<Host, Key>, radio: set<(Host, Host)>, before: seq<Action>,
                                h: Host, text: string, k: nat, run: seq<Action>, s0: System, s: System)
    requires s0 == Run(garble, Start(keys, radio), before) && h in s0.nodes && KeysKnown(s0) && AllAlive(s0)
    requires CalmRun(garble, Step(garble, s0, SendAll(h, text, k)), run, h, s0.nodes[h].localId)
    requires HopRun(garble, Step(garble, s0, SendAll(h, text, k)), run, h, s0.nodes[h].localId)
    requires s == Run(garble, Step(garble, s0, SendAll(h, text, k)), run)
    requires forall c | c in s.flight :: !Ours(c.m, h, s0.nodes[h].localId)
    ensures forall n :: n in AcceptedOf(s.got, h, s0.nodes[h].localId) <==> n != h && InBall(Hearing(s0), h, n, k)
    ensures forall i | 0 <= i < |s.got| && s.got[i].host == h && s.got[i].id == s0.nodes[h].localId ::
              && s.got[i].plain == Text(text)
              && (forall j | 0 <= j < |s.got| && s.got[j].node == s.got[i].node && s.got[j].host == h
                             && s.got[j].id == s.got[i].id :: j == i)
  {
    var id := s0.nodes[h].localId;
    RunInv(garble, keys, radio, before);
    var m := SendCalm(garble, s0, h, text, k);
    var d := StageRun(garble, Step(garble, s0, SendAll(h, text, k)), run, Hearing(s0), h, id, Text(text), k, m);
    assert !Pending(s, h, id, m);
    DrainedView(s, h, id);
    forall n ensures n in AcceptedOf(s.got, h, id) <==> n != h && InBall(Hearing(s0), h, n, k) {
      DrainedExactly(Hearing(s0), h, k, ViewOf(s, h, id), d, n);
    }
    AcceptedOnce(s, h, id, Text(text), k);
  }
}
