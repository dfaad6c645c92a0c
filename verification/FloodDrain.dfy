/**
  Draining: every message that a run handles or loses is paid for by a send, so a run with finitely many
  sends handles only finitely many messages and then falls silent.

  The potential counts the copies in flight, the publications that are still possible (node and message
  pairs that the duplicate filters still let through) and the key requests that can still be answered.
 */
module FloodDrain {
  import opened Agent
  import opened Network
  import opened FloodSafety

  /** Publications that are still possible. */
  ghost function Slots(s: System): (r: set<(Host, (Host, nat))>)
  {
    set n, k | n in s.nodes && k in s.sent && Seen(s.nodes[n], k.0) < k.1 :: (n, k)
  }

  ghost predicate Accepted(s: System, n: Host, k: (Host, nat))
  {
    exists i :: 0 <= i < |s.got| && s.got[i].node == n && (s.got[i].host, s.got[i].id) == k
  }

  /** Key requests that a node has not accepted yet and may still answer. */
  ghost function Requests(s: System): (r: set<(Host, (Host, nat))>)
  {
    set n, k | n in s.nodes && k in s.sent && s.sent[k].kind.Ruk? && !Accepted(s, n, k) :: (n, k)
  }

  /** The price of a message that asks for no answer: its own copy and N copies from each of N publishers. */
  function Price(n: nat): (r: nat)
  {
    1 + n * n
  }

  /** The price of any message: each of N nodes may also answer it. */
  function FullPrice(n: nat): (r: nat)
  {
    Price(n) + n * Price(n)
  }

  function Weigh(n: nat, copies: nat, slots: nat, requests: nat): (r: nat)
    ensures r >= copies
  {
    copies + n * slots + Price(n) * requests
  }

  ghost function Potential(s: System): (r: nat)
  {
    Weigh(|s.nodes|, |s.flight|, |Slots(s)|, |Requests(s)|)
  }

  // ---------------------------------------------------------------- sizes

  lemma {:induction false} PairsSize(hosts: set<Host>, k: (Host, nat))
    ensures |set n | n in hosts :: (n, k)| == |hosts|
    decreases |hosts|
  {
    var pairs := set n | n in hosts :: (n, k);
    if hosts != {} {
      var h :| h in hosts;
      PairsSize(hosts - {h}, k);
      assert pairs == (set n | n in hosts - {h} :: (n, k)) + {(h, k)};
    }
  }

  lemma SubsetSize<T>(a: set<T>, b: set<T>)
    requires a <= b
    ensures |a| <= |b|
  {
    assert b == a + (b - a);
  }

  /** Extending a set by pairs of one message adds at most N elements. */
  lemma GrowthSize(a: set<(Host, (Host, nat))>, b: set<(Host, (Host, nat))>, hosts: set<Host>, k: (Host, nat))
    requires forall x | x in b :: x in a || (x.0 in hosts && x.1 == k)
    ensures |b| <= |a| + |hosts|
  {
    var new_ := set n | n in hosts :: (n, k);
    PairsSize(hosts, k);
    SubsetSize(b, a + new_);
  }

  lemma {:induction false} NetCopiesSize(subs: set<Host>, m: Msg)
    ensures |set n | n in subs :: Net(n, m)| == |subs|
    decreases |subs|
  {
    var copies := set n | n in subs :: Net(n, m);
    if subs != {} {
      var h :| h in subs;
      NetCopiesSize(subs - {h}, m);
      assert copies == (set n | n in subs - {h} :: Net(n, m)) + {Net(h, m)};
    }
  }

  lemma FanoutSize(s: System, p: Host, m: Msg)
    requires p in s.nodes
    ensures |Fanout(s, p, m)| <= |s.nodes|
  {
    NetCopiesSize(Subscribers(s, p), m);
    SubsetSize(Subscribers(s, p) + {p}, s.nodes.Keys);
    assert Subscribers(s, p) !! {p};
  }

  lemma Times(n: nat, a: nat, b: nat)
    requires a <= b
    ensures n * a <= n * b
  {
  }

  /** The arithmetic of a step that sends nothing, of a publication, of an answer and of a new message. */
  lemma WeighShrinks(n: nat, c: nat, c': nat, p: nat, p': nat, q: nat, q': nat)
    requires p' <= p && q' <= q
    ensures Weigh(n, c', p', q') - c' <= Weigh(n, c, p, q) - c
    ensures c' + 1 <= c + n && p' + 1 <= p ==> Weigh(n, c', p', q') < Weigh(n, c, p, q)
    ensures c' + 1 <= c && q' + 1 <= q ==> Weigh(n, c', p', q') + Price(n) < Weigh(n, c, p, q)
  {
    Times(n, p', p);
    Times(Price(n), q', q);
    if p' + 1 <= p {
      Times(n, p' + 1, p);
    }
    if q' + 1 <= q {
      Times(Price(n), q' + 1, q);
    }
  }

  lemma WeighGrows(n: nat, c: nat, p: nat, p': nat, q: nat, q': nat)
    requires p' <= p + n && q' <= q + n
    ensures Weigh(n, c + 1, p', q') <= Weigh(n, c, p, q) + FullPrice(n)
    ensures q' <= q ==> Weigh(n, c + 1, p', q') <= Weigh(n, c, p, q) + Price(n)
  {
    Times(n, p', p + n);
    Times(Price(n), q', q + n);
    if q' <= q {
      Times(Price(n), q', q);
    }
    assert n * (p + n) == n * p + n * n;
    assert Price(n) * (q + n) == Price(n) * q + n * Price(n);
  }

  // ---------------------------------------------------------------- how steps move the potential

  lemma SlotsShrink(s: System, s': System)
    requires Extends(s, s') && s'.sent == s.sent
    ensures Slots(s') <= Slots(s)
  {
    forall x | x in Slots(s') ensures x in Slots(s) {
      assert Seen(s.nodes[x.0], x.1.0) <= Seen(s'.nodes[x.0], x.1.0);
    }
  }

  lemma RequestsShrink(s: System, s': System)
    requires s'.nodes.Keys == s.nodes.Keys && s'.sent == s.sent && s.got <= s'.got
    ensures Requests(s') <= Requests(s)
  {
    forall n, k | Accepted(s, n, k) ensures Accepted(s', n, k) {
      var i :| 0 <= i < |s.got| && s.got[i].node == n && (s.got[i].host, s.got[i].id) == k;
      assert s'.got[i] == s.got[i];
    }
  }

  /** Without a new message the potential follows the flight. */
  lemma PotentialShrinks(s: System, s': System)
    requires Extends(s, s') && s'.sent == s.sent && s.got <= s'.got
    ensures |s'.nodes| == |s.nodes|
    ensures |Slots(s')| <= |Slots(s)| && |Requests(s')| <= |Requests(s)|
    ensures Potential(s') - |s'.flight| <= Potential(s) - |s.flight|
  {
    SlotsShrink(s, s');
    RequestsShrink(s, s');
    SubsetSize(Slots(s'), Slots(s));
    SubsetSize(Requests(s'), Requests(s));
    assert |s'.nodes.Keys| == |s.nodes.Keys|;
    WeighShrinks(|s.nodes|, |s.flight|, |s'.flight|, |Slots(s)|, |Slots(s')|, |Requests(s)|, |Requests(s')|);
  }

  lemma EmitSizes(s: System, m: Msg, text: Bytes)
    requires (m.host, m.id) !in s.sent
    ensures var s' := Emit(s, Some(m), text);
            && |Slots(s')| <= |Slots(s)| + |s.nodes|
            && |Requests(s')| <= |Requests(s)| + |s.nodes|
            && (!m.kind.Ruk? ==> |Requests(s')| <= |Requests(s)|)
  {
    var s' := Emit(s, Some(m), text);
    var k := (m.host, m.id);
    forall n, x ensures Accepted(s', n, x) == Accepted(s, n, x) {
    }
    GrowthSize(Slots(s), Slots(s'), s.nodes.Keys, k);
    GrowthSize(Requests(s), Requests(s'), s.nodes.Keys, k);
    if !m.kind.Ruk? {
      SubsetSize(Requests(s'), Requests(s));
    }
  }

  /** A new message costs its copy, a slot per node and, if it is a key request, an answer per node. */
  lemma EmitPotential(s: System, m: Msg, text: Bytes)
    requires (m.host, m.id) !in s.sent
    ensures var s' := Emit(s, Some(m), text);
            && Potential(s') <= Potential(s) + FullPrice(|s.nodes|)
            && (!m.kind.Ruk? ==> Potential(s') <= Potential(s) + Price(|s.nodes|))
  {
    var s' := Emit(s, Some(m), text);
    assert |s'.flight| == |s.flight| + 1;
    EmitSizes(s, m, text);
    WeighGrows(|s.nodes|, |s.flight|, |Slots(s)|, |Slots(s')|, |Requests(s)|, |Requests(s')|);
  }

  lemma SendPotential(s: System, n: Node, text: Bytes, ttl: int, kind: Kind, retired: Option<Key>, rec: Rec)
    requires Inv(s) && n.name in s.nodes
    requires n.fwdCache == s.nodes[n.name].fwdCache && n.localId == s.nodes[n.name].localId
    requires EntriesOk(s, n)
    ensures var s' := SendStep(s, SendFlooding(n, text, ttl, kind, retired, rec), text);
            Potential(s') <= Potential(s) + FullPrice(|s.nodes|)
  {
    SendFloodingFacts(n, text, ttl, kind, retired, rec);
    var r := SendFlooding(n, text, ttl, kind, retired, rec);
    var s1 := SetNode(s, r.node);
    QuietStep(s, s1, r.node);
    PotentialShrinks(s, s1);
    if r.out.Some? {
      assert (n.name, n.localId) !in s.sent;
      EmitPotential(s1, r.out.value, text);
    }
  }

  lemma SlotUsed(s: System, s': System, n: Host, k: (Host, nat))
    requires Extends(s, s') && s'.sent == s.sent && n in s.nodes && k in s.sent
    requires Seen(s.nodes[n], k.0) < k.1 <= Seen(s'.nodes[n], k.0)
    ensures |Slots(s')| + 1 <= |Slots(s)|
  {
    SlotsShrink(s, s');
    assert (n, k) in Slots(s) && (n, k) !in Slots(s');
    SubsetSize(Slots(s') + {(n, k)}, Slots(s));
  }

  /** Publishing uses up the slot of the publisher, which pays for the copies it sends out. */
  lemma PublishPotential(s: System, c: Copy, r: Forwarding)
    requires Inv(s) && c in s.flight && !c.Rx? && c.dst in s.nodes
    requires Publishes(s.nodes[c.dst], c.m, r)
    ensures Potential(AfterForward(s, c, r)) < Potential(s)
  {
    var s' := AfterForward(s, c, r);
    PublishCopies(s, c, r);
    assert NodeOk(s, c.dst);
    PotentialShrinks(s, s');
    FanoutSize(s, c.dst, r.out.value);
    assert |s'.flight| + 1 <= |s.flight| + |s.nodes|;
    SlotUsed(s, s', c.dst, (c.m.host, c.m.id));
    WeighShrinks(|s.nodes|, |s.flight|, |s'.flight|, |Slots(s)|, |Slots(s')|, |Requests(s)|, |Requests(s')|);
  }

  lemma ForwardPotential(garble: Garble, s: System, c: Copy)
    requires Inv(s) && c in s.flight && !c.Rx? && c.dst in s.nodes
    ensures Potential(FwdStep(garble, s, c)) < Potential(s)
  {
    var r := Forward(garble, s.nodes[c.dst], c.m);
    FwdStepInv(garble, s, c);
    assert NodeOk(s, c.dst) && CopyOk(s, c);
    if r.out.Some? {
      ForwardPublishes(garble, s.nodes[c.dst], c.m);
      PublishPotential(s, c, r);
    } else {
      ForwardQuiet(garble, s.nodes[c.dst], c.m);
      PotentialShrinks(s, AfterForward(s, c, r));
    }
  }

  lemma RequestUsed(s: System, s': System, n: Host, k: (Host, nat))
    requires s'.nodes.Keys == s.nodes.Keys && s'.sent == s.sent && s.got <= s'.got
    requires n in s.nodes && k in s.sent && s.sent[k].kind.Ruk? && !Accepted(s, n, k) && Accepted(s', n, k)
    ensures |Requests(s')| + 1 <= |Requests(s)|
  {
    RequestsShrink(s, s');
    assert (n, k) in Requests(s) && (n, k) !in Requests(s');
    SubsetSize(Requests(s') + {(n, k)}, Requests(s));
  }

  /** Answering a key request uses up the request, which pays for the answer. */
  lemma AnswerPotential(s: System, s1: System, c: Copy)
    requires RxOnce(s) && c in s.flight && c.Rx? && c.dst in s.nodes && Stamped(s, c.m) && c.m.kind.Ruk?
    requires Extends(s, s1) && s1.sent == s.sent && s1.flight == s.flight - multiset{c}
    requires |s1.got| == |s.got| + 1 && s.got <= s1.got
    requires s1.got[|s.got|].node == c.dst && s1.got[|s.got|].host == c.m.host && s1.got[|s.got|].id == c.m.id
    ensures Potential(s1) + Price(|s.nodes|) < Potential(s)
  {
    var k := (c.m.host, c.m.id);
    PotentialShrinks(s, s1);
    assert Accepted(s1, c.dst, k);
    RequestUsed(s, s1, c.dst, k);
    assert |s1.flight| + 1 == |s.flight|;
    WeighShrinks(|s.nodes|, |s.flight|, |s1.flight|, |Slots(s)|, |Slots(s1)|, |Requests(s)|, |Requests(s1)|);
  }

  lemma ReceivePotential(s: System, c: Copy, r: Receiving)
    requires Inv(s) && c in s.flight && c.Rx? && c.dst in s.nodes && Receives(s.nodes[c.dst], c.m, r)
    ensures Potential(AfterReceive(s, c, r)) < Potential(s)
  {
    assert NodeOk(s, c.dst) && CopyOk(s, c);
    var s1 := AfterReceive(s, c, r.(reply := None));
    if r.accepted.Some? {
      AcceptInv(s, s1, c, r);
    } else {
      QuietStep(s, s1, r.node);
    }
    PotentialShrinks(s, s1);
    if r.reply.Some? {
      AnswerPotential(s, s1, c);
      assert (c.dst, s.nodes[c.dst].localId) !in s.sent;
      EmitPotential(s1, r.reply.value, r.replyText);
    }
  }

  // ---------------------------------------------------------------- every run

  predicate IsSend(a: Action)
  {
    a.SendAll? || a.SendTo? || a.Rotate?
  }

  /** Sends that the applications and the key timer ask for. */
  function Sends(run: seq<Action>): (r: nat)
  {
    if run == [] then 0
    else Sends(run[..|run| - 1]) + (if IsSend(run[|run| - 1]) then 1 else 0)
  }

  predicate Consumes(s: System, a: Action)
  {
    (a.Fwd? || a.Rcv? || a.Lose?) && Enabled(s, a)
  }

  /** Copies that the run handles or loses. */
  function Consumed(garble: Garble, s: System, run: seq<Action>): (r: nat)
  {
    if run == [] then 0
    else Consumed(garble, s, run[..|run| - 1])
         + (if Consumes(Run(garble, s, run[..|run| - 1]), run[|run| - 1]) then 1 else 0)
  }

  lemma ConsumePotential(garble: Garble, s: System, a: Action)
    requires Inv(s) && Consumes(s, a)
    ensures Potential(Step(garble, s, a)) < Potential(s)
  {
    if a.Fwd? {
      ForwardPotential(garble, s, a.c);
    } else if a.Rcv? {
      ReceiveFacts(garble, s.nodes[a.c.dst], a.c.m, a.newKey);
      ReceivePotential(s, a.c, Receive(garble, s.nodes[a.c.dst], a.c.m, a.newKey));
    } else {
      LoseInv(s, a.c);
      PotentialShrinks(s, Step(garble, s, a));
    }
  }

  lemma SendActionPotential(garble: Garble, s: System, a: Action)
    requires Inv(s) && IsSend(a)
    ensures Potential(Step(garble, s, a)) <= Potential(s) + FullPrice(|s.nodes|)
  {
    if Enabled(s, a) {
      assert NodeOk(s, a.n);
      var n := s.nodes[a.n];
      match a {
        case SendAll(_, text, ttl) => SendPotential(s, n, Text(text), ttl + 2, Data, None, Broadcast);
        case SendTo(_, to, text) =>
          if to in n.nbrs && n.nbrs[to].unicastSendKey.Some? {
            SendPotential(s, n, Text(text), UNICAST_TTL, Data, None, To(to));
          } else if to in n.nbrs {
            SendPotential(s, n, Text(""), CTRL_TTL, Ruk, None, To(to));
          }
        case Rotate(_, newKey, freq, ssid) =>
          var n1 := Joined(n.(key := newKey), SelfScan(n.name, newKey));
          SendPotential(s, n1, Text(KcmPayload(freq, ssid, n.name)), CTRL_TTL, Kcm, Some(n.key), Broadcast);
      }
    }
  }

  lemma NeighborPotential(garble: Garble, s: System, a: Action)
    requires Inv(s) && (a.Join? || a.Refresh? || a.Leave?)
    ensures Potential(Step(garble, s, a)) <= Potential(s)
  {
    if Enabled(s, a) {
      NeighborActionInv(garble, s, a);
      PotentialShrinks(s, Step(garble, s, a));
    }
  }

  lemma StepPotential(garble: Garble, s: System, a: Action)
    requires Inv(s)
    ensures Potential(Step(garble, s, a)) + (if Consumes(s, a) then 1 else 0)
            <= Potential(s) + (if IsSend(a) then FullPrice(|s.nodes|) else 0)
  {
    if Consumes(s, a) {
      ConsumePotential(garble, s, a);
    } else if IsSend(a) {
      SendActionPotential(garble, s, a);
    } else if a.Join? || a.Refresh? || a.Leave? {
      NeighborPotential(garble, s, a);
    }
  }

  /**
    Drain: with N nodes and S sends, no run handles more than S * FullPrice(N) copies, whatever the
    interleaving; what is still in flight at the end is covered by the same bound.
   */
  lemma FloodDrains(garble: Garble, keys: map<Host, Key>, radio: set<(Host, Host)>, run: seq<Action>)
    ensures var s := Run(garble, Start(keys, radio), run);
            Consumed(garble, Start(keys, radio), run) + |s.flight| <= Sends(run) * FullPrice(|keys|)
  {
    PotentialBound(garble, keys, radio, run);
    assert |Run(garble, Start(keys, radio), run).flight| <= Potential(Run(garble, Start(keys, radio), run));
  }

  lemma StartPotential(keys: map<Host, Key>, radio: set<(Host, Host)>)
    ensures |Start(keys, radio).nodes| == |keys| && Potential(Start(keys, radio)) == 0
  {
    var s := Start(keys, radio);
    assert s.nodes.Keys == keys.Keys;
    assert Slots(s) == {} && Requests(s) == {};
  }

  /** What a number of sends pays for. */
  function Budget(sends: nat, price: nat): (b: nat)
  {
    sends * price
  }

  lemma BudgetGrows(sends: nat, price: nat)
    ensures Budget(sends + 1, price) == Budget(sends, price) + price
  {
  }

  lemma {:induction false} PotentialBound(garble: Garble, keys: map<Host, Key>, radio: set<(Host, Host)>,
                                          run: seq<Action>)
    ensures var s := Run(garble, Start(keys, radio), run);
            && |s.nodes| == |keys|
            && Consumed(garble, Start(keys, radio), run) + Potential(s) <= Budget(Sends(run), FullPrice(|keys|))
  {
    var s0 := Start(keys, radio);
    if run == [] {
      StartPotential(keys, radio);
    } else {
      var init := run[..|run| - 1];
      PotentialBound(garble, keys, radio, init);
      RunInv(garble, keys, radio, init);
      BoundStep(garble, Run(garble, s0, init), run[|run| - 1], Consumed(garble, s0, init), Sends(init), FullPrice(|keys|));
    }
  }

  lemma BoundStep(garble: Garble, s: System, a: Action, consumed: nat, sends: nat, price: nat)
    requires Inv(s) && price == FullPrice(|s.nodes|) && consumed + Potential(s) <= Budget(sends, price)
    ensures var s' := Step(garble, s, a);
            && |s'.nodes| == |s.nodes|
            && consumed + (if Consumes(s, a) then 1 else 0) + Potential(s')
               <= Budget(sends + (if IsSend(a) then 1 else 0), price)
  {
    StepInv(garble, s, a);
    StepPotential(garble, s, a);
    BudgetGrows(sends, price);
    assert |Step(garble, s, a).nodes.Keys| == |s.nodes.Keys|;
  }
}
