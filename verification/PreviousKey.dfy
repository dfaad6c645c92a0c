/**
  A neighbour's previous key: for as long as an entry holds it, copies that the neighbour sealed before it changed
  its key still get through.
 */
module PreviousKey {
  import opened Agent
  import opened Network
  import opened FloodSafety
  import opened KeyAgreement

  // ---------------------------------------------------------------- one message

  /** A copy from another node that is new here, has TTL left, is meant for everyone or for n, and names l. */
  predicate Arrives(n: Node, m: Msg, l: Host)
  {
    && m.host != n.name && m.ttl >= 2 && (m.rec == Broadcast || m.rec == To(n.name))
    && (m.host in n.fwdCache ==> n.fwdCache[m.host] < m.id)
    && m.lasthop == Via(l) && l in n.nbrs && l != n.name
  }

  predicate Knows(e: Neighbor, key: Key)
  {
    e.encryptionKey == key || e.oldKey == Some(key)
  }

  /** What n publishes of m: the same signed bytes under its own key and signature, one hop further. */
  predicate PassedOn(n: Node, m: Msg, plain: Bytes, out: Msg)
  {
    out == Msg(m.host, Via(n.name), m.id, m.rec, m.ttl - 1, m.kind, Sealed(n.key, plain), Sig(n.name, plain))
  }

  /** The success is counted and the message remembered; nothing else changes. */
  ghost predicate Counted(n: Node, r: Node, m: Msg, l: Host)
    requires l in n.nbrs
  {
    && r == n.(fwdCache := n.fwdCache[m.host := m.id], nbrs := r.nbrs) && l in r.nbrs
    && r.nbrs == n.nbrs[l := r.nbrs[l]]
    && r.nbrs[l] == n.nbrs[l].(lostMessages := 0, rxStatsSuccess := n.nbrs[l].rxStatsSuccess + 1)
  }

  /** Sealed with either key of its last hop's entry and signed by that hop, a copy is published. */
  lemma EitherKeyOpens(garble: Garble, n: Node, m: Msg, l: Host, key: Key, plain: Bytes)
    requires Arrives(n, m, l) && Knows(n.nbrs[l], key) && m.msg == Sealed(key, plain)
    requires n.nbrs[l].pubKey == Some(m.sig.signer) && m.sig.over == plain
    ensures var r := Forward(garble, n, m);
            r.verdict == Published && r.out.Some? && PassedOn(n, m, plain, r.out.value) && Counted(n, r.node, m, l)
  {
  }

  /** And only then, unless a wrong key happens to give the bytes that were signed. */
  lemma OpensExactly(garble: Garble, n: Node, m: Msg, l: Host)
    requires Arrives(n, m, l)
    ensures Forward(garble, n, m).out.Some?
       <==> && n.nbrs[l].pubKey == Some(m.sig.signer)
            && exists key :: Knows(n.nbrs[l], key) && Decrypt(garble, key, m.msg) == m.sig.over
  {
    assert Knows(n.nbrs[l], n.nbrs[l].encryptionKey);
    assert n.nbrs[l].oldKey.Some? ==> Knows(n.nbrs[l], n.nbrs[l].oldKey.value);
  }

  /** Sealed with any other key, it counts as a loss, unless one of the two keys garbles it into what was signed. */
  lemma OtherKeyIsLost(garble: Garble, n: Node, m: Msg, l: Host, key: Key, plain: Bytes)
    requires Arrives(n, m, l) && m.msg == Sealed(key, plain) && !Knows(n.nbrs[l], key)
    requires garble(n.nbrs[l].encryptionKey, m.msg) != m.sig.over
    requires n.nbrs[l].oldKey.Some? ==> garble(n.nbrs[l].oldKey.value, m.msg) != m.sig.over
    ensures var r := Forward(garble, n, m);
            && r.out.None? && r.verdict in {Lost, Rescan, Removed} && r.node.fwdCache == n.fwdCache
            && (l in r.node.nbrs ==> r.node.nbrs[l].rxStatsLost == n.nbrs[l].rxStatsLost + 1)
  {
  }

  /** After a rescan with any key, a copy sealed with the key before it is still published. */
  lemma RescanKeepsOpening(garble: Garble, n: Node, scan: Scan, m: Msg, plain: Bytes)
    requires Arrives(n, m, scan.host) && m.msg == Sealed(n.nbrs[scan.host].encryptionKey, plain)
    requires n.nbrs[scan.host].pubKey == Some(m.sig.signer) && m.sig.over == plain
    requires scan.pubKey == n.nbrs[scan.host].pubKey
    ensures var r := Forward(garble, Rescanned(n, scan), m);
            r.out.Some? && PassedOn(n, m, plain, r.out.value)
  {
    EitherKeyOpens(garble, Rescanned(n, scan), m, scan.host, n.nbrs[scan.host].encryptionKey, plain);
  }

  // ---------------------------------------------------------------- runs

  /** n lists p, and the entry has the key. */
  predicate Holds(s: System, n: Host, p: Host, key: Key)
  {
    n in s.nodes && p in s.nodes[n].nbrs && Knows(s.nodes[n].nbrs[p], key)
  }

  predicate Current(s: System, n: Host, p: Host, key: Key)
  {
    n in s.nodes && p in s.nodes[n].nbrs && s.nodes[n].nbrs[p].encryptionKey == key
  }

  /** n rescans p and finds another key. */
  predicate NewKeyFound(s: System, a: Action, n: Host, p: Host)
  {
    a.Refresh? && a.n == n && a.scan.host == p && Enabled(s, a) && !Current(s, n, p, a.scan.key)
  }

  /** How often that happens in a run. */
  function NewKeys(garble: Garble, s: System, run: seq<Action>, n: Host, p: Host): (k: nat)
  {
    if run == [] then 0
    else
      var init := run[..|run| - 1];
      NewKeys(garble, s, init, n, p) + (if NewKeyFound(Run(garble, s, init), run[|run| - 1], n, p) then 1 else 0)
  }

  /** n does not take p for a new neighbour in the run. */
  predicate NoJoin(run: seq<Action>, n: Host, p: Host)
  {
    forall i | 0 <= i < |run| :: !(run[i].Join? && run[i].n == n && run[i].scan.host == p)
  }

  /** What a step does to the keys of an entry that stays. */
  predicate KeyStep(s: System, s': System, a: Action, n: Host, p: Host)
  {
    n in s.nodes && p in s.nodes[n].nbrs && n in s'.nodes && p in s'.nodes[n].nbrs ==>
      var e, e' := s.nodes[n].nbrs[p], s'.nodes[n].nbrs[p];
      if NewKeyFound(s, a, n, p) then e'.oldKey == Some(e.encryptionKey)
      else e'.encryptionKey == e.encryptionKey && e'.oldKey == e.oldKey
  }

  /** Entries that stay keep both keys. */
  ghost predicate SameKeys(n: Node, n': Node)
  {
    n'.name == n.name && forall p | p in n.nbrs && p in n'.nbrs ::
      n'.nbrs[p].encryptionKey == n.nbrs[p].encryptionKey && n'.nbrs[p].oldKey == n.nbrs[p].oldKey
  }

  lemma ForwardKeepsKeys(garble: Garble, n: Node, m: Msg)
    ensures SameKeys(n, Forward(garble, n, m).node)
  {
  }

  lemma KcmKeepsKeys(n: Node, m: Msg, plain: Bytes)
    ensures SameKeys(n, HandleKcm(n, m, plain).node)
  {
  }

  lemma RukKeepsKeys(n: Node, m: Msg, plain: Bytes, newKey: Key)
    ensures SameKeys(n, HandleRuk(n, m, plain, newKey).node)
  {
  }

  lemma NukKeepsKeys(n: Node, m: Msg, plain: Bytes)
    ensures SameKeys(n, HandleNuk(n, m, plain).node)
  {
  }

  lemma ReceiveKeepsKeys(garble: Garble, n: Node, m: Msg, newKey: Key)
    ensures SameKeys(n, Receive(garble, n, m, newKey).node)
  {
    var body := CheckedOpen(garble, n.key, Some(n.name), m);
    if body.Some? && Unwrap(garble, n, m, body.value).Plain? {
      var plain := Unwrap(garble, n, m, body.value).bytes;
      KcmKeepsKeys(n, m, plain);
      RukKeepsKeys(n, m, plain, newKey);
      NukKeepsKeys(n, m, plain);
    }
  }

  /** A step that replaces one node and keeps its keys. */
  lemma ReplacedKeeps(s: System, s': System, a: Action, r: Node, n: Host, p: Host)
    requires r.name in s.nodes && s'.nodes == s.nodes[r.name := r] && SameKeys(s.nodes[r.name], r)
    requires !NewKeyFound(s, a, n, p)
    ensures KeyStep(s, s', a, n, p)
  {
  }

  lemma HandlerKeyStep(garble: Garble, s: System, a: Action, n: Host, p: Host)
    requires Inv(s) && Enabled(s, a) && (a.Fwd? || a.Rcv?)
    ensures KeyStep(s, Step(garble, s, a), a, n, p)
  {
    assert NodeOk(s, a.c.dst);
    if a.Fwd? {
      var r := Forward(garble, s.nodes[a.c.dst], a.c.m);
      ForwardKeepsKeys(garble, s.nodes[a.c.dst], a.c.m);
      ReplacedKeeps(s, AfterForward(s, a.c, r), a, r.node, n, p);
    } else {
      var r := Receive(garble, s.nodes[a.c.dst], a.c.m, a.newKey);
      ReceiveKeepsKeys(garble, s.nodes[a.c.dst], a.c.m, a.newKey);
      ReplacedKeeps(s, AfterReceive(s, a.c, r), a, r.node, n, p);
    }
  }

  /** A send from the state q leaves the entries alone. */
  lemma EmitKeyStep(s: System, a: Action, q: Node, text: Bytes, ttl: int, kind: Kind, rec: Rec, n: Host, p: Host)
    requires q.name in s.nodes && s.nodes[q.name] == q && !a.Refresh?
    ensures KeyStep(s, SendStep(s, SendFlooding(q, text, ttl, kind, None, rec), text), a, n, p)
  {
  }

  lemma SendKeyStep(garble: Garble, s: System, a: Action, n: Host, p: Host)
    requires Inv(s) && Enabled(s, a) && (a.SendAll? || a.SendTo?)
    ensures KeyStep(s, Step(garble, s, a), a, n, p)
  {
    assert NodeOk(s, a.n);
    var q := s.nodes[a.n];
    if a.SendAll? {
      EmitKeyStep(s, a, q, Text(a.text), a.ttl + 2, Data, Broadcast, n, p);
    } else if a.to in q.nbrs && q.nbrs[a.to].unicastSendKey.Some? {
      EmitKeyStep(s, a, q, Text(a.text), UNICAST_TTL, Data, To(a.to), n, p);
    } else {
      EmitKeyStep(s, a, q, Text(""), CTRL_TTL, Ruk, To(a.to), n, p);
    }
  }

  lemma RotateKeyStep(garble: Garble, s: System, a: Action, n: Host, p: Host)
    requires Inv(s) && Enabled(s, a) && a.Rotate? && p != n
    ensures KeyStep(s, Step(garble, s, a), a, n, p)
  {
    assert NodeOk(s, a.n);
  }

  lemma NeighborKeyStep(garble: Garble, s: System, a: Action, n: Host, p: Host)
    requires Inv(s) && Enabled(s, a) && (a.Join? || a.Refresh? || a.Leave?)
    requires a.Join? ==> !(a.n == n && a.scan.host == p)
    ensures KeyStep(s, Step(garble, s, a), a, n, p)
  {
    assert NodeOk(s, a.n);
  }

  lemma KeysStep(garble: Garble, s: System, a: Action, n: Host, p: Host)
    requires Inv(s) && p != n && (a.Join? ==> !(a.n == n && a.scan.host == p))
    ensures KeyStep(s, Step(garble, s, a), a, n, p)
  {
    if Enabled(s, a) {
      if a.Fwd? || a.Rcv? {
        HandlerKeyStep(garble, s, a, n, p);
      } else if a.SendAll? || a.SendTo? {
        SendKeyStep(garble, s, a, n, p);
      } else if a.Rotate? {
        RotateKeyStep(garble, s, a, n, p);
      } else if !a.Lose? {
        NeighborKeyStep(garble, s, a, n, p);
      }
    }
  }

  /** The key is the entry's own until n finds the first new one, and its previous key until n finds the second. */
  ghost predicate Grace(s: System, n: Host, p: Host, key: Key, found: nat)
  {
    && n in s.nodes && p in s.nodes[n].nbrs
    && (found == 0 ==> s.nodes[n].nbrs[p].encryptionKey == key)
    && (found == 1 ==> s.nodes[n].nbrs[p].oldKey == Some(key))
  }

  lemma {:induction false} GraceRun(garble: Garble, s: System, run: seq<Action>, n: Host, p: Host, key: Key)
    requires Inv(s) && p != n && Current(s, n, p, key) && NoJoin(run, n, p) && NeverDrops(garble, s, run, n, p)
    ensures Inv(Run(garble, s, run)) && Grace(Run(garble, s, run), n, p, key, NewKeys(garble, s, run, n, p))
  {
    if run != [] {
      var init, a := run[..|run| - 1], run[|run| - 1];
      assert forall i | 0 <= i < |init| :: init[i] == run[i];
      GraceRun(garble, s, init, n, p, key);
      StepInv(garble, Run(garble, s, init), a);
      KeysStep(garble, Run(garble, s, init), a, n, p);
    }
  }

  /**
    In any run: p publishes a message while n has p's current key.  Whatever happens then, changes of p's key
    included, as long as n drops p not and finds at most one new key of p by rescans, the copy for n is published
    by n when it arrives there in time and is no duplicate, with the bytes that p signed.
   */
  lemma EarlierCopiesGetThrough(garble: Garble, keys: map<Host, Key>, radio: set<(Host, Host)>, before: seq<Action>,
                                c: Copy, after: seq<Action>, n: Host, s0: System, s1: System, s2: System, m: Msg)
    requires s0 == Run(garble, Start(keys, radio), before) && Enabled(s0, Fwd(c)) && s1 == Step(garble, s0, Fwd(c))
    requires s2 == Run(garble, s1, after)
    requires Forward(garble, s0.nodes[c.dst], c.m).out == Some(m) && c.m.lasthop.Via?
    requires n in Subscribers(s0, c.dst) && Current(s0, n, c.dst, s0.nodes[c.dst].key)
    requires NoJoin(after, n, c.dst) && NeverDrops(garble, s1, after, n, c.dst)
    requires NewKeys(garble, s1, after, n, c.dst) <= 1
    requires n in s2.nodes && Seen(s2.nodes[n], m.host) < m.id
    requires m.host != n && m.ttl >= 2 && (m.rec == Broadcast || m.rec == To(n))
    ensures var r := Forward(garble, s2.nodes[n], m);
            r.verdict == Published && r.out.Some? && PassedOn(s2.nodes[n], m, m.sig.over, r.out.value)
  {
    var p := c.dst;
    RunInv(garble, keys, radio, before);
    assert NodeOk(s0, p);
    SealedByPublisher(garble, s0.nodes[p], c.m);
    StillHeld(garble, s0, c, s1, after, n, s0.nodes[p].key);
    assert NodeOk(s2, n);
    EitherKeyOpens(garble, s2.nodes[n], m, p, s0.nodes[p].key, m.sig.over);
  }

  lemma StillHeld(garble: Garble, s0: System, c: Copy, s1: System, after: seq<Action>, n: Host, key: Key)
    requires Inv(s0) && Enabled(s0, Fwd(c)) && s1 == Step(garble, s0, Fwd(c))
    requires n in Subscribers(s0, c.dst) && Current(s0, n, c.dst, key)
    requires NoJoin(after, n, c.dst) && NeverDrops(garble, s1, after, n, c.dst)
    requires NewKeys(garble, s1, after, n, c.dst) <= 1
    ensures Inv(Run(garble, s1, after)) && Holds(Run(garble, s1, after), n, c.dst, key)
  {
    var p := c.dst;
    assert NodeOk(s0, p);
    StepInv(garble, s0, Fwd(c));
    KeysStep(garble, s0, Fwd(c), n, p);
    OtherNodeKept(garble, s0, c, n);
    GraceRun(garble, s1, after, n, p, key);
  }

  lemma SealedByPublisher(garble: Garble, p: Node, m: Msg)
    requires Forward(garble, p, m).out.Some? && m.lasthop.Via?
    ensures var out := Forward(garble, p, m).out.value;
            out.lasthop == Via(p.name) && out.sig == Sig(p.name, out.sig.over) && out.msg == Sealed(p.key, out.sig.over)
  {
  }

  lemma OtherNodeKept(garble: Garble, s: System, c: Copy, n: Host)
    requires c.dst in s.nodes && s.nodes[c.dst].name == c.dst && n in s.nodes && n != c.dst
    ensures n in FwdStep(garble, s, c).nodes && FwdStep(garble, s, c).nodes[n] == s.nodes[n]
  {
    ForwardKeepsKeys(garble, s.nodes[c.dst], c.m);
  }
}
