/**
  A run of four agents in which the order of the copies keeps a broadcast from a node two links away: b takes the
  copy relayed by a before the one it hears from h itself, publishes it with TTL 1 and drops the better copy as
  a duplicate, so c, which hears b only, never accepts.
 */
module FloodOrderRun {
  import opened Agent
  import opened Network
  import opened FloodSafety
  import opened HopFlood
  import opened FloodComplete
  import opened FloodAnyOrder

  datatype Case = Case(h: Host, a: Host, b: Host, c: Host, keys: map<Host, Key>, text: string)

  predicate CaseOk(x: Case)
  {
    && x.h != x.a && x.h != x.b && x.h != x.c && x.a != x.b && x.a != x.c && x.b != x.c
    && x.keys.Keys == {x.h, x.a, x.b, x.c}
  }

  function Radio(x: Case): (r: set<(Host, Host)>)
  {
    {(x.a, x.h), (x.b, x.h), (x.b, x.a), (x.c, x.b)}
  }

  /** Whom a node hears once everyone has joined. */
  function Heard(x: Case, n: Host): (r: set<Host>)
    requires CaseOk(x)
    ensures r <= x.keys.Keys && n !in r
  {
    if n == x.a then {x.h} else if n == x.b then {x.h, x.a} else if n == x.c then {x.b} else {}
  }

  function One(c: Copy): (m: multiset<Copy>)
  {
    multiset{c}
  }

  /** The broadcast as l publishes it. */
  function Cast(x: Case, l: Host, ttl: int): (m: Msg)
    requires l in x.keys
  {
    Msg(x.h, Via(l), 1, Broadcast, ttl, Data, Sealed(x.keys[l], Text(x.text)), Sig(l, Text(x.text)))
  }

  // ---------------------------------------------------------------- the state of the nodes

  /** q is agent n, lists exactly those it hears with their keys, and has published the broadcast or not. */
  predicate AgentUp(x: Case, q: Node, n: Host, heard: set<Host>, published: bool)
    requires n in x.keys && heard <= x.keys.Keys
  {
    && q.name == n && q.key == x.keys[n] && q.rxAlive && q.nbrs.Keys == heard + {n}
    && Seen(q, x.h) == (if published then 1 else 0) && q.nbrs[n].encryptionKey == x.keys[n]
    && forall p | p in heard :: q.nbrs[p].encryptionKey == x.keys[p] && q.nbrs[p].pubKey == Some(p)
  }

  predicate NodeUp(x: Case, s: System, n: Host, pub: set<Host>)
    requires CaseOk(x)
  {
    n in x.keys ==> n in s.nodes && AgentUp(x, s.nodes[n], n, Heard(x, n), n in pub)
  }

  /** All four are up; pub have published, lid is the next id of h, and c has accepted nothing. */
  ghost predicate Up(x: Case, s: System, pub: set<Host>, lid: nat)
    requires CaseOk(x)
  {
    && s.nodes.Keys == x.keys.Keys && s.radio == Radio(x) && s.nodes[x.h].localId == lid
    && (forall n {:trigger NodeUp(x, s, n, pub)} :: NodeUp(x, s, n, pub))
    && forall i | 0 <= i < |s.got| :: s.got[i].node != x.c
  }

  /** One agent changes. */
  lemma UpAfter(x: Case, s: System, s': System, n: Host, pub: set<Host>, pub': set<Host>, lid: nat)
    requires CaseOk(x) && Up(x, s, pub, lid) && n in x.keys && s'.nodes.Keys == s.nodes.Keys && s'.radio == s.radio
    requires forall y | y in s.nodes && y != n :: s'.nodes[y] == s.nodes[y] && (y in pub' <==> y in pub)
    requires NodeUp(x, s', n, pub') && s'.nodes[n].localId == s.nodes[n].localId
    requires forall i | 0 <= i < |s'.got| :: s'.got[i].node != x.c
    ensures Up(x, s', pub', lid)
  {
    forall y ensures NodeUp(x, s', y, pub') {
      assert NodeUp(x, s, y, pub);
    }
  }

  // ---------------------------------------------------------------- joining

  function JoinOf(x: Case, n: Host, p: Host): (act: Action)
    requires p in x.keys
  {
    Join(n, Scan(p, x.keys[p], Some(p), "net", 2412, 0, 0, 0))
  }

  function Joins(x: Case): (run: seq<Action>)
    requires CaseOk(x)
  {
    [] + [JoinOf(x, x.a, x.h)] + [JoinOf(x, x.b, x.h)] + [JoinOf(x, x.b, x.a)] + [JoinOf(x, x.c, x.b)]
  }

  /** The four are there, each listing those it has joined so far. */
  predicate Joining(x: Case, s: System, ha: set<Host>, hb: set<Host>, hc: set<Host>)
    requires CaseOk(x) && ha <= x.keys.Keys && hb <= x.keys.Keys && hc <= x.keys.Keys
  {
    && s.nodes.Keys == x.keys.Keys && s.radio == Radio(x) && s.flight == multiset{} && s.got == []
    && s.nodes[x.h].localId == 1
    && AgentUp(x, s.nodes[x.h], x.h, {}, false) && AgentUp(x, s.nodes[x.a], x.a, ha, false)
    && AgentUp(x, s.nodes[x.b], x.b, hb, false) && AgentUp(x, s.nodes[x.c], x.c, hc, false)
  }

  lemma JoinAgent(x: Case, q: Node, n: Host, p: Host, heard: set<Host>)
    requires CaseOk(x) && n in x.keys && p in x.keys && n != p && heard <= x.keys.Keys && p !in heard
    requires AgentUp(x, q, n, heard, false)
    ensures AgentUp(x, Joined(q, JoinOf(x, n, p).scan), n, heard + {p}, false)
  {
  }

  lemma JoinStep(garble: Garble, x: Case, s: System, n: Host, p: Host, heard: set<Host>)
    requires CaseOk(x) && n in x.keys && p in x.keys && n != p && heard <= x.keys.Keys && p !in heard
    requires s.nodes.Keys == x.keys.Keys && s.radio == Radio(x) && (n, p) in Radio(x)
    requires AgentUp(x, s.nodes[n], n, heard, false)
    ensures var q := Joined(s.nodes[n], JoinOf(x, n, p).scan);
            && AgentUp(x, q, n, heard + {p}, false)
            && Step(garble, s, JoinOf(x, n, p)) == s.(nodes := s.nodes[n := q])
  {
    JoinAgent(x, s.nodes[n], n, p, heard);
  }

  lemma JoinFirst(garble: Garble, x: Case, s: System)
    requires CaseOk(x) && Joining(x, s, {}, {}, {})
    ensures Joining(x, Step(garble, s, JoinOf(x, x.a, x.h)), {x.h}, {}, {})
  {
    JoinStep(garble, x, s, x.a, x.h, {});
    assert {} + {x.h} == {x.h};
  }

  lemma JoinSecond(garble: Garble, x: Case, s: System)
    requires CaseOk(x) && Joining(x, s, {x.h}, {}, {})
    ensures Joining(x, Step(garble, s, JoinOf(x, x.b, x.h)), {x.h}, {x.h}, {})
  {
    JoinStep(garble, x, s, x.b, x.h, {});
    assert {} + {x.h} == {x.h};
  }

  lemma JoinThird(garble: Garble, x: Case, s: System)
    requires CaseOk(x) && Joining(x, s, {x.h}, {x.h}, {})
    ensures Joining(x, Step(garble, s, JoinOf(x, x.b, x.a)), {x.h}, {x.h, x.a}, {})
  {
    JoinStep(garble, x, s, x.b, x.a, {x.h});
    assert {x.h} + {x.a} == {x.h, x.a};
  }

  lemma JoinFourth(garble: Garble, x: Case, s: System)
    requires CaseOk(x) && Joining(x, s, {x.h}, {x.h, x.a}, {})
    ensures Joining(x, Step(garble, s, JoinOf(x, x.c, x.b)), {x.h}, {x.h, x.a}, {x.b})
  {
    JoinStep(garble, x, s, x.c, x.b, {});
    assert {} + {x.b} == {x.b};
  }

  lemma JoinedIsUp(x: Case, s: System)
    requires CaseOk(x) && Joining(x, s, {x.h}, {x.h, x.a}, {x.b})
    ensures Up(x, s, {}, 1)
  {
    forall n ensures NodeUp(x, s, n, {}) {
    }
  }

  lemma AfterJoins(garble: Garble, x: Case)
    requires CaseOk(x)
    ensures var s := Run(garble, Start(x.keys, Radio(x)), Joins(x));
            Up(x, s, {}, 1) && s.flight == multiset{} && s.got == []
  {
    var s0 := Start(x.keys, Radio(x));
    var r1 := [] + [JoinOf(x, x.a, x.h)];
    var r2 := r1 + [JoinOf(x, x.b, x.h)];
    var r3 := r2 + [JoinOf(x, x.b, x.a)];
    RunSnoc(garble, s0, [], JoinOf(x, x.a, x.h));
    JoinFirst(garble, x, s0);
    RunSnoc(garble, s0, r1, JoinOf(x, x.b, x.h));
    JoinSecond(garble, x, Run(garble, s0, r1));
    RunSnoc(garble, s0, r2, JoinOf(x, x.b, x.a));
    JoinThird(garble, x, Run(garble, s0, r2));
    RunSnoc(garble, s0, r3, JoinOf(x, x.c, x.b));
    JoinFourth(garble, x, Run(garble, s0, r3));
    JoinedIsUp(x, Run(garble, s0, Joins(x)));
  }

  // ---------------------------------------------------------------- one copy

  /** Taking a copy with TTL left, from h's own socket or from a node it hears, n publishes it if it has not yet. */
  lemma Relays(garble: Garble, x: Case, q: Node, n: Host, l: Host, ttl: int)
    requires CaseOk(x) && n in x.keys && l in Heard(x, n) + {n} && (l == n ==> n == x.h) && ttl > 1
    requires AgentUp(x, q, n, Heard(x, n), false)
    ensures var r := Forward(garble, q, Cast(x, l, ttl));
            && r.out == Some(Cast(x, n, ttl - 1)) && r.node.localId == q.localId
            && AgentUp(x, r.node, n, Heard(x, n), true)
  {
    assert OpenHop(garble, q, Cast(x, l, ttl)) == Some(Text(x.text));
  }

  lemma Ignores(garble: Garble, x: Case, q: Node, n: Host, l: Host, ttl: int, published: bool)
    requires CaseOk(x) && n in x.keys && l in x.keys && AgentUp(x, q, n, Heard(x, n), published)
    requires ttl <= 1 || published
    ensures Forward(garble, q, Cast(x, l, ttl)) == Forwarding(q, None, Ignored)
  {
  }

  /** The copy on which n publishes. */
  lemma PublishStep(garble: Garble, x: Case, s: System, c: Copy, l: Host, ttl: int, pub: set<Host>)
    requires CaseOk(x) && Up(x, s, pub, 2) && c in s.flight && !c.Rx? && c.dst in x.keys && c.dst !in pub
    requires l in Heard(x, c.dst) + {c.dst} && (l == c.dst ==> c.dst == x.h) && ttl > 1 && c.m == Cast(x, l, ttl)
    ensures var s' := Step(garble, s, Fwd(c));
            && Up(x, s', pub + {c.dst}, 2)
            && s'.flight == s.flight - One(c) + Fanout(s, c.dst, Cast(x, c.dst, ttl - 1))
  {
    assert NodeUp(x, s, c.dst, pub);
    Relays(garble, x, s.nodes[c.dst], c.dst, l, ttl);
    PublishUp(x, s, c, Forward(garble, s.nodes[c.dst], c.m), pub);
  }

  lemma PublishUp(x: Case, s: System, c: Copy, r: Forwarding, pub: set<Host>)
    requires CaseOk(x) && Up(x, s, pub, 2) && c.dst in x.keys && r.out.Some?
    requires r.node.localId == s.nodes[c.dst].localId && AgentUp(x, r.node, c.dst, Heard(x, c.dst), true)
    ensures Up(x, AfterForward(s, c, r), pub + {c.dst}, 2)
  {
    var s' := AfterForward(s, c, r);
    assert s'.nodes == s.nodes[c.dst := r.node];
    UpAfter(x, s, s', c.dst, pub, pub + {c.dst}, 2);
  }

  /** The copy that n drops. */
  lemma DropStep(garble: Garble, x: Case, s: System, c: Copy, l: Host, ttl: int, pub: set<Host>)
    requires CaseOk(x) && Up(x, s, pub, 2) && c in s.flight && !c.Rx? && c.dst in x.keys && l in x.keys
    requires (ttl <= 1 || c.dst in pub) && c.m == Cast(x, l, ttl)
    ensures var s' := Step(garble, s, Fwd(c)); Up(x, s', pub, 2) && s'.flight == s.flight - One(c)
  {
    var n := c.dst;
    assert NodeUp(x, s, n, pub);
    Ignores(garble, x, s.nodes[n], n, l, ttl, n in pub);
    var s' := Step(garble, s, Fwd(c));
    assert s'.nodes == s.nodes;
    UpAfter(x, s, s', n, pub, pub, 2);
  }

  /** A receive loop takes the copy that its own forwarder published. */
  lemma ReceiveStep(garble: Garble, x: Case, s: System, n: Host, ttl: int, pub: set<Host>)
    requires CaseOk(x) && n in x.keys && n != x.c && Up(x, s, pub, 2) && Rx(n, Cast(x, n, ttl)) in s.flight
    ensures var s' := Step(garble, s, Rcv(Rx(n, Cast(x, n, ttl)), 0));
            Up(x, s', pub, 2) && s'.flight == s.flight - One(Rx(n, Cast(x, n, ttl)))
  {
    assert NodeUp(x, s, n, pub);
    var q := s.nodes[n];
    assert Receive(garble, q, Cast(x, n, ttl), 0)
        == if n == x.h then Skip(q) else Receiving(q, None, Text(""), Some(Text(x.text)));
    var s' := Step(garble, s, Rcv(Rx(n, Cast(x, n, ttl)), 0));
    assert s'.nodes == s.nodes;
    UpAfter(x, s, s', n, pub, pub, 2);
  }

  lemma Hearers(x: Case, s: System, p: Host, pub: set<Host>)
    requires CaseOk(x) && Up(x, s, pub, 2) && p in x.keys
    ensures Subscribers(s, p) == if p == x.h then {x.a, x.b} else if p == x.a then {x.b} else if p == x.b then {x.c} else {}
  {
    forall n | n in s.nodes ensures p in s.nodes[n].nbrs && n != p <==> p in Heard(x, n) {
      assert NodeUp(x, s, n, pub);
    }
  }

  /** What the three relays send out. */
  lemma FanoutOf(x: Case, s: System, p: Host, m: Msg, pub: set<Host>)
    requires CaseOk(x) && Up(x, s, pub, 2) && p in x.keys
    ensures p == x.h ==> Fanout(s, p, m) == One(Net(x.a, m)) + One(Net(x.b, m)) + One(Rx(p, m))
    ensures p == x.a ==> Fanout(s, p, m) == One(Net(x.b, m)) + One(Rx(p, m))
    ensures p == x.b ==> Fanout(s, p, m) == One(Net(x.c, m)) + One(Rx(p, m))
  {
    Hearers(x, s, p, pub);
    if p == x.h {
      assert NetCopies(s, p, m) == {Net(x.a, m), Net(x.b, m)};
    } else if p == x.a {
      assert NetCopies(s, p, m) == {Net(x.b, m)};
    } else if p == x.b {
      assert NetCopies(s, p, m) == {Net(x.c, m)};
    }
  }

  // ---------------------------------------------------------------- the run

  /** The bad order: a's copy at b before h's. */
  function BadOrder(x: Case): (run: seq<Action>)
    requires CaseOk(x)
  {
    [] + [Fwd(HH(x))] + [Fwd(AH(x))] + [Fwd(BA(x))] + [Fwd(BH(x))] + [Fwd(CB(x))]
    + [Rcv(RH(x), 0)] + [Rcv(RA(x), 0)] + [Rcv(RB(x), 0)]
  }

  lemma UpIsCalm(garble: Garble, x: Case, s: System, act: Action, pub: set<Host>, pub': set<Host>)
    requires CaseOk(x) && Up(x, s, pub, 2) && Up(x, Step(garble, s, act), pub', 2)
    requires Enabled(s, act) && (act.Fwd? || act.Rcv?)
    ensures CalmStep(garble, s, act, x.h, 1)
  {
    var s' := Step(garble, s, act);
    forall n ensures SameEntries(s, s', n) && Alive(s', n) {
      assert NodeUp(x, s, n, pub) && NodeUp(x, s', n, pub');
    }
  }

  /** The state after the run so far, with what is in flight. */
  ghost predicate At(garble: Garble, x: Case, s1: System, run: seq<Action>, pub: set<Host>, flight: multiset<Copy>)
    requires CaseOk(x)
  {
    && CalmRun(garble, s1, run, x.h, 1) && Up(x, Run(garble, s1, run), pub, 2)
    && Run(garble, s1, run).flight == flight
  }

  lemma Grow(garble: Garble, x: Case, s1: System, run: seq<Action>, act: Action, pub: set<Host>, pub': set<Host>,
             flight: multiset<Copy>)
    requires CaseOk(x) && CalmRun(garble, s1, run, x.h, 1) && Up(x, Run(garble, s1, run), pub, 2)
    requires Enabled(Run(garble, s1, run), act) && (act.Fwd? || act.Rcv?)
    requires var s' := Step(garble, Run(garble, s1, run), act); Up(x, s', pub', 2) && s'.flight == flight
    ensures At(garble, x, s1, run + [act], pub', flight)
  {
    UpIsCalm(garble, x, Run(garble, s1, run), act, pub, pub');
    assert (run + [act])[..|run|] == run;
  }

  lemma AtPublish(garble: Garble, x: Case, s1: System, run: seq<Action>, c: Copy, l: Host, ttl: int, pub: set<Host>,
                  rest: multiset<Copy>, flight: multiset<Copy>)
    requires CaseOk(x) && At(garble, x, s1, run, pub, rest + One(c)) && !c.Rx? && c.dst in x.keys && c.dst !in pub
    requires l in Heard(x, c.dst) + {c.dst} && (l == c.dst ==> c.dst == x.h) && ttl > 1 && c.m == Cast(x, l, ttl)
    requires flight == rest + Fanout(Run(garble, s1, run), c.dst, Cast(x, c.dst, ttl - 1))
    ensures At(garble, x, s1, run + [Fwd(c)], pub + {c.dst}, flight)
  {
    var s := Run(garble, s1, run);
    assert c in s.flight && s.flight - One(c) == rest;
    PublishStep(garble, x, s, c, l, ttl, pub);
    Grow(garble, x, s1, run, Fwd(c), pub, pub + {c.dst}, flight);
  }

  lemma AtDrop(garble: Garble, x: Case, s1: System, run: seq<Action>, c: Copy, l: Host, ttl: int, pub: set<Host>,
               rest: multiset<Copy>)
    requires CaseOk(x) && At(garble, x, s1, run, pub, rest + One(c)) && !c.Rx? && c.dst in x.keys && l in x.keys
    requires (ttl <= 1 || c.dst in pub) && c.m == Cast(x, l, ttl)
    ensures At(garble, x, s1, run + [Fwd(c)], pub, rest)
  {
    var s := Run(garble, s1, run);
    assert c in s.flight && s.flight - One(c) == rest;
    DropStep(garble, x, s, c, l, ttl, pub);
    Grow(garble, x, s1, run, Fwd(c), pub, pub, rest);
  }

  lemma AtReceive(garble: Garble, x: Case, s1: System, run: seq<Action>, n: Host, ttl: int, pub: set<Host>,
                  rest: multiset<Copy>)
    requires CaseOk(x) && n in x.keys && n != x.c && At(garble, x, s1, run, pub, rest + One(Rx(n, Cast(x, n, ttl))))
    ensures At(garble, x, s1, run + [Rcv(Rx(n, Cast(x, n, ttl)), 0)], pub, rest)
  {
    var s, c := Run(garble, s1, run), Rx(n, Cast(x, n, ttl));
    assert c in s.flight && s.flight - One(c) == rest;
    ReceiveStep(garble, x, s, n, ttl, pub);
    Grow(garble, x, s1, run, Rcv(c, 0), pub, pub, rest);
  }

  // the copies, named after the taker and the publisher
  function HH(x: Case): (c: Copy) requires CaseOk(x) { Local(x.h, Cast(x, x.h, 4)) }
  function AH(x: Case): (c: Copy) requires CaseOk(x) { Net(x.a, Cast(x, x.h, 3)) }
  function BH(x: Case): (c: Copy) requires CaseOk(x) { Net(x.b, Cast(x, x.h, 3)) }
  function BA(x: Case): (c: Copy) requires CaseOk(x) { Net(x.b, Cast(x, x.a, 2)) }
  function CB(x: Case): (c: Copy) requires CaseOk(x) { Net(x.c, Cast(x, x.b, 1)) }
  function RH(x: Case): (c: Copy) requires CaseOk(x) { Rx(x.h, Cast(x, x.h, 3)) }
  function RA(x: Case): (c: Copy) requires CaseOk(x) { Rx(x.a, Cast(x, x.a, 2)) }
  function RB(x: Case): (c: Copy) requires CaseOk(x) { Rx(x.b, Cast(x, x.b, 1)) }

  lemma Sums(a: multiset<Copy>, b: multiset<Copy>, c: multiset<Copy>, d: multiset<Copy>, e: multiset<Copy>)
    ensures multiset{} + a == a && multiset{} + (a + b + c) == b + c + a
    ensures a + b + (d + c) == a + b + c + d && a + b + c + (d + e) == e + c + b + d + a
  {
  }

  lemma TurnH(garble: Garble, x: Case, s1: System, run: seq<Action>)
    requires CaseOk(x) && At(garble, x, s1, run, {}, One(HH(x)))
    ensures At(garble, x, s1, run + [Fwd(HH(x))], {x.h}, One(BH(x)) + One(RH(x)) + One(AH(x)))
  {
    FanoutOf(x, Run(garble, s1, run), x.h, Cast(x, x.h, 3), {});
    Sums(One(HH(x)), One(HH(x)), One(HH(x)), One(HH(x)), One(HH(x)));
    Sums(One(AH(x)), One(BH(x)), One(RH(x)), One(HH(x)), One(HH(x)));
    AtPublish(garble, x, s1, run, HH(x), x.h, 4, {}, multiset{}, One(BH(x)) + One(RH(x)) + One(AH(x)));
    assert {} + {x.h} == {x.h};
  }

  lemma TurnA(garble: Garble, x: Case, s1: System, run: seq<Action>)
    requires CaseOk(x) && At(garble, x, s1, run, {x.h}, One(BH(x)) + One(RH(x)) + One(AH(x)))
    ensures At(garble, x, s1, run + [Fwd(AH(x))], {x.h, x.a}, One(BH(x)) + One(RH(x)) + One(RA(x)) + One(BA(x)))
  {
    FanoutOf(x, Run(garble, s1, run), x.a, Cast(x, x.a, 2), {x.h});
    Sums(One(BH(x)), One(RH(x)), One(RA(x)), One(BA(x)), One(BA(x)));
    AtPublish(garble, x, s1, run, AH(x), x.h, 3, {x.h}, One(BH(x)) + One(RH(x)),
              One(BH(x)) + One(RH(x)) + One(RA(x)) + One(BA(x)));
    assert {x.h} + {x.a} == {x.h, x.a};
  }

  /** b takes the copy relayed by a. */
  lemma TurnB(garble: Garble, x: Case, s1: System, run: seq<Action>)
    requires CaseOk(x) && At(garble, x, s1, run, {x.h, x.a}, One(BH(x)) + One(RH(x)) + One(RA(x)) + One(BA(x)))
    ensures At(garble, x, s1, run + [Fwd(BA(x))], {x.h, x.a, x.b}, One(RB(x)) + One(RA(x)) + One(RH(x)) + One(CB(x)) + One(BH(x)))
  {
    FanoutOf(x, Run(garble, s1, run), x.b, Cast(x, x.b, 1), {x.h, x.a});
    Sums(One(BH(x)), One(RH(x)), One(RA(x)), One(CB(x)), One(RB(x)));
    AtPublish(garble, x, s1, run, BA(x), x.a, 2, {x.h, x.a}, One(BH(x)) + One(RH(x)) + One(RA(x)),
              One(RB(x)) + One(RA(x)) + One(RH(x)) + One(CB(x)) + One(BH(x)));
    assert {x.h, x.a} + {x.b} == {x.h, x.a, x.b};
  }

  lemma DropB(garble: Garble, x: Case, s1: System, run: seq<Action>)
    requires CaseOk(x) && At(garble, x, s1, run, {x.h, x.a, x.b}, One(RB(x)) + One(RA(x)) + One(RH(x)) + One(CB(x)) + One(BH(x)))
    ensures At(garble, x, s1, run + [Fwd(BH(x))], {x.h, x.a, x.b}, One(RB(x)) + One(RA(x)) + One(RH(x)) + One(CB(x)))
  {
    AtDrop(garble, x, s1, run, BH(x), x.h, 3, {x.h, x.a, x.b}, One(RB(x)) + One(RA(x)) + One(RH(x)) + One(CB(x)));
  }

  lemma DropC(garble: Garble, x: Case, s1: System, run: seq<Action>)
    requires CaseOk(x) && At(garble, x, s1, run, {x.h, x.a, x.b}, One(RB(x)) + One(RA(x)) + One(RH(x)) + One(CB(x)))
    ensures At(garble, x, s1, run + [Fwd(CB(x))], {x.h, x.a, x.b}, One(RB(x)) + One(RA(x)) + One(RH(x)))
  {
    AtDrop(garble, x, s1, run, CB(x), x.b, 1, {x.h, x.a, x.b}, One(RB(x)) + One(RA(x)) + One(RH(x)));
  }

  lemma Accepts(garble: Garble, x: Case, s1: System, run: seq<Action>)
    requires CaseOk(x) && At(garble, x, s1, run, {x.h, x.a, x.b}, One(RB(x)) + One(RA(x)) + One(RH(x)))
    ensures At(garble, x, s1, run + [Rcv(RH(x), 0)] + [Rcv(RA(x), 0)] + [Rcv(RB(x), 0)], {x.h, x.a, x.b}, multiset{})
  {
    var r1 := run + [Rcv(RH(x), 0)];
    AtReceive(garble, x, s1, run, x.h, 3, {x.h, x.a, x.b}, One(RB(x)) + One(RA(x)));
    AtReceive(garble, x, s1, r1, x.a, 2, {x.h, x.a, x.b}, One(RB(x)));
    Sums(One(RB(x)), One(RB(x)), One(RB(x)), One(RB(x)), One(RB(x)));
    AtReceive(garble, x, s1, r1 + [Rcv(RA(x), 0)], x.b, 1, {x.h, x.a, x.b}, multiset{});
  }

  lemma BadOrderRuns(garble: Garble, x: Case, s1: System)
    requires CaseOk(x) && Up(x, s1, {}, 2) && s1.flight == One(HH(x))
    ensures At(garble, x, s1, BadOrder(x), {x.h, x.a, x.b}, multiset{})
  {
    var r1 := [] + [Fwd(HH(x))];
    var r2 := r1 + [Fwd(AH(x))];
    var r3 := r2 + [Fwd(BA(x))];
    assert At(garble, x, s1, [], {}, One(HH(x)));
    TurnH(garble, x, s1, []);
    TurnA(garble, x, s1, r1);
    TurnB(garble, x, s1, r2);
    DropB(garble, x, s1, r3);
    DropC(garble, x, s1, r3 + [Fwd(BH(x))]);
    Accepts(garble, x, s1, r3 + [Fwd(BH(x))] + [Fwd(CB(x))]);
  }

  /** The send. */
  lemma AfterSend(garble: Garble, x: Case, s0: System)
    requires CaseOk(x) && Up(x, s0, {}, 1) && s0.flight == multiset{}
    ensures var s1 := Step(garble, s0, SendAll(x.h, x.text, 2));
            Up(x, s1, {}, 2) && s1.flight == One(Local(x.h, Cast(x, x.h, 4)))
  {
    var s1 := Step(garble, s0, SendAll(x.h, x.text, 2));
    assert NodeUp(x, s0, x.h, {});
    forall n ensures NodeUp(x, s1, n, {}) {
      assert NodeUp(x, s0, n, {});
    }
  }

  lemma TwoLinks(x: Case, s0: System)
    requires CaseOk(x) && Up(x, s0, {}, 1)
    ensures InBall(Hearing(s0), x.h, x.c, 2)
  {
    var graph := Hearing(s0);
    assert NodeUp(x, s0, x.b, {}) && NodeUp(x, s0, x.c, {});
    assert (x.b, x.h) in graph && (x.c, x.b) in graph;
    assert InBall(graph, x.h, x.h, 0) && InBall(graph, x.h, x.b, 1);
  }

  lemma UpKnowsKeys(x: Case, s: System)
    requires CaseOk(x) && Up(x, s, {}, 1)
    ensures KeysKnown(s) && AllAlive(s)
  {
    forall n, p ensures KeyKnown(s, n, p) {
      assert NodeUp(x, s, n, {}) && NodeUp(x, s, p, {});
    }
    forall n ensures Alive(s, n) {
      assert NodeUp(x, s, n, {});
    }
  }

  /**
    From the start, after four joins, h broadcasts over two hops and the copies are taken in the bad order.  The
    run is calm and ends with nothing in flight, and c, two links from h, has not accepted.
   */
  lemma OrderMatters(garble: Garble, x: Case)
    requires CaseOk(x)
    ensures var s0 := Run(garble, Start(x.keys, Radio(x)), Joins(x));
            var s := Run(garble, Step(garble, s0, SendAll(x.h, x.text, 2)), BadOrder(x));
            && Drained(garble, s0, x.h, x.text, 2, BadOrder(x), s)
            && InBall(Hearing(s0), x.h, x.c, 2) && x.c !in AcceptedOf(s.got, x.h, s0.nodes[x.h].localId)
  {
    var s0 := Run(garble, Start(x.keys, Radio(x)), Joins(x));
    AfterJoins(garble, x);
    AfterSend(garble, x, s0);
    var s1 := Step(garble, s0, SendAll(x.h, x.text, 2));
    BadOrderRuns(garble, x, s1);
    UpKnowsKeys(x, s0);
    TwoLinks(x, s0);
  }
}
