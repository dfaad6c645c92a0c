/**
  One broadcast, reduced to sets: who has published it with which TTL, which copies are under way, and who has
  accepted it.  Processing copies with the largest TTL first is a breadth-first search, so it reaches exactly
  the nodes within k hops.  In any other order it reaches exactly the nodes that hear a node which published
  with some TTL left.  Modules FloodComplete and FloodAnyOrder show that the agents refine this model.
 */
module HopFlood {
  import opened Agent

  /** `nets` holds (destination, publisher, TTL), `records` the publications, `waiting` receive-loop copies. */
  datatype View = View(
    nets: set<(Host, Host, int)>,
    waiting: set<Host>,
    records: set<(Host, int)>,
    done: set<Host>,
    accepted: set<Host>)

  /** n hears h over at most d links; `(n, p) in graph` says that n hears p. */
  ghost predicate InBall(graph: set<(Host, Host)>, h: Host, n: Host, d: nat)
    decreases d
  {
    if d == 0 then n == h
    else InBall(graph, h, n, d - 1) || exists p :: InBall(graph, h, p, d - 1) && (n, p) in graph
  }

  lemma {:induction false} BallGrows(graph: set<(Host, Host)>, h: Host, n: Host, d: nat, e: nat)
    requires d <= e && InBall(graph, h, n, d)
    ensures InBall(graph, h, n, e)
    decreases e - d
  {
    if d < e {
      assert InBall(graph, h, n, d + 1);
      BallGrows(graph, h, n, d + 1, e);
    }
  }

  // ---------------------------------------------------------------- steps

  /** The copies that p sends out with TTL t. */
  ghost predicate Sent(graph: set<(Host, Host)>, p: Host, t: int, nets: set<(Host, Host, int)>)
  {
    forall y | (y, p) in graph :: (y, p, t) in nets
  }

  /** The copy x is taken by a node that publishes; nothing else leaves, only the new copies are added. */
  ghost predicate Publish(graph: set<(Host, Host)>, v: View, v': View, x: (Host, Host, int))
  {
    && x in v.nets && x.2 - 1 > 0 && x.0 !in v.done
    && v'.done == v.done + {x.0} && v'.records == v.records + {(x.0, x.2 - 1)}
    && (forall y | y in v.nets && y != x :: y in v'.nets) && Sent(graph, x.0, x.2 - 1, v'.nets)
    && (forall y | y in v'.nets :: y in v.nets || (y.1 == x.0 && y.2 == x.2 - 1 && (y.0, y.1) in graph))
    && v.waiting <= v'.waiting && x.0 in v'.waiting && v'.accepted == v.accepted
  }

  /** The copy x is taken by a node that has published already, or has run out of TTL. */
  ghost predicate Drop(v: View, v': View, x: (Host, Host, int))
  {
    && x in v.nets && (x.0 in v.done || x.2 - 1 <= 0)
    && v'.nets <= v.nets && (forall y | y in v.nets && y != x :: y in v'.nets)
    && v' == v.(nets := v'.nets)
  }

  /** The receive loop of n accepts. */
  ghost predicate Accept(v: View, v': View, n: Host)
  {
    && n in v.waiting
    && v'.waiting <= v.waiting && (forall y | y in v.waiting && y != n :: y in v'.waiting)
    && v' == v.(waiting := v'.waiting, accepted := v.accepted + {n})
  }

  /** Copies are taken in hop order: the largest TTL first. */
  ghost predicate InOrder(v: View, x: (Host, Host, int))
  {
    forall y | y in v.nets :: y.2 <= x.2
  }

  /** A forwarder takes the copy x. */
  ghost predicate Take(graph: set<(Host, Host)>, v: View, v': View, x: (Host, Host, int))
  {
    Publish(graph, v, v', x) || Drop(v, v', x)
  }

  ghost predicate Next(graph: set<(Host, Host)>, v: View, v': View)
  {
    v' == v || (exists x :: InOrder(v, x) && Take(graph, v, v', x)) || (exists n :: Accept(v, v', n))
  }

  /** A step in any order. */
  ghost predicate Move(graph: set<(Host, Host)>, v: View, v': View)
  {
    v' == v || (exists x :: Take(graph, v, v', x)) || (exists n :: Accept(v, v', n))
  }

  /** The origin has just published with TTL k + 1. */
  ghost predicate Launched(graph: set<(Host, Host)>, h: Host, k: nat, v: View)
  {
    && v.records == {(h, k + 1)} && v.done == {h} && v.accepted == {} && v.waiting == {}
    && Sent(graph, h, k + 1, v.nets)
    && (forall y | y in v.nets :: y.1 == h && y.2 == k + 1 && (y.0, y.1) in graph)
  }

  // ---------------------------------------------------------------- the invariant

  ghost predicate NetsOk(graph: set<(Host, Host)>, k: nat, v: View, d: nat)
  {
    forall x | x in v.nets ::
      (x.0, x.1) in graph && (x.1, x.2) in v.records && (x.2 == k + 1 - d || x.2 == k - d)
  }

  ghost predicate RecordOk(graph: set<(Host, Host)>, h: Host, k: nat, v: View, d: nat, r: (Host, int))
  {
    && 1 <= r.1 <= k + 1 && k - d <= r.1
    && InBall(graph, h, r.0, k + 1 - r.1)
    && r.0 in v.done
    && (r.0 == h || r.0 in v.waiting || r.0 in v.accepted)
    && (forall y | (y, r.0) in graph :: y in v.done || r.1 <= 1 || (y, r.0, r.1) in v.nets)
  }

  ghost predicate RecordsOk(graph: set<(Host, Host)>, h: Host, k: nat, v: View, d: nat)
  {
    forall r {:trigger RecordOk(graph, h, k, v, d, r)} | r in v.records :: RecordOk(graph, h, k, v, d, r)
  }

  ghost predicate HasRecord(v: View, n: Host, t: int)
  {
    exists u :: t <= u && (n, u) in v.records
  }

  /** Everyone within j <= min(d, k) hops has published with at least the TTL of a shortest path. */
  ghost predicate BallDone(graph: set<(Host, Host)>, h: Host, k: nat, v: View, d: nat)
  {
    forall j: nat, n {:trigger InBall(graph, h, n, j)} | j <= d && j <= k && InBall(graph, h, n, j) ::
      HasRecord(v, n, k + 1 - j)
  }

  /** All copies of hop d - 1 and earlier are processed; copies under way are of hop d or d + 1. */
  ghost predicate HopInv(graph: set<(Host, Host)>, h: Host, k: nat, v: View, d: nat)
  {
    && NetsOk(graph, k, v, d)
    && RecordsOk(graph, h, k, v, d)
    && BallDone(graph, h, k, v, d)
    && (forall n | n in v.done :: HasRecord(v, n, 1))
    && (forall n | n in v.accepted :: n in v.done && n != h)
    && h in v.done && h !in v.waiting
  }

  lemma LaunchedInv(graph: set<(Host, Host)>, h: Host, k: nat, v: View)
    requires Launched(graph, h, k, v)
    ensures HopInv(graph, h, k, v, 0)
  {
    assert (h, k + 1) in v.records;
    forall r | r in v.records ensures RecordOk(graph, h, k, v, 0, r) {
    }
  }

  /** When no copy of hop d is left, everyone within d + 1 hops has published. */
  lemma LevelUp(graph: set<(Host, Host)>, h: Host, k: nat, v: View, d: nat)
    requires HopInv(graph, h, k, v, d)
    requires forall x | x in v.nets :: x.2 != k + 1 - d
    ensures HopInv(graph, h, k, v, d + 1)
  {
    forall r | r in v.records ensures RecordOk(graph, h, k, v, d + 1, r) {
      assert RecordOk(graph, h, k, v, d, r);
    }
    forall j: nat, n | j <= d + 1 && j <= k && InBall(graph, h, n, j) ensures HasRecord(v, n, k + 1 - j) {
      if j == d + 1 {
        if InBall(graph, h, n, d) {
          assert HasRecord(v, n, k + 1 - d);
        } else {
          var p :| InBall(graph, h, p, d) && (n, p) in graph;
          ShellDone(graph, h, k, v, d, p, n);
        }
      }
    }
  }

  lemma ShellDone(graph: set<(Host, Host)>, h: Host, k: nat, v: View, d: nat, p: Host, n: Host)
    requires HopInv(graph, h, k, v, d) && d < k
    requires forall x | x in v.nets :: x.2 != k + 1 - d
    requires InBall(graph, h, p, d) && (n, p) in graph
    ensures HasRecord(v, n, k - d)
  {
    assert HasRecord(v, p, k + 1 - d);
    var t :| k + 1 - d <= t && (p, t) in v.records;
    assert RecordOk(graph, h, k, v, d, (p, t));
    assert (n, p, t) !in v.nets;
    assert HasRecord(v, n, 1);
    var u :| 1 <= u && (n, u) in v.records;
    assert RecordOk(graph, h, k, v, d, (n, u));
  }

  // ---------------------------------------------------------------- steps keep the invariant

  lemma RecordsGrow(v: View, v': View, n: Host, t: int)
    requires v.records <= v'.records && HasRecord(v, n, t)
    ensures HasRecord(v', n, t)
  {
    var u :| t <= u && (n, u) in v.records;
    assert (n, u) in v'.records;
  }

  lemma PublishInv(graph: set<(Host, Host)>, h: Host, k: nat, v: View, v': View, d: nat, x: (Host, Host, int))
    requires HopInv(graph, h, k, v, d) && Publish(graph, v, v', x) && x.2 == k + 1 - d
    requires h !in v'.waiting
    ensures HopInv(graph, h, k, v', d)
  {
    var new_ := (x.0, x.2 - 1);
    assert RecordOk(graph, h, k, v, d, (x.1, x.2));
    assert InBall(graph, h, x.0, d + 1);
    forall r | r in v'.records ensures RecordOk(graph, h, k, v', d, r) {
      if r != new_ {
        assert RecordOk(graph, h, k, v, d, r);
        forall y | (y, r.0) in graph ensures y in v'.done || r.1 <= 1 || (y, r.0, r.1) in v'.nets {
          if (y, r.0, r.1) in v.nets && (y, r.0, r.1) != x {
            assert (y, r.0, r.1) in v'.nets;
          }
        }
      }
    }
    forall y | y in v'.nets
      ensures (y.0, y.1) in graph && (y.1, y.2) in v'.records && (y.2 == k + 1 - d || y.2 == k - d)
    {
    }
    forall j: nat, n | j <= d && j <= k && InBall(graph, h, n, j) ensures HasRecord(v', n, k + 1 - j) {
      RecordsGrow(v, v', n, k + 1 - j);
    }
    forall n | n in v'.done ensures HasRecord(v', n, 1) {
      if n in v.done {
        RecordsGrow(v, v', n, 1);
      } else {
        assert new_ in v'.records;
      }
    }
  }

  lemma QuietInv(graph: set<(Host, Host)>, h: Host, k: nat, v: View, v': View, d: nat)
    requires HopInv(graph, h, k, v, d)
    requires v'.records == v.records && v'.done == v.done && v'.nets <= v.nets && v'.waiting <= v.waiting
    requires forall y | y in v.nets && y !in v'.nets :: y.0 in v.done || y.2 <= 1
    requires forall n | n in v.waiting && n !in v'.waiting :: n in v'.accepted
    requires v.accepted <= v'.accepted && forall n | n in v'.accepted :: n in v.accepted || n in v.waiting
    requires forall n | n in v.waiting :: n in v.done
    ensures HopInv(graph, h, k, v', d)
  {
    forall r | r in v'.records ensures RecordOk(graph, h, k, v', d, r) {
      assert RecordOk(graph, h, k, v, d, r);
    }
    forall j: nat, n | j <= d && j <= k && InBall(graph, h, n, j) ensures HasRecord(v', n, k + 1 - j) {
      RecordsGrow(v, v', n, k + 1 - j);
    }
    forall n | n in v'.done ensures HasRecord(v', n, 1) {
      RecordsGrow(v, v', n, 1);
    }
  }

  /** One step in hop order; the level rises when the first copy of the next hop is taken. */
  lemma NextInv(graph: set<(Host, Host)>, h: Host, k: nat, v: View, v': View, d: nat) returns (e: nat)
    requires HopInv(graph, h, k, v, d) && Next(graph, v, v') && h !in v'.waiting
    requires forall n | n in v.waiting :: n in v.done
    ensures HopInv(graph, h, k, v', e)
  {
    e := d;
    if v' == v {
    } else if x :| InOrder(v, x) && Take(graph, v, v', x) {
      if x.2 == k - d {
        LevelUp(graph, h, k, v, d);
        e := d + 1;
      }
      if Publish(graph, v, v', x) {
        PublishInv(graph, h, k, v, v', e, x);
      } else {
        QuietInv(graph, h, k, v, v', e);
      }
    } else {
      var n :| Accept(v, v', n);
      QuietInv(graph, h, k, v, v', e);
    }
  }

  // ---------------------------------------------------------------- the result

  lemma {:induction false} LevelsUp(graph: set<(Host, Host)>, h: Host, k: nat, v: View, d: nat) returns (e: nat)
    requires HopInv(graph, h, k, v, d) && v.nets == {}
    ensures e >= k && HopInv(graph, h, k, v, e)
    decreases k - d
  {
    e := d;
    if d < k {
      LevelUp(graph, h, k, v, d);
      e := LevelsUp(graph, h, k, v, d + 1);
    }
  }

  /** After the last copy, exactly the nodes within k hops, other than the origin, have accepted. */
  lemma DrainedExactly(graph: set<(Host, Host)>, h: Host, k: nat, v: View, d: nat, n: Host)
    requires HopInv(graph, h, k, v, d) && v.nets == {} && v.waiting == {}
    ensures n in v.accepted <==> n != h && InBall(graph, h, n, k)
  {
    var e := LevelsUp(graph, h, k, v, d);
    if n in v.accepted {
      assert HasRecord(v, n, 1);
      var t :| 1 <= t && (n, t) in v.records;
      assert RecordOk(graph, h, k, v, e, (n, t));
      BallGrows(graph, h, n, k + 1 - t, k);
    }
    if n != h && InBall(graph, h, n, k) {
      assert HasRecord(v, n, 1);
      var t :| 1 <= t && (n, t) in v.records;
      assert RecordOk(graph, h, k, v, e, (n, t));
    }
  }

  // ---------------------------------------------------------------- any order

  /** r was published after a copy with one hop more, which its node heard; the first publication is the origin's. */
  ghost predicate FromCopy(graph: set<(Host, Host)>, h: Host, k: nat, records: set<(Host, int)>, r: (Host, int))
  {
    if r.1 == k + 1 then r.0 == h else exists p :: (p, r.1 + 1) in records && (r.0, p) in graph
  }

  ghost predicate AnyRecordOk(graph: set<(Host, Host)>, h: Host, k: nat, v: View, r: (Host, int))
  {
    && 1 <= r.1 <= k + 1 && r.0 in v.done && FromCopy(graph, h, k, v.records, r)
    && (r.0 == h || r.0 in v.waiting || r.0 in v.accepted)
    && (forall y | (y, r.0) in graph :: y in v.done || r.1 <= 1 || (y, r.0, r.1) in v.nets)
  }

  ghost predicate CopiesKnown(graph: set<(Host, Host)>, v: View)
  {
    forall x | x in v.nets :: (x.0, x.1) in graph && (x.1, x.2) in v.records
  }

  ghost predicate AnyRecords(graph: set<(Host, Host)>, h: Host, k: nat, v: View)
  {
    forall r {:trigger AnyRecordOk(graph, h, k, v, r)} | r in v.records :: AnyRecordOk(graph, h, k, v, r)
  }

  /** Everyone publishes at most once. */
  ghost predicate OneRecord(v: View)
  {
    forall r, q | r in v.records && q in v.records && r.0 == q.0 :: r == q
  }

  ghost predicate DoneRecorded(v: View)
  {
    forall n | n in v.done :: HasRecord(v, n, 1)
  }

  /** What every order keeps. */
  ghost predicate AnyInv(graph: set<(Host, Host)>, h: Host, k: nat, v: View)
  {
    && CopiesKnown(graph, v) && AnyRecords(graph, h, k, v) && OneRecord(v) && DoneRecorded(v)
    && (forall n | n in v.accepted :: n in v.done && n != h)
    && h in v.done && h !in v.waiting && (h, k + 1) in v.records
  }

  lemma LaunchedAny(graph: set<(Host, Host)>, h: Host, k: nat, v: View)
    requires Launched(graph, h, k, v)
    ensures AnyInv(graph, h, k, v)
  {
    assert (h, k + 1) in v.records;
    forall r | r in v.records ensures AnyRecordOk(graph, h, k, v, r) {
    }
  }

  lemma FromCopyKept(graph: set<(Host, Host)>, h: Host, k: nat, v: View, v': View, r: (Host, int))
    requires FromCopy(graph, h, k, v.records, r) && v.records <= v'.records
    ensures FromCopy(graph, h, k, v'.records, r)
  {
    if r.1 != k + 1 {
      var p :| (p, r.1 + 1) in v.records && (r.0, p) in graph;
      assert (p, r.1 + 1) in v'.records;
    }
  }

  lemma PublishOld(graph: set<(Host, Host)>, h: Host, k: nat, v: View, v': View, x: (Host, Host, int), r: (Host, int))
    requires AnyRecordOk(graph, h, k, v, r) && Publish(graph, v, v', x)
    ensures AnyRecordOk(graph, h, k, v', r) && r.0 != x.0
  {
    FromCopyKept(graph, h, k, v, v', r);
    forall y | (y, r.0) in graph ensures y in v'.done || r.1 <= 1 || (y, r.0, r.1) in v'.nets {
      if (y, r.0, r.1) in v.nets && (y, r.0, r.1) != x {
        assert (y, r.0, r.1) in v'.nets;
      }
    }
  }

  lemma PublishNew(graph: set<(Host, Host)>, h: Host, k: nat, v: View, v': View, x: (Host, Host, int))
    requires AnyInv(graph, h, k, v) && Publish(graph, v, v', x)
    ensures AnyRecordOk(graph, h, k, v', (x.0, x.2 - 1))
  {
    assert AnyRecordOk(graph, h, k, v, (x.1, x.2));
    assert (x.1, (x.2 - 1) + 1) in v'.records;
  }

  lemma PublishRecords(graph: set<(Host, Host)>, h: Host, k: nat, v: View, v': View, x: (Host, Host, int))
    requires AnyInv(graph, h, k, v) && Publish(graph, v, v', x)
    ensures AnyRecords(graph, h, k, v') && OneRecord(v')
  {
    PublishNew(graph, h, k, v, v', x);
    forall r | r in v.records ensures AnyRecordOk(graph, h, k, v', r) && r.0 != x.0 {
      assert AnyRecordOk(graph, h, k, v, r);
      PublishOld(graph, h, k, v, v', x, r);
    }
  }

  lemma PublishRecorded(graph: set<(Host, Host)>, v: View, v': View, x: (Host, Host, int))
    requires DoneRecorded(v) && Publish(graph, v, v', x)
    ensures DoneRecorded(v')
  {
    forall n | n in v'.done ensures HasRecord(v', n, 1) {
      if n in v.done {
        RecordsGrow(v, v', n, 1);
      } else {
        assert (x.0, x.2 - 1) in v'.records;
      }
    }
  }

  lemma PublishAny(graph: set<(Host, Host)>, h: Host, k: nat, v: View, v': View, x: (Host, Host, int))
    requires AnyInv(graph, h, k, v) && Publish(graph, v, v', x) && h !in v'.waiting
    ensures AnyInv(graph, h, k, v')
  {
    PublishRecords(graph, h, k, v, v', x);
    PublishRecorded(graph, v, v', x);
    assert CopiesKnown(graph, v');
  }

  lemma QuietAny(graph: set<(Host, Host)>, h: Host, k: nat, v: View, v': View)
    requires AnyInv(graph, h, k, v)
    requires v'.records == v.records && v'.done == v.done && v'.nets <= v.nets && v'.waiting <= v.waiting
    requires forall y | y in v.nets && y !in v'.nets :: y.0 in v.done || y.2 <= 1
    requires forall n | n in v.waiting && n !in v'.waiting :: n in v'.accepted
    requires v.accepted <= v'.accepted && forall n | n in v'.accepted :: n in v.accepted || n in v.waiting
    requires forall n | n in v.waiting :: n in v.done
    ensures AnyInv(graph, h, k, v')
  {
    forall r | r in v'.records ensures AnyRecordOk(graph, h, k, v', r) {
      assert AnyRecordOk(graph, h, k, v, r);
      FromCopyKept(graph, h, k, v, v', r);
    }
    forall n | n in v'.done ensures HasRecord(v', n, 1) {
      RecordsGrow(v, v', n, 1);
    }
  }

  lemma MoveAny(graph: set<(Host, Host)>, h: Host, k: nat, v: View, v': View)
    requires AnyInv(graph, h, k, v) && Move(graph, v, v') && h !in v'.waiting
    requires forall n | n in v.waiting :: n in v.done
    ensures AnyInv(graph, h, k, v')
  {
    if v' == v {
    } else if x :| Take(graph, v, v', x) {
      if Publish(graph, v, v', x) {
        PublishAny(graph, h, k, v, v', x);
      } else {
        QuietAny(graph, h, k, v, v');
      }
    } else {
      var n :| Accept(v, v', n);
      QuietAny(graph, h, k, v, v');
    }
  }

  /** n hears a node that published with a TTL of at least 2. */
  ghost predicate HearsRelay(graph: set<(Host, Host)>, records: set<(Host, int)>, n: Host)
  {
    exists p, t :: t >= 2 && (p, t) in records && (n, p) in graph
  }

  /** In any order, after the last copy, exactly the nodes that hear a relay, other than the origin, have accepted. */
  lemma DrainedAny(graph: set<(Host, Host)>, h: Host, k: nat, v: View, n: Host)
    requires AnyInv(graph, h, k, v) && v.nets == {} && v.waiting == {}
    ensures n in v.accepted <==> n != h && HearsRelay(graph, v.records, n)
  {
    if n in v.accepted {
      var t :| 1 <= t && (n, t) in v.records;
      assert AnyRecordOk(graph, h, k, v, (n, t));
    }
    if n != h && HearsRelay(graph, v.records, n) {
      var p, t :| t >= 2 && (p, t) in v.records && (n, p) in graph;
      assert AnyRecordOk(graph, h, k, v, (p, t));
      var u :| 1 <= u && (n, u) in v.records;
      assert AnyRecordOk(graph, h, k, v, (n, u));
    }
  }

  /** Whoever has published is within reach. */
  lemma {:induction false} DoneIsReached(graph: set<(Host, Host)>, h: Host, k: nat, v: View, n: Host, t: int)
    requires AnyInv(graph, h, k, v) && (n, t) in v.records
    ensures t <= k + 1 && InBall(graph, h, n, k + 1 - t)
    decreases k + 1 - t
  {
    assert AnyRecordOk(graph, h, k, v, (n, t));
    if t < k + 1 {
      var p :| (p, t + 1) in v.records && (n, p) in graph;
      DoneIsReached(graph, h, k, v, p, t + 1);
    }
  }

  ghost predicate Reachable(graph: set<(Host, Host)>, h: Host, n: Host)
  {
    exists d :: InBall(graph, h, n, d)
  }
}
