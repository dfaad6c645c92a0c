/**
  Two runs of two nodes.  In the first both start and set up a VAP, and its two ends mirror each other.  In the
  second the reply comes while the asking node is still starting, and the link is lost and regained before the
  queue is processed: the second VAP is completed by the reply to the first, and the ends disagree.
 */
module VapRun {
  import opened Agent
  import opened Cran
  import opened CranNetwork
  import opened VapHandshake

  lemma {:induction false} RunAppend(w: World, r: seq<Action>, t: seq<Action>)
    ensures Run(w, r + t) == Run(Run(w, r), t)
  {
    if t == [] {
      assert r + t == r;
    } else {
      var n := |t| - 1;
      assert (r + t)[..|r| + n] == r + t[..n];
      RunAppend(w, r, t[..n]);
    }
  }

  /** The node has started, has no entries, and its generators are where they began. */
  predicate Ready(w: World, n: Host)
  {
    && n in w.apps && w.apps[n].switch.Some?
    && w.apps[n] == NewApp(n).(boot := Started, switch := w.apps[n].switch)
  }

  function Boots(n: Host): (run: seq<Action>)
  {
    [Advance(n)] + [Advance(n)] + [Advance(n)] + [Advance(n)]
  }

  lemma One(w: World, act: Action)
    ensures Run(w, [act]) == Step(w, act)
  {
    assert [act][..0] == [];
    assert Run(w, []) == w;
  }

  /** One start-up step. */
  lemma BootStep(w: World, n: Host)
    requires n in w.apps && w.apps[n].hostname == n && w.apps[n].boot != Started
    requires w.apps[n].boot.SwitchUp? || w.apps[n].boot.HomeUp? ==> w.apps[n].switch.Some?
    ensures var w' := Step(w, Advance(n));
            && w' == World(w.apps[n := w'.apps[n]], w.net) && w'.apps.Keys == w.apps.Keys
            && var p, q := w.apps[n], w'.apps[n];
            && q == p.(boot := q.boot, switch := q.switch) && (p.boot.MonitorUp? ==> q.switch == p.switch)
            && (!p.boot.MonitorUp? ==> q.switch.Some?)
            && q.boot == (match p.boot case Idle => SwitchUp case SwitchUp => HomeUp case HomeUp => MonitorUp
                                       case MonitorUp => Started case Started => Started)
  {
  }

  /** The four steps start the application and change nothing but its switch. */
  lemma BootsUp(w: World, n: Host)
    requires n in w.apps && w.apps[n].hostname == n && w.apps[n].boot == Idle
    ensures var w' := Run(w, Boots(n));
            && n in w'.apps && w'.net == w.net && w'.apps == w.apps[n := w'.apps[n]] && w'.apps[n].switch.Some?
            && w'.apps[n] == w.apps[n].(boot := Started, switch := w'.apps[n].switch)
  {
    var act := Advance(n);
    var w1 := Step(w, act);
    var w2 := Step(w1, act);
    var w3 := Step(w2, act);
    One(w, act);
    One(w1, act);
    One(w2, act);
    One(w3, act);
    RunAppend(w, [act], [act]);
    RunAppend(w, [act] + [act], [act]);
    RunAppend(w, [act] + [act] + [act], [act]);
    BootStep(w, n);
    BootStep(w1, n);
    BootStep(w2, n);
    BootStep(w3, n);
  }

  /** The ids that a fresh node gives its first entry. */
  function FirstIds(): (i: Ids)
  {
    Ids(1000, 1000, 5001)
  }

  function Request(a: Host, b: Host): (note: Note)
  {
    CreateRequest(a, b, FirstIds())
  }

  function Reply(a: Host, b: Host): (note: Note)
  {
    CreateCompleted(b, a, FirstIds())
  }

  /** Both start, a sees the link, b gets the request and a the reply. */
  function Setup(a: Host, b: Host): (run: seq<Action>)
  {
    Boots(a) + Boots(b) + [NewLink(a, b)] + [Deliver(b, Request(a, b))] + [Deliver(a, Reply(a, b))]
  }

  lemma BothReady(a: Host, b: Host)
    requires a != b
    ensures var w := Run(Start({a, b}), Boots(a) + Boots(b));
            Ready(w, a) && Ready(w, b) && w.apps.Keys == {a, b} && w.net == {}
  {
    var w := Start({a, b});
    BootsUp(w, a);
    BootsUp(Run(w, Boots(a)), b);
    RunAppend(w, Boots(a), Boots(b));
  }

  lemma LinkUp(w: World, a: Host, b: Host)
    requires a != b && Ready(w, a) && Ready(w, b)
    ensures var w' := Step(w, NewLink(a, b));
            && w'.apps == w.apps[a := w'.apps[a]] && w'.net == w.net + {Request(a, b)}
            && w'.apps[a].boot == Started && w'.apps[a].switch.Some? && w'.apps[a].hostname == a
            && LocalVap(w'.apps[a], b).Some? && LocalIds(LocalVap(w'.apps[a], b).value) == FirstIds()
  {
    InitializeEntry(w.apps[a], b, b);
  }

  lemma RequestTaken(w: World, a: Host, b: Host)
    requires a != b && Ready(w, b) && Request(a, b) in w.net
    ensures var w' := Step(w, Deliver(b, Request(a, b)));
            && w'.apps == w.apps[b := w'.apps[b]] && w'.net == w.net + {Reply(a, b)}
            && RemoteVap(w'.apps[b], a).Some? && RemoteVap(w'.apps[b], a).value.remote == Some(FirstIds())
            && LocalIds(RemoteVap(w'.apps[b], a).value) == FirstIds()
  {
    CreateEntry(w.apps[b], a, FirstIds(), a);
  }

  lemma ReplyTaken(w: World, a: Host, b: Host)
    requires a != b && a in w.apps && w.apps[a].hostname == a && w.apps[a].boot == Started && Reply(a, b) in w.net
    requires LocalVap(w.apps[a], b).Some?
    ensures var w' := Step(w, Deliver(a, Reply(a, b)));
            && w'.apps == w.apps[a := w'.apps[a]] && w'.net == w.net && w'.apps[a].boot == Started
            && LocalVap(w'.apps[a], b).Some? && LocalVap(w'.apps[a], b).value.remote == Some(FirstIds())
            && LocalIds(LocalVap(w'.apps[a], b).value) == LocalIds(LocalVap(w.apps[a], b).value)
  {
    CompleteEntry(w.apps[a], b, FirstIds(), b);
  }

  /** The set-up ends with a completed VAP and a WTP that mirror each other, and the reply still on the network. */
  lemma SetupMirrors(a: Host, b: Host)
    requires a != b
    ensures var w := Run(Start({a, b}), Setup(a, b));
            && Mirrored(w, a, b) && CompletedAt(w, a, b) && w.apps[a].boot == Started && Reply(a, b) in w.net
  {
    var s := Start({a, b});
    var r0 := Boots(a) + Boots(b);
    var r1 := r0 + [NewLink(a, b)];
    var r2 := r1 + [Deliver(b, Request(a, b))];
    BothReady(a, b);
    RunAppend(s, r0, [NewLink(a, b)]);
    One(Run(s, r0), NewLink(a, b));
    LinkUp(Run(s, r0), a, b);
    RunAppend(s, r1, [Deliver(b, Request(a, b))]);
    One(Run(s, r1), Deliver(b, Request(a, b)));
    RequestTaken(Run(s, r1), a, b);
    RunAppend(s, r2, [Deliver(a, Reply(a, b))]);
    One(Run(s, r2), Deliver(a, Reply(a, b)));
    ReplyTaken(Run(s, r2), a, b);
  }

  // ---------------------------------------------------------------- the lost mirror

  /** No note is delivered twice. */
  ghost predicate DeliversOnce(run: seq<Action>)
  {
    forall act: Action | act.Deliver? :: multiset(run)[act] <= 1
  }

  /** b starts and a sees the link; b gets the request; the reply waits in a's queue. */
  function Early(a: Host, b: Host): (run: seq<Action>)
  {
    Boots(b) + [NewLink(a, b)] + [Deliver(b, Request(a, b))]
  }

  /** The link is lost and regained, and then a starts and processes its queue. */
  function Late(a: Host, b: Host): (run: seq<Action>)
  {
    [Deliver(a, Reply(a, b))] + [LinkFailure(a, b)] + [NewLink(a, b)] + Boots(a) + [Advance(a)]
  }

  lemma EarlyMirrors(a: Host, b: Host)
    requires a != b
    ensures var w := Run(Start({a, b}), Early(a, b));
            && Mirrored(w, a, b) && Reply(a, b) in w.net && a in w.apps && w.apps[a].hostname == a
            && w.apps[a].boot == Idle && w.apps[a].queue == []
  {
    var s := Start({a, b});
    var r1 := Boots(b) + [NewLink(a, b)];
    BootsUp(s, b);
    RunAppend(s, Boots(b), [NewLink(a, b)]);
    One(Run(s, Boots(b)), NewLink(a, b));
    InitializeEntry(NewApp(a), b, b);
    RunAppend(s, r1, [Deliver(b, Request(a, b))]);
    One(Run(s, r1), Deliver(b, Request(a, b)));
    RequestTaken(Run(s, r1), a, b);
  }

  /** While a has not started, the reply is queued and stays there when the link goes and comes back. */
  lemma ReplyWaits(w: World, a: Host, b: Host)
    requires a in w.apps && w.apps[a].hostname == a && w.apps[a].boot == Idle && w.apps[a].queue == []
    requires Reply(a, b) in w.net && Ok(w)
    ensures var w' := Step(Step(Step(w, Deliver(a, Reply(a, b))), LinkFailure(a, b)), NewLink(a, b));
            && a in w'.apps && w'.apps[a].hostname == a && w'.apps[a].boot == Idle
            && w'.apps[a].queue == [Reply(a, b)] && LocalVap(w'.apps[a], b).Some?
  {
    var w1 := Step(w, Deliver(a, Reply(a, b)));
    var w2 := Step(w1, LinkFailure(a, b));
    assert w2.apps[a].queue == [Reply(a, b)];
    InitializeEntry(w2.apps[a], b, b);
  }

  /** The first step after the start takes the reply from the queue. */
  lemma QueueCompletes(w: World, a: Host, b: Host)
    requires a in w.apps && w.apps[a].hostname == a && w.apps[a].boot == Started && w.apps[a].queue == [Reply(a, b)]
    requires LocalVap(w.apps[a], b).Some?
    ensures CompletedAt(Step(w, Advance(a)), a, b)
  {
    CompleteEntry(w.apps[a].(queue := []), b, FirstIds(), b);
  }

  lemma LateCompletes(w: World, a: Host, b: Host)
    requires a in w.apps && w.apps[a].hostname == a && w.apps[a].boot == Idle && w.apps[a].queue == []
    requires Reply(a, b) in w.net && Ok(w)
    ensures CompletedAt(Run(w, Late(a, b)), a, b)
  {
    var r1 := [Deliver(a, Reply(a, b))];
    var r2 := r1 + [LinkFailure(a, b)];
    var r3 := r2 + [NewLink(a, b)];
    One(w, Deliver(a, Reply(a, b)));
    RunAppend(w, r1, [LinkFailure(a, b)]);
    One(Run(w, r1), LinkFailure(a, b));
    RunAppend(w, r2, [NewLink(a, b)]);
    One(Run(w, r2), NewLink(a, b));
    ReplyWaits(w, a, b);
    RunAppend(w, r3, Boots(a));
    BootsUp(Run(w, r3), a);
    RunAppend(w, r3 + Boots(a), [Advance(a)]);
    One(Run(w, r3 + Boots(a)), Advance(a));
    QueueCompletes(Run(w, r3 + Boots(a)), a, b);
  }

  function Only(act: Action, note: Action): (k: nat)
  {
    if act == note then 1 else 0
  }

  lemma NoDelivery(n: Host, act: Action)
    requires act.Deliver?
    ensures multiset(Boots(n))[act] == 0
  {
  }

  lemma EarlyDelivers(a: Host, b: Host, act: Action)
    requires act.Deliver?
    ensures multiset(Early(a, b))[act] == Only(act, Deliver(b, Request(a, b)))
  {
    NoDelivery(b, act);
  }

  lemma LateDelivers(a: Host, b: Host, act: Action)
    requires act.Deliver?
    ensures multiset(Late(a, b))[act] == Only(act, Deliver(a, Reply(a, b)))
  {
    NoDelivery(a, act);
  }

  lemma DeliversTwoNotes(a: Host, b: Host)
    requires a != b
    ensures DeliversOnce(Early(a, b) + Late(a, b))
  {
    forall act: Action | act.Deliver? ensures multiset(Early(a, b) + Late(a, b))[act] <= 1 {
      EarlyDelivers(a, b, act);
      LateDelivers(a, b, act);
    }
  }

  lemma LateFails(a: Host, b: Host)
    ensures LinkFailure(a, b) in Late(a, b)
  {
    assert Late(a, b)[1] == LinkFailure(a, b);
  }

  /**
    A run from the start in which no note is delivered twice, and at its end the VAP is complete but its WTP
    belongs to the VAP that the link failure removed.
   */
  lemma MirrorIsLost(a: Host, b: Host)
    requires a != b
    ensures DeliversOnce(Early(a, b) + Late(a, b))
    ensures var w := Run(Start({a, b}), Early(a, b) + Late(a, b)); CompletedAt(w, a, b) && !Mirrored(w, a, b)
  {
    var s := Start({a, b});
    DeliversTwoNotes(a, b);
    EarlyMirrors(a, b);
    RunOk({a, b}, Early(a, b));
    LateCompletes(Run(s, Early(a, b)), a, b);
    LateFails(a, b);
    MirrorsUntilLinkFailure({a, b}, Early(a, b), Late(a, b), a, b);
    RunAppend(s, Early(a, b), Late(a, b));
  }
}
