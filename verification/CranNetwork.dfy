/**
  The VAP application on all nodes: link notifications, messages and start-up steps in any order.  Messages
  may be delayed, reordered, lost and even repeated: `net` only grows and any note in it can be delivered at
  any time.
 */
module CranNetwork {
  import opened Agent
  import opened Cran

  datatype World = World(apps: map<Host, App>, net: set<Note>)

  datatype Action =
    | NewLink(n: Host, nb: Host)
    | LinkFailure(n: Host, nb: Host)
    | Deliver(n: Host, note: Note)
    | Advance(n: Host)
    | Announce(n: Host, nb: Host)

  function Start(hosts: set<Host>): (w: World)
  {
    World(map h | h in hosts :: NewApp(h), {})
  }

  predicate Enabled(w: World, a: Action)
  {
    a.n in w.apps && (a.Deliver? ==> a.note in w.net && a.note.dst == a.n)
  }

  function Put(w: World, r: Outcome): (w': World)
  {
    World(w.apps[r.app.hostname := r.app], if r.out.None? then w.net else w.net + {r.out.value})
  }

  function Step(w: World, a: Action): (w': World)
  {
    if !Enabled(w, a) then w
    else
      var app := w.apps[a.n];
      match a
      case NewLink(_, nb) => Put(w, InitializeLocalVap(app, nb))
      case LinkFailure(_, nb) => Put(w, Outcome(RemoveVap(app, nb), None))
      case Deliver(_, note) => Put(w, RxCb(app, note))
      case Advance(_) => Put(w, RunStep(app))
      case Announce(n, nb) => w.(net := w.net + {Announcement(n, nb)})
  }

  function Run(w: World, run: seq<Action>): (w': World)
  {
    if run == [] then w else Step(Run(w, run[..|run| - 1]), run[|run| - 1])
  }

  // ---------------------------------------------------------------- one application

  /** An entry's ids were taken from the generators. */
  predicate VapOk(a: App, v: Vap)
  {
    v.localTunnel < a.tunnelGen && v.localSession < a.sessionGen && v.sport < a.portGen && v.vapId < a.vapGen
  }

  predicate Apart(v: Vap, u: Vap)
  {
    && v.localTunnel != u.localTunnel && v.localSession != u.localSession
    && v.sport != u.sport && v.vapId != u.vapId
  }

  /** At most one VAP and one WTP per neighbour, and no id is shared by two entries of either list. */
  ghost predicate VapsOk(a: App)
  {
    && (forall i | 0 <= i < |a.localVaps| :: VapOk(a, a.localVaps[i]))
    && (forall i | 0 <= i < |a.remoteVaps| :: VapOk(a, a.remoteVaps[i]))
    && (forall i, j | 0 <= i < j < |a.localVaps| ::
          a.localVaps[i].neighbor != a.localVaps[j].neighbor && Apart(a.localVaps[i], a.localVaps[j]))
    && (forall i, j | 0 <= i < j < |a.remoteVaps| ::
          a.remoteVaps[i].neighbor != a.remoteVaps[j].neighbor && Apart(a.remoteVaps[i], a.remoteVaps[j]))
    && (forall i, j | 0 <= i < |a.localVaps| && 0 <= j < |a.remoteVaps| ::
          Apart(a.localVaps[i], a.remoteVaps[j]))
  }

  predicate IsTunnel(f: Iface)
  {
    f.VapTunnel? || f.WtpTunnel?
  }

  /** Base port of a tunnel: 0 (hwsim0) for a VAP, 1 (inject0) for a WTP. */
  function Base(f: Iface): (r: nat)
  {
    if f.VapTunnel? then 0 else 1
  }

  /** The wire joins a tunnel port with the base port of that tunnel. */
  predicate WireOk(sw: Switch, w: Wire)
  {
    || (2 <= w.from < |sw.ports| && w.to == Base(sw.ports[w.from].0))
    || (2 <= w.to < |sw.ports| && w.from == Base(sw.ports[w.to].0))
  }

  /** Ports are numbered in order; 0 and 1 are hwsim0 and inject0, all others tunnels, wired both ways. */
  ghost predicate SwitchOk(sw: Switch)
  {
    && sw.portGen == |sw.ports|
    && (forall p | 0 <= p < |sw.ports| :: sw.ports[p].1 == p)
    && (|sw.ports| > 0 ==> sw.ports[0].0 == Hwsim0)
    && (|sw.ports| > 1 ==> sw.ports[1].0 == Inject0)
    && (forall p | 2 <= p < |sw.ports| ::
          && IsTunnel(sw.ports[p].0)
          && Wire(p, Base(sw.ports[p].0)) in sw.wires && Wire(Base(sw.ports[p].0), p) in sw.wires)
    && (forall i | 0 <= i < |sw.wires| :: WireOk(sw, sw.wires[i]))
  }

  /** The start-up order: nothing but hwsim0 and inject0 gets a port before the application has started. */
  ghost predicate BootOk(a: App)
  {
    && !a.failed
    && match a.boot
       case Idle => a.switch.None?
       case SwitchUp => a.switch.Some? && |a.switch.value.ports| == 0
       case HomeUp => a.switch.Some? && |a.switch.value.ports| == 1
       case MonitorUp => a.switch.Some? && |a.switch.value.ports| == 2
       case Started => a.switch.Some? && |a.switch.value.ports| >= 2
  }

  ghost predicate AppOk(a: App)
  {
    VapsOk(a) && BootOk(a) && (a.switch.Some? ==> SwitchOk(a.switch.value))
  }

  lemma AddTunnelOk(sw: Switch, iface: Iface, wires: seq<Wire>)
    requires SwitchOk(sw) && IsTunnel(iface) && |sw.ports| >= 2
    requires wires == [Wire(sw.portGen, Base(iface)), Wire(Base(iface), sw.portGen)]
             || wires == [Wire(Base(iface), sw.portGen), Wire(sw.portGen, Base(iface))]
    ensures SwitchOk(AddTunnel(sw, iface, wires))
  {
    var s := AddTunnel(sw, iface, wires);
    var p := sw.portGen;
    assert s.ports[p] == (iface, p) && s.wires == sw.wires + wires;
    assert wires[0] in s.wires && wires[1] in s.wires;
    forall i | 0 <= i < |s.wires| ensures WireOk(s, s.wires[i]) {
      if i < |sw.wires| {
        assert WireOk(sw, s.wires[i]);
      }
    }
  }

  lemma AppendLocal(a: App, nb: Host)
    requires VapsOk(a) && FindVap(a.localVaps, nb).None?
    ensures VapsOk(TakeIds(a).(localVaps := a.localVaps + [FreshVap(a, nb, None)]))
  {
  }

  lemma AppendRemote(a: App, nb: Host, remote: Option<Ids>, port: Option<nat>)
    requires VapsOk(a) && FindVap(a.remoteVaps, nb).None?
    ensures VapsOk(TakeIds(a).(remoteVaps := a.remoteVaps + [FreshVap(a, nb, remote).(p4Port := port)]))
  {
  }

  lemma InitializeOk(a: App, nb: Host)
    requires AppOk(a)
    ensures AppOk(InitializeLocalVap(a, nb).app)
  {
    if FindVap(a.localVaps, nb).None? {
      AppendLocal(a, nb);
    }
  }

  lemma CreateOk(a: App, peer: Host, ids: Ids)
    requires AppOk(a) && a.boot == Started
    ensures AppOk(CreateRemoteVap(a, peer, ids).app)
  {
    if FindVap(a.remoteVaps, peer).None? {
      var p := a.switch.value.portGen;
      AppendRemote(a, peer, Some(ids), Some(p));
      AddTunnelOk(a.switch.value, WtpTunnel(a.tunnelGen), [Wire(p, 1), Wire(1, p)]);
    }
  }

  lemma CompleteOk(a: App, peer: Host, ids: Ids)
    requires AppOk(a) && a.boot == Started
    ensures AppOk(CompleteLocalVap(a, peer, ids))
  {
    var i := FindVap(a.localVaps, peer);
    if i.Some? {
      var p := a.switch.value.portGen;
      AddTunnelOk(a.switch.value, VapTunnel(a.localVaps[i.value].localTunnel), [Wire(0, p), Wire(p, 0)]);
    }
  }

  lemma RemoveOk(a: App, nb: Host)
    requires AppOk(a)
    ensures AppOk(RemoveVap(a, nb))
  {
  }

  lemma ProcessOk(a: App, note: Note)
    requires AppOk(a) && a.boot == Started
    ensures AppOk(ProcessMsg(a, note).app)
  {
    match note {
      case CreateRequest(peer, _, ids) => CreateOk(a, peer, ids);
      case CreateCompleted(peer, _, ids) => CompleteOk(a, peer, ids);
      case Announcement(_, _) =>
    }
  }

  lemma RunStepOk(a: App)
    requires AppOk(a)
    ensures AppOk(RunStep(a).app) && RunStep(a).app.hostname == a.hostname
  {
    if a.boot == Started && a.queue != [] {
      ProcessOk(a.(queue := a.queue[1..]), a.queue[0]);
    }
  }

  // ---------------------------------------------------------------- all runs

  ghost predicate OkAt(w: World, h: Host)
  {
    h in w.apps ==> w.apps[h].hostname == h && AppOk(w.apps[h])
  }

  ghost predicate Ok(w: World)
  {
    forall h :: OkAt(w, h)
  }

  lemma PutOk(w: World, r: Outcome)
    requires Ok(w) && r.app.hostname in w.apps && AppOk(r.app)
    ensures Ok(Put(w, r)) && Put(w, r).apps.Keys == w.apps.Keys && w.net <= Put(w, r).net
  {
    forall h ensures OkAt(Put(w, r), h) {
      assert OkAt(w, h);
    }
  }

  lemma StepOk(w: World, a: Action)
    requires Ok(w)
    ensures Ok(Step(w, a)) && Step(w, a).apps.Keys == w.apps.Keys && w.net <= Step(w, a).net
  {
    if Enabled(w, a) {
      assert OkAt(w, a.n);
      var app := w.apps[a.n];
      match a {
        case NewLink(_, nb) =>
          InitializeOk(app, nb);
          PutOk(w, InitializeLocalVap(app, nb));
        case LinkFailure(_, nb) =>
          RemoveOk(app, nb);
          PutOk(w, Outcome(RemoveVap(app, nb), None));
        case Deliver(_, note) =>
          DeliverOk(app, note);
          PutOk(w, RxCb(app, note));
        case Advance(_) =>
          RunStepOk(app);
          PutOk(w, RunStep(app));
        case Announce(_, _) =>
          forall h ensures OkAt(Step(w, a), h) {
            assert OkAt(w, h);
          }
      }
    }
  }

  lemma DeliverOk(a: App, note: Note)
    requires AppOk(a)
    ensures AppOk(RxCb(a, note).app) && RxCb(a, note).app.hostname == a.hostname
  {
    if a.boot == Started {
      ProcessOk(a, note);
    }
  }

  lemma {:induction false} RunOk(hosts: set<Host>, run: seq<Action>)
    ensures Ok(Run(Start(hosts), run)) && Run(Start(hosts), run).apps.Keys == hosts
  {
    if run == [] {
      assert Start(hosts).apps.Keys == hosts;
      forall h ensures OkAt(Start(hosts), h) {
      }
    } else {
      RunOk(hosts, run[..|run| - 1]);
      StepOk(Run(Start(hosts), run[..|run| - 1]), run[|run| - 1]);
    }
  }

  /**
    In every run, link failures included, each node has at most one VAP and one WTP per neighbour, and tunnel
    ids, session ids, UDP ports and VAP ids are pairwise distinct across both lists.
   */
  lemma IdsAreUnique(hosts: set<Host>, run: seq<Action>, h: Host)
    requires h in hosts
    ensures var w := Run(Start(hosts), run); h in w.apps && VapsOk(w.apps[h])
  {
    RunOk(hosts, run);
    assert OkAt(Run(Start(hosts), run), h);
  }

  /**
    In every run the start-up order gives hwsim0 port 0 and inject0 port 1, every tunnel a port of its own of
    at least 2, and every wire joins a tunnel port with 0 (VAP) or 1 (WTP); no look-up of the switch fails.
   */
  lemma P4WiringIsSafe(hosts: set<Host>, run: seq<Action>, h: Host)
    requires h in hosts
    ensures var w := Run(Start(hosts), run);
            && h in w.apps && BootOk(w.apps[h])
            && (w.apps[h].switch.Some? ==> SwitchOk(w.apps[h].switch.value))
            && (w.apps[h].switch.Some? ==>
                  forall i | 0 <= i < |w.apps[h].switch.value.wires| ::
                    && var x := w.apps[h].switch.value.wires[i];
                    && ((x.from >= 2 && x.to < 2) || (x.from < 2 && x.to >= 2)))
  {
    RunOk(hosts, run);
    var w := Run(Start(hosts), run);
    assert OkAt(w, h);
    if w.apps[h].switch.Some? {
      var sw := w.apps[h].switch.value;
      forall i | 0 <= i < |sw.wires| ensures WireOk(sw, sw.wires[i]) {
      }
    }
  }
}
