/**
  Tunnels and the switch: every completed VAP and every WTP has a port of its own there, wired to the base port of
  its kind in both directions.
 */
module SwitchWiring {
  import opened Agent
  import opened Cran
  import opened CranNetwork

  /** Port p belongs to the interface and is wired to the base port, 0 for a VAP and 1 for a WTP, both ways. */
  predicate PortFor(sw: Switch, iface: Iface, p: nat)
  {
    && 2 <= p < |sw.ports| && sw.ports[p] == (iface, p)
    && Wire(p, if iface.VapTunnel? then 0 else 1) in sw.wires
    && Wire(if iface.VapTunnel? then 0 else 1, p) in sw.wires
  }

  predicate Connected(a: App, v: Vap, iface: Iface)
  {
    a.switch.Some? && v.p4Port.Some? && PortFor(a.switch.value, iface, v.p4Port.value)
  }

  /** A VAP is connected from its completion on, a WTP from its creation on. */
  predicate LocalConnected(a: App, v: Vap)
  {
    if v.remote.Some? then Connected(a, v, VapTunnel(v.localTunnel)) else v.p4Port.None?
  }

  predicate RemoteConnected(a: App, v: Vap)
  {
    v.remote.Some? && Connected(a, v, WtpTunnel(v.localTunnel))
  }

  ghost predicate AllConnected(a: App)
  {
    && (forall i | 0 <= i < |a.localVaps| :: LocalConnected(a, a.localVaps[i]))
    && (forall i | 0 <= i < |a.remoteVaps| :: RemoteConnected(a, a.remoteVaps[i]))
  }

  /** The switch has only got more. */
  predicate SwitchGrows(s: Switch, t: Switch)
  {
    && |s.ports| <= |t.ports| && t.ports[..|s.ports|] == s.ports
    && forall w | w in s.wires :: w in t.wires
  }

  lemma ConnectedGrows(a: App, b: App, v: Vap, iface: Iface)
    requires Connected(a, v, iface) && b.switch.Some? && SwitchGrows(a.switch.value, b.switch.value)
    ensures Connected(b, v, iface)
  {
    var p := v.p4Port.value;
    assert b.switch.value.ports[..|a.switch.value.ports|][p] == a.switch.value.ports[p];
  }

  lemma EntryGrows(a: App, b: App, v: Vap)
    requires a.switch.Some? && b.switch.Some? && SwitchGrows(a.switch.value, b.switch.value)
    ensures LocalConnected(a, v) ==> LocalConnected(b, v)
    ensures RemoteConnected(a, v) ==> RemoteConnected(b, v)
  {
    if Connected(a, v, VapTunnel(v.localTunnel)) {
      ConnectedGrows(a, b, v, VapTunnel(v.localTunnel));
    }
    if Connected(a, v, WtpTunnel(v.localTunnel)) {
      ConnectedGrows(a, b, v, WtpTunnel(v.localTunnel));
    }
  }

  lemma TunnelAdded(sw: Switch, iface: Iface, wires: seq<Wire>)
    requires SwitchOk(sw) && IsTunnel(iface) && |sw.ports| >= 2
    requires Wire(sw.portGen, Base(iface)) in wires && Wire(Base(iface), sw.portGen) in wires
    ensures SwitchGrows(sw, AddTunnel(sw, iface, wires)) && PortFor(AddTunnel(sw, iface, wires), iface, sw.portGen)
  {
    var s := AddTunnel(sw, iface, wires);
    assert s.ports == sw.ports + [(iface, sw.portGen)] && s.wires == sw.wires + wires;
    assert forall w | w in sw.wires :: w in s.wires;
    assert forall w | w in wires :: w in s.wires;
  }

  lemma CreateConnects(a: App, peer: Host, ids: Ids)
    requires AppOk(a) && a.boot == Started && AllConnected(a)
    ensures AllConnected(CreateRemoteVap(a, peer, ids).app)
  {
    if FindVap(a.remoteVaps, peer).None? {
      var b := CreateRemoteVap(a, peer, ids).app;
      var p := a.switch.value.portGen;
      TunnelAdded(a.switch.value, WtpTunnel(a.tunnelGen), [Wire(p, 1), Wire(1, p)]);
      forall i | 0 <= i < |b.localVaps| ensures LocalConnected(b, b.localVaps[i]) {
        EntryGrows(a, b, a.localVaps[i]);
      }
      forall i | 0 <= i < |b.remoteVaps| ensures RemoteConnected(b, b.remoteVaps[i]) {
        if i < |a.remoteVaps| {
          EntryGrows(a, b, a.remoteVaps[i]);
        }
      }
    }
  }

  lemma CompleteConnects(a: App, peer: Host, ids: Ids)
    requires AppOk(a) && a.boot == Started && AllConnected(a)
    ensures AllConnected(CompleteLocalVap(a, peer, ids))
  {
    var k := FindVap(a.localVaps, peer);
    if k.Some? {
      var b := CompleteLocalVap(a, peer, ids);
      var p := a.switch.value.portGen;
      TunnelAdded(a.switch.value, VapTunnel(a.localVaps[k.value].localTunnel), [Wire(0, p), Wire(p, 0)]);
      forall i | 0 <= i < |b.localVaps| ensures LocalConnected(b, b.localVaps[i]) {
        if i != k.value {
          EntryGrows(a, b, a.localVaps[i]);
        }
      }
      forall i | 0 <= i < |b.remoteVaps| ensures RemoteConnected(b, b.remoteVaps[i]) {
        EntryGrows(a, b, a.remoteVaps[i]);
      }
    }
  }

  lemma ProcessConnects(a: App, note: Note)
    requires AppOk(a) && a.boot == Started && AllConnected(a)
    ensures AllConnected(ProcessMsg(a, note).app)
  {
    match note {
      case CreateRequest(peer, _, ids) => CreateConnects(a, peer, ids);
      case CreateCompleted(peer, _, ids) => CompleteConnects(a, peer, ids);
      case Announcement(_, _) =>
    }
  }

  /** Before the start there is nothing to connect but requests under way. */
  ghost predicate NothingYet(a: App)
  {
    a.boot != Started ==> a.remoteVaps == [] && forall i | 0 <= i < |a.localVaps| :: a.localVaps[i].remote.None?
  }

  ghost predicate ConnectedAt(w: World, h: Host)
  {
    h in w.apps ==> AllConnected(w.apps[h]) && NothingYet(w.apps[h])
  }

  lemma LinkConnects(a: App, nb: Host)
    requires AllConnected(a) && NothingYet(a)
    ensures var b := InitializeLocalVap(a, nb).app; AllConnected(b) && NothingYet(b)
    ensures AllConnected(RemoveVap(a, nb)) && NothingYet(RemoveVap(a, nb))
  {
    var b := InitializeLocalVap(a, nb).app;
    forall i | 0 <= i < |b.localVaps| ensures LocalConnected(b, b.localVaps[i]) {
      if i < |a.localVaps| {
        assert LocalConnected(a, a.localVaps[i]);
      }
    }
    forall i | 0 <= i < |b.remoteVaps| ensures RemoteConnected(b, b.remoteVaps[i]) {
      assert RemoteConnected(a, a.remoteVaps[i]);
    }
    RemoveConnects(a, nb);
  }

  lemma RemoveConnects(a: App, nb: Host)
    requires AllConnected(a) && NothingYet(a)
    ensures AllConnected(RemoveVap(a, nb)) && NothingYet(RemoveVap(a, nb))
  {
    var k := FindVap(a.localVaps, nb);
    if k.Some? {
      var b := RemoveVap(a, nb);
      forall i | 0 <= i < |b.localVaps|
        ensures LocalConnected(b, b.localVaps[i]) && (a.boot != Started ==> b.localVaps[i].remote.None?)
      {
        assert LocalConnected(a, a.localVaps[if i < k.value then i else i + 1]);
      }
      forall i | 0 <= i < |b.remoteVaps| ensures RemoteConnected(b, b.remoteVaps[i]) {
        assert RemoteConnected(a, a.remoteVaps[i]);
      }
    }
  }

  lemma SameEntriesConnect(a: App, b: App)
    requires AllConnected(a) && b.localVaps == a.localVaps && b.remoteVaps == a.remoteVaps && b.switch == a.switch
    ensures AllConnected(b)
  {
    forall i | 0 <= i < |b.localVaps| ensures LocalConnected(b, b.localVaps[i]) {
      assert LocalConnected(a, a.localVaps[i]);
    }
    forall i | 0 <= i < |b.remoteVaps| ensures RemoteConnected(b, b.remoteVaps[i]) {
      assert RemoteConnected(a, a.remoteVaps[i]);
    }
  }

  lemma RxConnects(a: App, note: Note)
    requires AppOk(a) && AllConnected(a) && NothingYet(a)
    ensures var b := RxCb(a, note).app; AllConnected(b) && NothingYet(b)
  {
    if a.boot == Started {
      ProcessConnects(a, note);
    } else {
      SameEntriesConnect(a, RxCb(a, note).app);
    }
  }

  lemma BootConnects(a: App)
    requires AllConnected(a) && NothingYet(a) && a.boot != Started
    ensures var b := RunStep(a).app; AllConnected(b) && NothingYet(b)
  {
    var b := RunStep(a).app;
    forall i | 0 <= i < |b.localVaps| ensures LocalConnected(b, b.localVaps[i]) {
      assert LocalConnected(a, a.localVaps[i]);
    }
  }

  lemma RunStepConnects(a: App)
    requires AppOk(a) && AllConnected(a) && NothingYet(a)
    ensures var b := RunStep(a).app; AllConnected(b) && NothingYet(b)
  {
    if a.boot != Started {
      BootConnects(a);
    } else if a.queue != [] {
      var b := a.(queue := a.queue[1..]);
      SameEntriesConnect(a, b);
      ProcessConnects(b, a.queue[0]);
    }
  }

  lemma AppConnects(a: App, act: Action)
    requires AppOk(a) && AllConnected(a) && NothingYet(a)
    ensures act.NewLink? ==> var b := InitializeLocalVap(a, act.nb).app; AllConnected(b) && NothingYet(b)
    ensures act.LinkFailure? ==> AllConnected(RemoveVap(a, act.nb)) && NothingYet(RemoveVap(a, act.nb))
    ensures act.Deliver? ==> var b := RxCb(a, act.note).app; AllConnected(b) && NothingYet(b)
    ensures act.Advance? ==> var b := RunStep(a).app; AllConnected(b) && NothingYet(b)
  {
    match act {
      case NewLink(_, nb) => LinkConnects(a, nb);
      case LinkFailure(_, nb) => LinkConnects(a, nb);
      case Deliver(_, note) => RxConnects(a, note);
      case Advance(_) => RunStepConnects(a);
      case Announce(_, _) =>
    }
  }

  lemma StepConnects(w: World, act: Action, h: Host)
    requires Ok(w) && ConnectedAt(w, h)
    ensures ConnectedAt(Step(w, act), h)
  {
    if Enabled(w, act) {
      assert OkAt(w, act.n);
      StepOk(w, act);
      if act.n == h {
        AppConnects(w.apps[h], act);
      }
    }
  }

  lemma {:induction false} RunConnects(hosts: set<Host>, run: seq<Action>, h: Host)
    ensures ConnectedAt(Run(Start(hosts), run), h)
  {
    if run != [] {
      RunConnects(hosts, run[..|run| - 1], h);
      RunOk(hosts, run[..|run| - 1]);
      StepConnects(Run(Start(hosts), run[..|run| - 1]), run[|run| - 1], h);
    }
  }

  /** Two different entries, of whichever lists, that have ports have different ones. */
  ghost predicate PortsApart(a: App)
  {
    && (forall i, j | 0 <= i < j < |a.localVaps| && a.localVaps[i].p4Port.Some? ::
          a.localVaps[i].p4Port != a.localVaps[j].p4Port)
    && (forall i, j | 0 <= i < j < |a.remoteVaps| :: a.remoteVaps[i].p4Port != a.remoteVaps[j].p4Port)
    && (forall i, j | 0 <= i < |a.localVaps| && 0 <= j < |a.remoteVaps| ::
          a.localVaps[i].p4Port != a.remoteVaps[j].p4Port)
  }

  lemma ConnectedApart(a: App)
    requires VapsOk(a) && AllConnected(a)
    ensures PortsApart(a)
  {
    forall i, j | 0 <= i < j < |a.localVaps| && a.localVaps[i].p4Port.Some?
      ensures a.localVaps[i].p4Port != a.localVaps[j].p4Port
    {
      assert LocalConnected(a, a.localVaps[i]) && LocalConnected(a, a.localVaps[j]);
    }
    forall i, j | 0 <= i < j < |a.remoteVaps| ensures a.remoteVaps[i].p4Port != a.remoteVaps[j].p4Port {
      assert RemoteConnected(a, a.remoteVaps[i]) && RemoteConnected(a, a.remoteVaps[j]);
    }
    forall i, j | 0 <= i < |a.localVaps| && 0 <= j < |a.remoteVaps|
      ensures a.localVaps[i].p4Port != a.remoteVaps[j].p4Port
    {
      assert LocalConnected(a, a.localVaps[i]) && RemoteConnected(a, a.remoteVaps[j]);
    }
  }

  /**
    In every run, for every node: a VAP is connected to the switch exactly from its completion on and a WTP always,
    by a port of its own that carries its tunnel and is wired to the base port of its kind both ways.
   */
  lemma EveryTunnelIsConnected(hosts: set<Host>, run: seq<Action>, h: Host)
    requires h in hosts
    ensures var w := Run(Start(hosts), run); h in w.apps && AllConnected(w.apps[h]) && PortsApart(w.apps[h])
  {
    RunConnects(hosts, run, h);
    RunOk(hosts, run);
    IdsAreUnique(hosts, run, h);
    ConnectedApart(Run(Start(hosts), run).apps[h]);
  }
}
