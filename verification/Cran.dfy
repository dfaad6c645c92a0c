/**
  The virtual-AP application of one node (framework/apps/cran.py): the VAP manager with its id generators,
  the P4 switch manager, the start-up sequence and the message queue in front of it.

  The state is the value `App`; class `ResFiApp` updates the same fields in place and is proved to compute the
  functions on `App` that module CranNetwork is built from.
 */
module Cran {
  import opened Agent

  /** One end of a tunnel.  The remote half is filled in from the peer's message. */
  datatype Vap = Vap(
    vapId: nat,
    neighbor: Host,
    localTunnel: nat,
    localSession: nat,
    sport: nat,
    remote: Option<Ids>,
    p4Port: Option<nat>)

  datatype Ids = Ids(tunnel: nat, session: nat, port: nat)

  function LocalIds(v: Vap): (r: Ids)
  {
    Ids(v.localTunnel, v.localSession, v.sport)
  }

  datatype Iface = Hwsim0 | Inject0 | VapTunnel(id: nat) | WtpTunnel(id: nat)

  datatype Wire = Wire(from: nat, to: nat)

  datatype Switch = Switch(portGen: nat, ports: seq<(Iface, nat)>, wires: seq<Wire>)

  datatype Note =
    | CreateRequest(peer: Host, dst: Host, ids: Ids)
    | CreateCompleted(peer: Host, dst: Host, ids: Ids)
    | Announcement(peer: Host, dst: Host)

  /** How far the start-up thread has come. */
  datatype Boot = Idle | SwitchUp | HomeUp | MonitorUp | Started

  datatype App = App(
    hostname: Host,
    localVaps: seq<Vap>,
    remoteVaps: seq<Vap>,
    vapGen: nat,
    tunnelGen: nat,
    sessionGen: nat,
    portGen: nat,
    switch: Option<Switch>,
    boot: Boot,
    queue: seq<Note>,
    failed: bool)

  function NewApp(hostname: Host): (a: App)
  {
    App(hostname, [], [], 0, 1000, 1000, 5001, None, Idle, [], false)
  }

  /** First entry for the neighbour, as the look-up loops find it. */
  function FindVap(vaps: seq<Vap>, nb: Host, start: nat := 0): (r: Option<nat>)
    requires start <= |vaps|
    ensures r.Some? ==> start <= r.value < |vaps| && vaps[r.value].neighbor == nb
    ensures r.Some? ==> forall j | start <= j < r.value :: vaps[j].neighbor != nb
    ensures r.None? ==> forall j | start <= j < |vaps| :: vaps[j].neighbor != nb
    decreases |vaps| - start
  {
    if start == |vaps| then None
    else if vaps[start].neighbor == nb then Some(start)
    else FindVap(vaps, nb, start + 1)
  }

  // ---------------------------------------------------------------- P4 switch

  function AddPort(sw: Switch, iface: Iface): (r: Switch)
  {
    Switch(sw.portGen + 1, sw.ports + [(iface, sw.portGen)], sw.wires)
  }

  /** A tunnel port is added and wired to the base port in both directions. */
  function AddTunnel(sw: Switch, iface: Iface, wires: seq<Wire>): (r: Switch)
  {
    var s := AddPort(sw, iface);
    s.(wires := s.wires + wires)
  }

  // ---------------------------------------------------------------- VAP manager

  /** The new entry takes one id from each generator. */
  function FreshVap(a: App, nb: Host, remote: Option<Ids>): (v: Vap)
  {
    Vap(a.vapGen, nb, a.tunnelGen, a.sessionGen, a.portGen, remote, None)
  }

  function TakeIds(a: App): (r: App)
  {
    a.(vapGen := a.vapGen + 1, tunnelGen := a.tunnelGen + 1, sessionGen := a.sessionGen + 1,
       portGen := a.portGen + 1)
  }

  datatype Outcome = Outcome(app: App, out: Option<Note>)

  function InitializeLocalVap(a: App, nb: Host): (r: Outcome)
  {
    if FindVap(a.localVaps, nb).Some? then Outcome(a, None)
    else
      var v := FreshVap(a, nb, None);
      Outcome(TakeIds(a).(localVaps := a.localVaps + [v]), Some(CreateRequest(a.hostname, nb, LocalIds(v))))
  }

  function CreateRemoteVap(a: App, peer: Host, ids: Ids): (r: Outcome)
  {
    if FindVap(a.remoteVaps, peer).Some? then Outcome(a, None)
    else
      var v := FreshVap(a, peer, Some(ids));
      var reply := Some(CreateCompleted(a.hostname, peer, LocalIds(v)));
      if a.switch.None? then
        Outcome(TakeIds(a).(remoteVaps := a.remoteVaps + [v], failed := true), reply)
      else
        var p := a.switch.value.portGen;
        Outcome(TakeIds(a).(
                  remoteVaps := a.remoteVaps + [v.(p4Port := Some(p))],
                  switch := Some(AddTunnel(a.switch.value, WtpTunnel(v.localTunnel), [Wire(p, 1), Wire(1, p)]))),
                reply)
  }

  function CompleteLocalVap(a: App, peer: Host, ids: Ids): (r: App)
  {
    var i := FindVap(a.localVaps, peer);
    if i.None? then a
    else
      var v := a.localVaps[i.value].(remote := Some(ids));
      if a.switch.None? then a.(localVaps := a.localVaps[i.value := v], failed := true)
      else
        var p := a.switch.value.portGen;
        a.(localVaps := a.localVaps[i.value := v.(p4Port := Some(p))],
           switch := Some(AddTunnel(a.switch.value, VapTunnel(v.localTunnel), [Wire(0, p), Wire(p, 0)])))
  }

  function RemoveVap(a: App, nb: Host): (r: App)
  {
    var i := FindVap(a.localVaps, nb);
    if i.None? then a else a.(localVaps := a.localVaps[..i.value] + a.localVaps[i.value + 1..])
  }

  // ---------------------------------------------------------------- messages and start-up

  function ProcessMsg(a: App, note: Note): (r: Outcome)
  {
    match note
    case CreateRequest(peer, _, ids) => CreateRemoteVap(a, peer, ids)
    case CreateCompleted(peer, _, ids) => Outcome(CompleteLocalVap(a, peer, ids), None)
    case Announcement(_, _) => Outcome(a, None)
  }

  /** rx_cb: queue before the start, process afterwards. */
  function RxCb(a: App, note: Note): (r: Outcome)
  {
    if a.boot != Started then Outcome(a.(queue := a.queue + [note]), None) else ProcessMsg(a, note)
  }

  /** The next step of run(): switch, hwsim0, inject0, started, and then the queued messages one by one. */
  function RunStep(a: App): (r: Outcome)
  {
    match a.boot
    case Idle => Outcome(a.(switch := Some(Switch(0, [], [])), boot := SwitchUp), None)
    case SwitchUp =>
      if a.switch.None? then Outcome(a.(failed := true), None)
      else Outcome(a.(switch := Some(AddPort(a.switch.value, Hwsim0)), boot := HomeUp), None)
    case HomeUp =>
      if a.switch.None? then Outcome(a.(failed := true), None)
      else Outcome(a.(switch := Some(AddPort(a.switch.value, Inject0)), boot := MonitorUp), None)
    case MonitorUp => Outcome(a.(boot := Started), None)
    case Started =>
      if a.queue == [] then Outcome(a, None)
      else ProcessMsg(a.(queue := a.queue[1..]), a.queue[0])
  }

  // ---------------------------------------------------------------- the application object

  class ResFiApp {
    const hostname: Host
    var localVaps: seq<Vap>
    var remoteVaps: seq<Vap>
    var vapIdGenerator: nat
    var tunnelIdGenerator: nat
    var sessionIdGenerator: nat
    var portGenerator: nat
    var switch: Option<Switch>
    var boot: Boot
    var msgQueue: seq<Note>
    var failed: bool

    function State(): (a: App)
      reads this
    {
      App(hostname, localVaps, remoteVaps, vapIdGenerator, tunnelIdGenerator, sessionIdGenerator, portGenerator,
          switch, boot, msgQueue, failed)
    }

    constructor (hostname: Host)
      ensures this.hostname == hostname && State() == NewApp(hostname)
      ensures vapIdGenerator == 0 && tunnelIdGenerator == sessionIdGenerator == 1000 && portGenerator == 5001
      ensures localVaps == remoteVaps == [] && msgQueue == [] && switch.None? && boot == Idle && !failed
    {
      this.hostname := hostname;
      localVaps, remoteVaps, msgQueue := [], [], [];
      vapIdGenerator, tunnelIdGenerator, sessionIdGenerator, portGenerator := 0, 1000, 1000, 5001;
      switch, boot, failed := None, Idle, false;
    }

    method GetVapByNeighbor(vaps: seq<Vap>, nb: Host) returns (r: Option<nat>)
      ensures r == FindVap(vaps, nb)
    {
      var i := 0;
      while i < |vaps|
        invariant 0 <= i <= |vaps|
        invariant FindVap(vaps, nb) == FindVap(vaps, nb, i)
      {
        if vaps[i].neighbor == nb {
          return Some(i);
        }
        i := i + 1;
      }
      r := None;
    }

    method GenerateIds() returns (vapId: nat, ids: Ids)
      modifies this`vapIdGenerator, this`tunnelIdGenerator, this`sessionIdGenerator, this`portGenerator
      ensures State() == TakeIds(old(State()))
      ensures vapId == old(vapIdGenerator)
      ensures ids == Ids(old(tunnelIdGenerator), old(sessionIdGenerator), old(portGenerator))
    {
      vapId := vapIdGenerator;
      vapIdGenerator := vapIdGenerator + 1;
      ids := Ids(tunnelIdGenerator, sessionIdGenerator, portGenerator);
      tunnelIdGenerator := tunnelIdGenerator + 1;
      sessionIdGenerator := sessionIdGenerator + 1;
      portGenerator := portGenerator + 1;
    }

    method InitializeLocal(nb: Host) returns (out: Option<Note>)
      modifies this
      ensures Outcome(State(), out) == InitializeLocalVap(old(State()), nb)
    {
      var found := GetVapByNeighbor(localVaps, nb);
      if found.Some? {
        return None;
      }
      var vapId, ids := GenerateIds();
      localVaps := localVaps + [Vap(vapId, nb, ids.tunnel, ids.session, ids.port, None, None)];
      out := Some(CreateRequest(hostname, nb, ids));
    }

    method CreateRemote(peer: Host, remote: Ids) returns (out: Option<Note>)
      modifies this
      ensures Outcome(State(), out) == CreateRemoteVap(old(State()), peer, remote)
    {
      var found := GetVapByNeighbor(remoteVaps, peer);
      if found.Some? {
        return None;
      }
      var vapId, ids := GenerateIds();
      var v := Vap(vapId, peer, ids.tunnel, ids.session, ids.port, Some(remote), None);
      out := Some(CreateCompleted(hostname, peer, ids));
      if switch.None? {
        remoteVaps := remoteVaps + [v];
        failed := true;
        return;
      }
      var port := AddSwitchPort(WtpTunnel(v.localTunnel));
      remoteVaps := remoteVaps + [v.(p4Port := Some(port))];
      AddWire(port, 1);
      AddWire(1, port);
      assert switch.value.wires == old(switch.value.wires) + [Wire(port, 1), Wire(1, port)];
    }

    method CompleteLocal(peer: Host, remote: Ids)
      modifies this
      ensures State() == CompleteLocalVap(old(State()), peer, remote)
    {
      var found := GetVapByNeighbor(localVaps, peer);
      if found.None? {
        return;
      }
      var v := localVaps[found.value].(remote := Some(remote));
      localVaps := localVaps[found.value := v];
      if switch.None? {
        failed := true;
        return;
      }
      var port := AddSwitchPort(VapTunnel(v.localTunnel));
      localVaps := localVaps[found.value := v.(p4Port := Some(port))];
      AddWire(0, port);
      AddWire(port, 0);
      assert switch.value.wires == old(switch.value.wires) + [Wire(0, port), Wire(port, 0)];
      assert localVaps == old(localVaps)[found.value := v.(p4Port := Some(port))];
    }

    method Remove(nb: Host)
      modifies this`localVaps
      ensures State() == RemoveVap(old(State()), nb)
    {
      var found := GetVapByNeighbor(localVaps, nb);
      if found.Some? {
        localVaps := localVaps[..found.value] + localVaps[found.value + 1..];
      }
    }

    method AddSwitchPort(iface: Iface) returns (port: nat)
      requires switch.Some?
      modifies this`switch
      ensures switch == Some(AddPort(old(switch.value), iface)) && port == old(switch.value.portGen)
    {
      port := switch.value.portGen;
      var sw := switch.value.(portGen := port + 1);
      switch := Some(sw.(ports := sw.ports + [(iface, port)]));
    }

    method AddWire(from: nat, to: nat)
      requires switch.Some?
      modifies this`switch
      ensures switch == Some(old(switch.value).(wires := old(switch.value.wires) + [Wire(from, to)]))
    {
      switch := Some(switch.value.(wires := switch.value.wires + [Wire(from, to)]));
    }

    method Process(note: Note) returns (out: Option<Note>)
      modifies this
      ensures Outcome(State(), out) == ProcessMsg(old(State()), note)
    {
      out := None;
      match note {
        case CreateRequest(peer, _, ids) => out := CreateRemote(peer, ids);
        case CreateCompleted(peer, _, ids) => CompleteLocal(peer, ids);
        case Announcement(_, _) =>
      }
    }

    method Rx(note: Note) returns (out: Option<Note>)
      modifies this
      ensures Outcome(State(), out) == RxCb(old(State()), note)
    {
      if boot != Started {
        msgQueue := msgQueue + [note];
        return None;
      }
      out := Process(note);
    }

    method RunNext() returns (out: Option<Note>)
      modifies this
      ensures Outcome(State(), out) == RunStep(old(State()))
    {
      out := None;
      match boot {
        case Idle =>
          switch := Some(Switch(0, [], []));
          boot := SwitchUp;
        case SwitchUp =>
          if switch.None? {
            failed := true;
            return;
          }
          var _ := AddSwitchPort(Hwsim0);
          boot := HomeUp;
        case HomeUp =>
          if switch.None? {
            failed := true;
            return;
          }
          var _ := AddSwitchPort(Inject0);
          boot := MonitorUp;
        case MonitorUp =>
          boot := Started;
        case Started =>
          if msgQueue != [] {
            var note := msgQueue[0];
            msgQueue := msgQueue[1..];
            out := Process(note);
          }
      }
    }
  }
}
