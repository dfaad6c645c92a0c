/**
  N agents, their subscriptions and the copies in flight between them, as a transition system.

  Each iteration of a receive loop, each send and each change of keys or neighbours is one atomic action;
  a run is an arbitrary list of actions, so every interleaving, delay, reordering and loss is covered.
 */
module Network {
  import opened Agent

  /** A copy on its way: from the own send socket, from another forwarder, or to the own receive loop. */
  datatype Copy =
    | Local(dst: Host, m: Msg)
    | Net(dst: Host, m: Msg)
    | Rx(dst: Host, m: Msg)

  /** What the origin meant to send: the text, the bytes it signed, and the initial TTL on the wire. */
  datatype Origin = Origin(text: Bytes, signed: Bytes, ttl: int, rec: Rec, kind: Kind)

  datatype Pub = Pub(node: Host, m: Msg)
  datatype Got = Got(node: Host, host: Host, id: nat, plain: Bytes)

  /** `(n, p) in radio` says that n can hear p.  `sent`, `pubs` and `got` record the history. */
  datatype System = System(
    nodes: map<Host, Node>,
    radio: set<(Host, Host)>,
    flight: multiset<Copy>,
    sent: map<(Host, nat), Origin>,
    pubs: seq<Pub>,
    got: seq<Got>)

  datatype Action =
    | SendAll(n: Host, text: string, ttl: int)
    | SendTo(n: Host, to: Host, text: string)
    | Fwd(c: Copy)
    | Rcv(c: Copy, newKey: Key)
    | Lose(c: Copy)
    | Rotate(n: Host, newKey: Key, freq: int, ssid: string)
    | Join(n: Host, scan: Scan)
    | Refresh(n: Host, scan: Scan)
    | Leave(n: Host, host: Host)

  function Start(keys: map<Host, Key>, radio: set<(Host, Host)>): (s: System)
  {
    System(map h | h in keys :: Boot(h, keys[h]), radio, multiset{}, map[], [], [])
  }

  /** Scans are honest about names and public keys; the group key they report may be any, fresh or stale. */
  predicate Enabled(s: System, a: Action)
  {
    match a
    case SendAll(n, _, _) => n in s.nodes
    case SendTo(n, to, _) => n in s.nodes && to != n
    case Fwd(c) => c in s.flight && !c.Rx? && c.dst in s.nodes
    case Rcv(c, _) => c in s.flight && c.Rx? && c.dst in s.nodes
    case Lose(c) => c in s.flight
    case Rotate(n, _, _, _) => n in s.nodes
    case Join(n, scan) => HonestScan(s, n, scan)
    case Refresh(n, scan) => HonestScan(s, n, scan) && scan.host in s.nodes[n].nbrs
    case Leave(n, host) => n in s.nodes && host != n
  }

  predicate HonestScan(s: System, n: Host, scan: Scan)
  {
    && n in s.nodes && scan.host in s.nodes && scan.host != n
    && (n, scan.host) in s.radio && scan.pubKey == Some(scan.host)
  }

  function SetNode(s: System, n: Node): (r: System)
  {
    s.(nodes := s.nodes[n.name := n])
  }

  /** The agent accepted a send: its copy is on the own send socket and the intention is recorded. */
  function Emit(s: System, out: Option<Msg>, text: Bytes): (r: System)
  {
    if out.None? then s
    else
      var m := out.value;
      s.(flight := s.flight + multiset{Local(m.host, m)},
         sent := s.sent[(m.host, m.id) := Origin(text, m.sig.over, m.ttl, m.rec, m.kind)])
  }

  function SendStep(s: System, r: Sending, text: Bytes): (s': System)
  {
    Emit(SetNode(s, r.node), r.out, text)
  }

  function Subscribers(s: System, p: Host): (r: set<Host>)
  {
    set n | n in s.nodes && n != p && p in s.nodes[n].nbrs
  }

  function NetCopies(s: System, p: Host, m: Msg): (r: set<Copy>)
  {
    set n | n in Subscribers(s, p) :: Net(n, m)
  }

  /** A published message goes to every subscribed forwarder and to the publisher's own receive loop. */
  function Fanout(s: System, p: Host, m: Msg): (r: multiset<Copy>)
  {
    multiset(NetCopies(s, p, m)) + multiset{Rx(p, m)}
  }

  function FwdStep(garble: Garble, s: System, c: Copy): (s': System)
    requires c.dst in s.nodes
  {
    AfterForward(s, c, Forward(garble, s.nodes[c.dst], c.m))
  }

  function AfterForward(s: System, c: Copy, r: Forwarding): (s': System)
  {
    var s1 := SetNode(s, r.node).(flight := s.flight - multiset{c});
    if r.out.None? then s1
    else s1.(flight := s1.flight + Fanout(s, c.dst, r.out.value), pubs := s.pubs + [Pub(c.dst, r.out.value)])
  }

  function RcvStep(garble: Garble, s: System, c: Copy, newKey: Key): (s': System)
    requires c.dst in s.nodes
  {
    AfterReceive(s, c, Receive(garble, s.nodes[c.dst], c.m, newKey))
  }

  function AfterReceive(s: System, c: Copy, r: Receiving): (s': System)
  {
    var s1 := SetNode(s, r.node).(
      flight := s.flight - multiset{c},
      got := if r.accepted.None? then s.got else s.got + [Got(c.dst, c.m.host, c.m.id, r.accepted.value)]);
    Emit(s1, r.reply, r.replyText)
  }

  /** sendToNeighbor: data once the send key is known, otherwise (another) request for it. */
  function UnicastStep(s: System, n: Host, to: Host, text: string): (s': System)
    requires n in s.nodes
  {
    var node := s.nodes[n];
    if to !in node.nbrs then s
    else if node.nbrs[to].unicastSendKey.Some? then
      SendStep(s, SendFlooding(node, Text(text), UNICAST_TTL, Data, None, To(to)), Text(text))
    else
      SendStep(s, SendFlooding(node, Text(""), CTRL_TTL, Ruk, None, To(to)), Text(""))
  }

  function Step(garble: Garble, s: System, a: Action): (s': System)
  {
    if !Enabled(s, a) then s
    else
      match a
      case SendAll(n, text, ttl) =>
        SendStep(s, SendFlooding(s.nodes[n], Text(text), ttl + 2, Data, None, Broadcast), Text(text))
      case SendTo(n, to, text) => UnicastStep(s, n, to, text)
      case Fwd(c) => FwdStep(garble, s, c)
      case Rcv(c, newKey) => RcvStep(garble, s, c, newKey)
      case Lose(c) => s.(flight := s.flight - multiset{c})
      case Rotate(n, newKey, freq, ssid) =>
        SendStep(s, Rotated(s.nodes[n], newKey, freq, ssid), Text(KcmPayload(freq, ssid, n)))
      case Join(n, scan) => SetNode(s, Joined(s.nodes[n], scan))
      case Refresh(n, scan) => SetNode(s, Rescanned(s.nodes[n], scan))
      case Leave(n, host) => SetNode(s, Left(s.nodes[n], host))
  }

  /** The state after a whole run. */
  function Run(garble: Garble, s: System, run: seq<Action>): (s': System)
  {
    if run == [] then s
    else Step(garble, Run(garble, s, run[..|run| - 1]), run[|run| - 1])
  }

  lemma RunSnoc(garble: Garble, s: System, run: seq<Action>, a: Action)
    ensures Run(garble, s, run + [a]) == Step(garble, Run(garble, s, run), a)
  {
    assert (run + [a])[..|run|] == run;
  }

  /** p can be reached from h over exactly d radio links. */
  ghost predicate Reaches(radio: set<(Host, Host)>, h: Host, p: Host, d: nat)
    decreases d
  {
    if d == 0 then p == h
    else exists q :: Reaches(radio, h, q, d - 1) && (p, q) in radio
  }

  /** Highest id of origin h that n has published, 0 before the first. */
  function Seen(n: Node, h: Host): (id: nat)
  {
    if h in n.fwdCache then n.fwdCache[h] else 0
  }
}
