/**
  One ResFi agent (framework/agent.py) and its neighbour entries (framework/utils.py).

  The agent's state is the value `Node`.  Every handler of the agent is given twice: as a function on
  `Node` values, which the network model in module Network is built from, and as a method of class
  `ResFiAgent`, which updates the fields in place as the receive loops do and is proved to compute that
  function.

  AES is the constructor `Sealed`: opening a sealed text with its own key gives the plaintext, opening
  it with any other key gives whatever the arbitrary function `garble` returns.  RSA signing is ideal:
  a signature names its signer and the exact bytes that were signed.
 */
module Agent {
  import opened Tokens
  import opened Numerals

  type Host = string
  type Key = nat

  datatype Option<+T> = None | Some(value: T)

  /** Message bytes: text (key-change messages included), the unicast-key reply, and the two encryptions. */
  datatype Bytes =
    | Text(text: string)
    | NukText(key: Key)
    | Sealed(key: Key, plain: Bytes)
    | Oaep(owner: Host, plain: Bytes)

  type Garble = (Key, Bytes) -> Bytes

  function Decrypt(garble: Garble, key: Key, c: Bytes): (plain: Bytes)
  {
    if c.Sealed? && c.key == key then c.plain else garble(key, c)
  }

  datatype Sig = Sig(signer: Host, over: Bytes)

  datatype Rec = Broadcast | To(host: Host)
  datatype Hop = OldKeys | Via(host: Host)
  datatype Kind = Data | Kcm | Ruk | Nuk

  datatype Msg = Msg(host: Host, lasthop: Hop, id: nat, rec: Rec, ttl: int, kind: Kind, msg: Bytes, sig: Sig)

  datatype Neighbor = Neighbor(
    encryptionKey: Key,
    oldKey: Option<Key>,
    pubKey: Option<Host>,
    ssid: string,
    freq: int,
    rssiProbeRequest: int,
    rssiProbeResponse: int,
    timestampLastKCM: int,
    lostMessages: nat,
    rxStatsLost: nat,
    rxStatsSuccess: nat,
    unicastSendKey: Option<Key>,
    unicastRecKey: Option<Key>)

  /** What a scan or a key-change message says about a neighbour; absent values are None, "" or 0. */
  datatype Update = Update(
    key: Option<Key>,
    pubKey: Option<Host>,
    ssid: string,
    freq: int,
    rssiProbeRequest: int,
    rssiProbeResponse: int,
    timestampLastKCM: int)

  datatype Scan = Scan(host: Host, key: Key, pubKey: Option<Host>, ssid: string, freq: int,
                       rssiProbeRequest: int, rssiProbeResponse: int, timestampLastKCM: int)

  function ScanUpdate(scan: Scan): (u: Update)
  {
    Update(Some(scan.key), scan.pubKey, scan.ssid, scan.freq,
           scan.rssiProbeRequest, scan.rssiProbeResponse, scan.timestampLastKCM)
  }

  function NewEntry(scan: Scan): (nb: Neighbor)
  {
    Neighbor(scan.key, None, scan.pubKey, scan.ssid, scan.freq, scan.rssiProbeRequest,
             scan.rssiProbeResponse, scan.timestampLastKCM, 0, 0, 0, None, None)
  }

  /** parse_existing_neighbor: only non-empty values overwrite; the time stamp follows the response RSSI. */
  function Merge(nb: Neighbor, u: Update): (r: Neighbor)
    ensures r.lostMessages == nb.lostMessages
    ensures r.rxStatsLost == nb.rxStatsLost && r.rxStatsSuccess == nb.rxStatsSuccess
    ensures r.unicastSendKey == nb.unicastSendKey && r.unicastRecKey == nb.unicastRecKey
    ensures r.oldKey == nb.oldKey
  {
    nb.(encryptionKey := if u.key.Some? then u.key.value else nb.encryptionKey,
        pubKey := if u.pubKey.Some? then u.pubKey else nb.pubKey,
        ssid := if u.ssid != "" then u.ssid else nb.ssid,
        freq := if u.freq != 0 then u.freq else nb.freq,
        rssiProbeRequest := if u.rssiProbeRequest != 0 then u.rssiProbeRequest else nb.rssiProbeRequest,
        rssiProbeResponse := if u.rssiProbeResponse != 0 then u.rssiProbeResponse else nb.rssiProbeResponse,
        timestampLastKCM := if u.rssiProbeResponse != 0 then u.timestampLastKCM else nb.timestampLastKCM)
  }

  /** The agent's state.  `oldKeys` is the entry that the neighbour list keeps under the name old_keys. */
  datatype Node = Node(
    name: Host,
    key: Key,
    oldKeys: Option<Key>,
    nbrs: map<Host, Neighbor>,
    fwdCache: map<Host, nat>,
    localId: nat,
    rxAlive: bool)

  const CTRL_TTL: int := 3
  const UNICAST_TTL: int := 3

  function SelfScan(name: Host, key: Key): (scan: Scan)
  {
    Scan(name, key, None, "", 0, 0, 0, 0)
  }

  function Boot(name: Host, key: Key): (n: Node)
  {
    Node(name, key, None, map[name := NewEntry(SelfScan(name, key))], map[], 1, true)
  }

  // ---------------------------------------------------------------- sending

  datatype Sending = Sending(node: Node, out: Option<Msg>)

  /** The bytes that are signed: unicast control is OAEP-encrypted, unicast data sealed with the send key. */
  function SignedBytes(n: Node, message: Bytes, kind: Kind, rec: Rec): (r: Option<Bytes>)
  {
    if rec.Broadcast? then Some(message)
    else if rec.host !in n.nbrs then None
    else if kind.Data? then
      if n.nbrs[rec.host].unicastSendKey.None? then None
      else Some(Sealed(n.nbrs[rec.host].unicastSendKey.value, message))
    else
      if n.nbrs[rec.host].pubKey.None? then None
      else Some(Oaep(n.nbrs[rec.host].pubKey.value, message))
  }

  /** sendFloodingMessage; `retired` is the old key that a key-change message is still sent under. */
  function SendFlooding(n: Node, message: Bytes, ttl: int, kind: Kind, retired: Option<Key>, rec: Rec): (r: Sending)
  {
    var n1 := if retired.Some? then n.(oldKeys := retired) else n;
    var body := SignedBytes(n1, message, kind, rec);
    if body.None? then Sending(n1, None)
    else
      var key := if retired.Some? then retired.value else n.key;
      var hop := if retired.Some? then OldKeys else Via(n.name);
      Sending(n1.(localId := n.localId + 1),
              Some(Msg(n.name, hop, n.localId, rec, ttl, kind, Sealed(key, body.value), Sig(n.name, body.value))))
  }

  // ---------------------------------------------------------------- forwarding

  datatype Verdict = Ignored | Published | Lost | Rescan | Removed

  datatype Forwarding = Forwarding(node: Node, out: Option<Msg>, verdict: Verdict)

  /** TTL, duplicate and recipient filters of the forwarder. */
  predicate Passes(n: Node, m: Msg)
  {
    && m.ttl - 1 > 0
    && !(m.host in n.fwdCache && n.fwdCache[m.host] >= m.id)
    && !(m.host != n.name && m.rec != Broadcast && m.rec != To(n.name))
  }

  function CheckedOpen(garble: Garble, key: Key, signer: Option<Host>, m: Msg): (r: Option<Bytes>)
  {
    var plain := Decrypt(garble, key, m.msg);
    if signer == Some(m.sig.signer) && m.sig.over == plain then Some(plain) else None
  }

  predicate KnowsLastHop(n: Node, m: Msg)
  {
    match m.lasthop
    case OldKeys => n.oldKeys.Some?
    case Via(l) => l in n.nbrs
  }

  function SignerOf(n: Node, l: Host): (r: Option<Host>)
    requires l in n.nbrs
  {
    if l == n.name then Some(n.name) else n.nbrs[l].pubKey
  }

  /** Decrypt and verify with the last hop's key and, for a neighbour's message, with its previous key. */
  function OpenHop(garble: Garble, n: Node, m: Msg): (r: Option<Bytes>)
    requires KnowsLastHop(n, m)
    ensures r.Some? ==> m.sig.over == r.value
  {
    match m.lasthop
    case OldKeys => CheckedOpen(garble, n.oldKeys.value, Some(n.name), m)
    case Via(l) =>
      var first := CheckedOpen(garble, n.nbrs[l].encryptionKey, SignerOf(n, l), m);
      if first.Some? || m.host == n.name || n.nbrs[l].oldKey.None? then first
      else CheckedOpen(garble, n.nbrs[l].oldKey.value, SignerOf(n, l), m)
  }

  const MAX_LOST: nat := 5

  function CountSuccess(nb: Neighbor): (r: Neighbor)
  {
    nb.(lostMessages := 0, rxStatsSuccess := nb.rxStatsSuccess + 1)
  }

  /** One undecodable message; the flag says that the fifth loss in a row was reached. */
  function CountLoss(nb: Neighbor): (r: (Neighbor, bool))
  {
    var lost := nb.lostMessages + 1;
    (nb.(lostMessages := if lost >= MAX_LOST then 0 else lost, rxStatsLost := nb.rxStatsLost + 1),
     lost >= MAX_LOST)
  }

  /** The republished copy: own signature, own key (or the retired key), own name as last hop. */
  function Republish(n: Node, m: Msg, plain: Bytes): (r: Msg)
    requires KnowsLastHop(n, m)
  {
    m.(ttl := m.ttl - 1,
       msg := Sealed(if m.lasthop.OldKeys? then n.oldKeys.value else n.key, plain),
       sig := Sig(n.name, plain),
       lasthop := Via(n.name))
  }

  function AfterPublish(n: Node, m: Msg): (r: Node)
    requires KnowsLastHop(n, m)
  {
    n.(fwdCache := n.fwdCache[m.host := m.id],
       nbrs := if m.host == n.name || m.lasthop.OldKeys? then n.nbrs
               else n.nbrs[m.lasthop.host := CountSuccess(n.nbrs[m.lasthop.host])])
  }

  function AfterLoss(n: Node, l: Host): (r: Forwarding)
    requires l in n.nbrs
  {
    var (nb, fifth) := CountLoss(n.nbrs[l]);
    if !fifth then Forwarding(n.(nbrs := n.nbrs[l := nb]), None, Lost)
    else if nb.freq != 0 then Forwarding(n.(nbrs := n.nbrs[l := nb]), None, Rescan)
    else Forwarding(n.(nbrs := n.nbrs - {l}), None, Removed)
  }

  /** One iteration of the forwarding loop. */
  function Forward(garble: Garble, n: Node, m: Msg): (r: Forwarding)
  {
    if !Passes(n, m) || !KnowsLastHop(n, m) then Forwarding(n, None, Ignored)
    else
      var plain := OpenHop(garble, n, m);
      if plain.Some? then Forwarding(AfterPublish(n, m), Some(Republish(n, m, plain.value)), Published)
      else if m.host == n.name || m.lasthop.OldKeys? then Forwarding(n, None, Ignored)
      else AfterLoss(n, m.lasthop.host)
  }

  // ---------------------------------------------------------------- receiving

  /** Outcome of one iteration of receiveMessage.  `accepted` is the plaintext handed on, if any. */
  datatype Receiving = Receiving(node: Node, reply: Option<Msg>, replyText: Bytes, accepted: Option<Bytes>)

  function Skip(n: Node): (r: Receiving)
  {
    Receiving(n, None, Text(""), None)
  }

  /** An uncaught exception ends the receive thread. */
  function Crash(n: Node): (r: Receiving)
  {
    Receiving(n.(rxAlive := false), None, Text(""), None)
  }

  datatype Unwrapped = Plain(bytes: Bytes) | NoKey | Exception

  /** The recipient's own layer: OAEP for unicast control, the unicast key for unicast data. */
  function Unwrap(garble: Garble, n: Node, m: Msg, body: Bytes): (r: Unwrapped)
  {
    if m.rec != To(n.name) then Plain(body)
    else if !m.kind.Data? then
      if body.Oaep? && body.owner == n.name then Plain(body.plain) else Exception
    else if n.name !in n.nbrs then Plain(body)
    else if m.host !in n.nbrs then Exception
    else if n.nbrs[m.host].unicastRecKey.None? then NoKey
    else Plain(Decrypt(garble, n.nbrs[m.host].unicastRecKey.value, body))
  }

  /** The text of a key-change message. */
  function KcmPayload(freq: int, ssid: string, host: Host): (text: string)
  {
    Decimal(freq) + "|" + ssid + "|" + host
  }

  datatype KcmFields = Malformed | KcmFields(freq: int, ssid: string, host: Host)

  /** The text cut at every bar: the first three pieces, the first of them a number. */
  function ReadKcm(text: string): (r: KcmFields)
  {
    var pieces := Split(text, '|');
    if |pieces| < 3 || ReadInt(pieces[0]).NotANumber? then Malformed
    else KcmFields(ReadInt(pieces[0]).value, pieces[1], pieces[2])
  }

  /**
    Frequency and SSID are merged into the entry of the third piece, whoever sent the message.  Without such an
    entry the merge fails, or, with nothing to merge, the removal at the end of the rescan.  No scan finds the
    own name, nor the one that old_keys is stored under, and neither is connected on the port that the removal
    disconnects, so with them the removal fails too.
   */
  function HandleKcm(n: Node, m: Msg, plain: Bytes): (r: Receiving)
  {
    if !plain.Text? then Crash(n)
    else
      var f := ReadKcm(plain.text);
      if f.Malformed? then Crash(n)
      else if m.host !in n.nbrs then Receiving(n, None, Text(""), Some(plain))
      else if f.host !in n.nbrs then Crash(n)
      else
        var nb := Merge(n.nbrs[f.host], Update(None, None, f.ssid, f.freq, 0, 0, 0));
        var n1 := n.(nbrs := n.nbrs[f.host := nb]);
        if f.host == n.name then Crash(n1) else Receiving(n1, None, Text(""), Some(plain))
  }

  /** Answer a request for a unicast key with the key in use, or with the new one, which is then kept. */
  function HandleRuk(n: Node, m: Msg, plain: Bytes, newKey: Key): (r: Receiving)
  {
    if m.host !in n.nbrs then Receiving(n, None, Text(""), Some(plain))
    else
      var key := if n.nbrs[m.host].unicastRecKey.Some? then n.nbrs[m.host].unicastRecKey.value else newKey;
      var s := SendFlooding(n, NukText(key), CTRL_TTL, Nuk, None, To(m.host));
      var nb := n.nbrs[m.host].(unicastRecKey := Some(key));
      if s.out.None? then Crash(n)
      else Receiving(s.node.(nbrs := n.nbrs[m.host := nb]), s.out, NukText(key), Some(plain))
  }

  function HandleNuk(n: Node, m: Msg, plain: Bytes): (r: Receiving)
  {
    if m.host !in n.nbrs then Receiving(n, None, Text(""), Some(plain))
    else if !plain.NukText? then Crash(n)
    else
      var nb := n.nbrs[m.host].(unicastSendKey := Some(plain.key));
      Receiving(n.(nbrs := n.nbrs[m.host := nb]), None, Text(""), Some(plain))
  }

  /** One iteration of the receive loop on a copy that the own forwarder published. */
  function Receive(garble: Garble, n: Node, m: Msg, newKey: Key): (r: Receiving)
  {
    if !n.rxAlive || m.host == n.name then Skip(n)
    else
      var body := CheckedOpen(garble, n.key, Some(n.name), m);
      if body.None? then Skip(n)
      else
        match Unwrap(garble, n, m, body.value)
        case NoKey => Skip(n)
        case Exception => Crash(n)
        case Plain(plain) =>
          match m.kind
          case Data => Receiving(n, None, Text(""), Some(plain))
          case Kcm => HandleKcm(n, m, plain)
          case Ruk => HandleRuk(n, m, plain, newKey)
          case Nuk => HandleNuk(n, m, plain)
  }

  // ---------------------------------------------------------------- neighbours and keys

  function Joined(n: Node, scan: Scan): (r: Node)
  {
    n.(nbrs := n.nbrs[scan.host := if scan.host in n.nbrs then Merge(n.nbrs[scan.host], ScanUpdate(scan))
                                   else NewEntry(scan)])
  }

  /** rescan_neighbor on a hit: a changed key retires the stored one before the entry is merged. */
  function Rescanned(n: Node, scan: Scan): (r: Node)
    requires scan.host in n.nbrs
  {
    var nb := n.nbrs[scan.host];
    if scan.key == nb.encryptionKey then n
    else Joined(n.(nbrs := n.nbrs[scan.host := nb.(oldKey := Some(nb.encryptionKey))]), scan)
  }

  function Left(n: Node, host: Host): (r: Node)
  {
    n.(nbrs := n.nbrs - {host})
  }

  /** changeKeys: new group key, own entry updated, key-change message sent under the retired key. */
  function Rotated(n: Node, newKey: Key, freq: int, ssid: string): (r: Sending)
  {
    var n1 := Joined(n.(key := newKey), SelfScan(n.name, newKey));
    SendFlooding(n1, Text(KcmPayload(freq, ssid, n.name)), CTRL_TTL, Kcm, Some(n.key), Broadcast)
  }

  // ---------------------------------------------------------------- the agent object

  class ResFiAgent {
    const hostname: Host
    const garble: Garble
    var key: Key
    var oldKeys: Option<Key>
    var globalNeighborList: map<Host, Neighbor>
    var fwdCache: map<Host, nat>
    var localId: nat
    var rxAlive: bool

    function State(): (n: Node)
      reads this
    {
      Node(hostname, key, oldKeys, globalNeighborList, fwdCache, localId, rxAlive)
    }

    constructor (hostname: Host, garble: Garble, key: Key)
      ensures this.hostname == hostname && this.garble == garble
      ensures State() == Boot(hostname, key)
      ensures localId == 1 && fwdCache == map[] && oldKeys.None? && rxAlive && this.key == key
      ensures globalNeighborList.Keys == {hostname} && globalNeighborList[hostname].encryptionKey == key
    {
      this.hostname := hostname;
      this.garble := garble;
      this.key := key;
      oldKeys := None;
      globalNeighborList := map[hostname := NewEntry(SelfScan(hostname, key))];
      fwdCache := map[];
      localId := 1;
      rxAlive := true;
    }

    method SendFloodingMessage(message: Bytes, ttl: int, kind: Kind, retired: Option<Key>, rec: Rec)
      returns (out: Option<Msg>)
      modifies this
      ensures Sending(State(), out) == SendFlooding(old(State()), message, ttl, kind, retired, rec)
    {
      var sendKey, lasthop := key, Via(hostname);
      if retired.Some? {
        sendKey, lasthop := retired.value, OldKeys;
        oldKeys := retired;
      }
      var body := message;
      if rec.To? {
        if rec.host !in globalNeighborList {
          return None;
        }
        var nb := globalNeighborList[rec.host];
        if kind.Data? {
          if nb.unicastSendKey.None? {
            return None;
          }
          body := Sealed(nb.unicastSendKey.value, message);
        } else {
          if nb.pubKey.None? {
            return None;
          }
          body := Oaep(nb.pubKey.value, message);
        }
      }
      out := Some(Msg(hostname, lasthop, localId, rec, ttl, kind, Sealed(sendKey, body), Sig(hostname, body)));
      localId := localId + 1;
    }

    /** initForwardingTTL, one iteration. */
    method ForwardMessage(received: Msg) returns (out: Option<Msg>, verdict: Verdict)
      modifies this
      ensures Forwarding(State(), out, verdict) == Forward(garble, old(State()), received)
    {
      var m := received.(ttl := received.ttl - 1);
      if m.ttl <= 0 {
        return None, Ignored;
      }
      if m.host in fwdCache && fwdCache[m.host] >= m.id {
        return None, Ignored;
      }
      if m.host != hostname && m.rec != Broadcast && m.rec != To(hostname) {
        return None, Ignored;
      }
      var isNeighborMessage := m.host != hostname;
      var lastKey, signer, retired := 0, Some(hostname), None;
      match m.lasthop {
        case OldKeys =>
          if oldKeys.None? {
            return None, Ignored;
          }
          lastKey := oldKeys.value;
        case Via(l) =>
          if l !in globalNeighborList {
            return None, Ignored;
          }
          lastKey := globalNeighborList[l].encryptionKey;
          retired := globalNeighborList[l].oldKey;
          if l != hostname {
            signer := globalNeighborList[l].pubKey;
          }
      }
      var plain := Decrypt(garble, lastKey, m.msg);
      if !(signer == Some(m.sig.signer) && m.sig.over == plain) {
        if !isNeighborMessage || m.lasthop.OldKeys? {
          return None, Ignored;
        }
        var success := false;
        if retired.Some? {
          plain := Decrypt(garble, retired.value, m.msg);
          success := signer == Some(m.sig.signer) && m.sig.over == plain;
        }
        if !success {
          // the retry uses the key read above, so it fails as the first attempt did
          verdict := RecordLoss(m.lasthop.host);
          return None, verdict;
        }
      }
      var sendKey := if m.lasthop.OldKeys? then lastKey else key;
      if isNeighborMessage && m.lasthop.Via? {
        var nb := globalNeighborList[m.lasthop.host];
        nb := nb.(lostMessages := 0);
        nb := nb.(rxStatsSuccess := nb.rxStatsSuccess + 1);
        globalNeighborList := globalNeighborList[m.lasthop.host := nb];
      }
      out := Some(m.(sig := Sig(hostname, plain), msg := Sealed(sendKey, plain), lasthop := Via(hostname)));
      fwdCache := fwdCache[m.host := m.id];
      verdict := Published;
    }

    /** The loss branch of the forwarder. */
    method RecordLoss(l: Host) returns (verdict: Verdict)
      requires l in globalNeighborList
      modifies this`globalNeighborList
      ensures Forwarding(State(), None, verdict) == AfterLoss(old(State()), l)
    {
      var nb := globalNeighborList[l];
      nb := nb.(lostMessages := nb.lostMessages + 1);
      nb := nb.(rxStatsLost := nb.rxStatsLost + 1);
      if nb.lostMessages < MAX_LOST {
        globalNeighborList := globalNeighborList[l := nb];
        return Lost;
      }
      nb := nb.(lostMessages := 0);
      if nb.freq != 0 {
        globalNeighborList := globalNeighborList[l := nb];
        verdict := Rescan;
      } else {
        globalNeighborList := globalNeighborList - {l};
        verdict := Removed;
      }
    }

    /** receiveMessage, one iteration; `newKey` is the key that generateSymmetricKeys would return. */
    method ReceiveMessage(m: Msg, newKey: Key) returns (reply: Option<Msg>, accepted: Option<Bytes>)
      modifies this
      ensures var r := Receive(garble, old(State()), m, newKey);
              State() == r.node && reply == r.reply && accepted == r.accepted
    {
      reply, accepted := None, None;
      if !rxAlive || m.host == hostname {
        return;
      }
      var plain := Decrypt(garble, key, m.msg);
      if m.sig != Sig(hostname, plain) {
        return;
      }
      if m.rec == To(hostname) && !m.kind.Data? {
        if !plain.Oaep? || plain.owner != hostname {
          rxAlive := false;
          return;
        }
        plain := plain.plain;
      } else if m.rec == To(hostname) && hostname in globalNeighborList {
        if m.host !in globalNeighborList {
          rxAlive := false;
          return;
        }
        var recKey := globalNeighborList[m.host].unicastRecKey;
        if recKey.None? {
          return;
        }
        plain := Decrypt(garble, recKey.value, plain);
      }
      match m.kind {
        case Data =>
        case Kcm =>
          var merged := MergeKeyChange(m, plain);
          if !merged {
            rxAlive := false;
            return;
          }
        case Ruk =>
          if m.host in globalNeighborList {
            var recKey := globalNeighborList[m.host].unicastRecKey;
            if recKey.Some? {
              reply := SendFloodingMessage(NukText(recKey.value), CTRL_TTL, Nuk, None, To(m.host));
            } else {
              reply := SendFloodingMessage(NukText(newKey), CTRL_TTL, Nuk, None, To(m.host));
              if reply.Some? {
                globalNeighborList :=
                  globalNeighborList[m.host := globalNeighborList[m.host].(unicastRecKey := Some(newKey))];
              }
            }
            if reply.None? {
              rxAlive := false;
              return;
            }
          }
        case Nuk =>
          if m.host in globalNeighborList {
            if !plain.NukText? {
              rxAlive := false;
              return;
            }
            globalNeighborList :=
              globalNeighborList[m.host := globalNeighborList[m.host].(unicastSendKey := Some(plain.key))];
          }
      }
      accepted := Some(plain);
    }

    /** The kcm branch; false if an exception leaves the loop. */
    method MergeKeyChange(m: Msg, plain: Bytes) returns (ok: bool)
      modifies this`globalNeighborList
      ensures HandleKcm(old(State()), m, plain)
           == if ok then Receiving(State(), None, Text(""), Some(plain)) else Crash(State())
      ensures !ok && State() != old(State()) ==> plain.Text? && ReadKcm(plain.text).host == hostname
    {
      if !plain.Text? {
        return false;
      }
      var pieces := Split(plain.text, '|');
      if |pieces| < 3 {
        return false;
      }
      var freq := ReadInt(pieces[0]);
      if freq.NotANumber? {
        return false;
      }
      if m.host in globalNeighborList {
        if pieces[2] !in globalNeighborList {
          return false;
        }
        var u := Update(None, None, pieces[1], freq.value, 0, 0, 0);
        globalNeighborList := globalNeighborList[pieces[2] := Merge(globalNeighborList[pieces[2]], u)];
        if pieces[2] == hostname {
          return false;
        }
      }
      ok := true;
    }

    method OnAPJoined(scan: Scan)
      modifies this`globalNeighborList
      ensures State() == Joined(old(State()), scan)
    {
      if scan.host in globalNeighborList {
        globalNeighborList :=
          globalNeighborList[scan.host := Merge(globalNeighborList[scan.host], ScanUpdate(scan))];
      } else {
        globalNeighborList := globalNeighborList[scan.host := NewEntry(scan)];
      }
    }

    /** onAPLeft; false if deleting the entry raises because there is none. */
    method OnAPLeft(host: Host) returns (ok: bool)
      modifies this`globalNeighborList
      ensures State() == Left(old(State()), host) && ok == (host in old(globalNeighborList))
    {
      ok := host in globalNeighborList;
      globalNeighborList := globalNeighborList - {host};
    }

    /** changeKeys, one round. */
    method ChangeKeys(newKey: Key, freq: int, ssid: string) returns (out: Option<Msg>)
      modifies this
      ensures Sending(State(), out) == Rotated(old(State()), newKey, freq, ssid)
    {
      var keyOld := key;
      key := newKey;
      OnAPJoined(SelfScan(hostname, key));
      out := SendFloodingMessage(Text(KcmPayload(freq, ssid, hostname)), CTRL_TTL, Kcm, Some(keyOld), Broadcast);
    }
  }
}
