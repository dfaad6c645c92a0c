/**
  What an update leaves in a neighbour entry, value by value: scan results, rescans and key-change messages.
 */
module EntryUpdates {
  import opened Agent
  import opened Tokens
  import opened KeyChange

  /** The counters, the unicast keys and the previous key, which no scan result or key-change message touches. */
  predicate SameBookkeeping(a: Neighbor, b: Neighbor)
  {
    && b.lostMessages == a.lostMessages && b.rxStatsLost == a.rxStatsLost && b.rxStatsSuccess == a.rxStatsSuccess
    && b.unicastSendKey == a.unicastSendKey && b.unicastRecKey == a.unicastRecKey
  }

  /** What a scan says about a host is in the entry; where it says nothing, the entry has what it had. */
  predicate HasNews(a: Neighbor, b: Neighbor, scan: Scan)
  {
    && b.encryptionKey == scan.key
    && (scan.pubKey.Some? ==> b.pubKey == scan.pubKey) && (scan.pubKey.None? ==> b.pubKey == a.pubKey)
    && (scan.ssid != "" ==> b.ssid == scan.ssid) && (scan.ssid == "" ==> b.ssid == a.ssid)
    && (scan.freq != 0 ==> b.freq == scan.freq) && (scan.freq == 0 ==> b.freq == a.freq)
    && (scan.rssiProbeRequest != 0 ==> b.rssiProbeRequest == scan.rssiProbeRequest)
    && (scan.rssiProbeRequest == 0 ==> b.rssiProbeRequest == a.rssiProbeRequest)
    && (scan.rssiProbeResponse != 0 ==>
          b.rssiProbeResponse == scan.rssiProbeResponse && b.timestampLastKCM == scan.timestampLastKCM)
    && (scan.rssiProbeResponse == 0 ==>
          b.rssiProbeResponse == a.rssiProbeResponse && b.timestampLastKCM == a.timestampLastKCM)
  }

  /** Nothing but the entry of host differs. */
  ghost predicate OnlyEntry(n: Node, r: Node, host: Host)
  {
    && r == n.(nbrs := r.nbrs) && r.nbrs.Keys == n.nbrs.Keys + {host}
    && forall x | x in n.nbrs && x != host :: r.nbrs[x] == n.nbrs[x]
  }

  /** A scan result for a listed host; the previous key stays. */
  lemma JoinUpdates(n: Node, scan: Scan)
    requires scan.host in n.nbrs
    ensures var r := Joined(n, scan);
            && OnlyEntry(n, r, scan.host) && HasNews(n.nbrs[scan.host], r.nbrs[scan.host], scan)
            && r.nbrs[scan.host].oldKey == n.nbrs[scan.host].oldKey
            && SameBookkeeping(n.nbrs[scan.host], r.nbrs[scan.host])
  {
  }

  /** A scan result for a new host: the entry is what was scanned, with empty counters and no unicast keys. */
  lemma JoinAdds(n: Node, scan: Scan)
    requires scan.host !in n.nbrs
    ensures var r := Joined(n, scan);
            && OnlyEntry(n, r, scan.host)
            && var e := r.nbrs[scan.host];
            && e.encryptionKey == scan.key && e.oldKey.None? && e.pubKey == scan.pubKey && e.ssid == scan.ssid
            && e.freq == scan.freq && e.rssiProbeRequest == scan.rssiProbeRequest
            && e.rssiProbeResponse == scan.rssiProbeResponse && e.timestampLastKCM == scan.timestampLastKCM
            && e.lostMessages == e.rxStatsLost == e.rxStatsSuccess == 0
            && e.unicastSendKey.None? && e.unicastRecKey.None?
  {
  }

  /** A rescan that finds the key it knows changes nothing; with a new key, the former one becomes the previous key. */
  lemma RescanUpdates(n: Node, scan: Scan)
    requires scan.host in n.nbrs
    ensures var r := Rescanned(n, scan); var e := n.nbrs[scan.host];
            if scan.key == e.encryptionKey then r == n
            else
              && OnlyEntry(n, r, scan.host) && HasNews(e, r.nbrs[scan.host], scan)
              && r.nbrs[scan.host].oldKey == Some(e.encryptionKey) && SameBookkeeping(e, r.nbrs[scan.host])
  {
  }

  /** The key-change message f|s|h sets the frequency unless it is 0, the SSID unless it is empty, and nothing else. */
  lemma KcmUpdates(n: Node, m: Msg, freq: int, ssid: string, host: Host)
    requires m.host in n.nbrs && host in n.nbrs && Lacks(ssid, '|') && Lacks(host, '|')
    ensures var r := HandleKcm(n, m, Text(KcmPayload(freq, ssid, host))).node;
            && host in r.nbrs && OnlyEntry(n.(rxAlive := r.rxAlive), r, host)
            && r.nbrs[host] == n.nbrs[host].(freq := r.nbrs[host].freq, ssid := r.nbrs[host].ssid)
            && r.nbrs[host].freq == (if freq != 0 then freq else n.nbrs[host].freq)
            && r.nbrs[host].ssid == (if ssid != "" then ssid else n.nbrs[host].ssid)
  {
    KcmRead(freq, ssid, host);
    TargetIsSender(ssid, host);
    SplitOne(ssid, '|');
  }

  /** A key change leaves all of the own entry but the key, and all other entries. */
  lemma RotationUpdates(n: Node, newKey: Key, freq: int, ssid: string)
    requires n.name in n.nbrs
    ensures Rotated(n, newKey, freq, ssid).node.nbrs
         == n.nbrs[n.name := n.nbrs[n.name].(encryptionKey := newKey)]
  {
  }

  /** An agent begins with an entry for itself that knows its key and nothing else. */
  lemma FirstEntry(name: Host, key: Key)
    ensures Boot(name, key).nbrs == map[name := Neighbor(key, None, None, "", 0, 0, 0, 0, 0, 0, 0, None, None)]
  {
  }
}
