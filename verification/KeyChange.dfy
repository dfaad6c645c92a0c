/**
  The key-change message: `freq|SSID|host` as text, cut at every bar by the receiver.  A bar in the SSID moves
  the pieces, so that the third one need not be the sender's name.
 */
module KeyChange {
  import opened Agent
  import opened Tokens
  import opened Numerals

  /** The third piece of the text, which the receiver takes for the host. */
  function Target(ssid: string, host: Host): (h: Host)
  {
    var pieces := Split(ssid, '|') + Split(host, '|');
    pieces[1]
  }

  lemma NoBarInDecimal(n: int)
    ensures Split(Decimal(n), '|') == [Decimal(n)]
  {
    ReadDecimal(n);
    SplitOne(Decimal(n), '|');
  }

  lemma BarAssoc(a: string, b: string, c: string)
    ensures a + "|" + b + "|" + c == a + ['|'] + (b + ['|'] + c)
  {
  }

  lemma KcmPieces(freq: int, ssid: string, host: Host)
    ensures Split(KcmPayload(freq, ssid, host), '|') == [Decimal(freq)] + (Split(ssid, '|') + Split(host, '|'))
  {
    NoBarInDecimal(freq);
    BarAssoc(Decimal(freq), ssid, host);
    SplitAppend(ssid, host, '|');
    SplitAppend(Decimal(freq), ssid + ['|'] + host, '|');
  }

  /** What the receiver reads: the frequency, the SSID up to its first bar, and the target. */
  lemma KcmRead(freq: int, ssid: string, host: Host)
    ensures ReadKcm(KcmPayload(freq, ssid, host)) == KcmFields(freq, Split(ssid, '|')[0], Target(ssid, host))
  {
    KcmPieces(freq, ssid, host);
    ReadDecimal(freq);
  }

  /** For a name without bar, the target is the sender exactly if the SSID has no bar or repeats the name behind it. */
  lemma TargetIsSender(ssid: string, host: Host)
    requires Lacks(host, '|')
    ensures Target(ssid, host) == host <==> Lacks(ssid, '|') || Split(ssid, '|')[1] == host
  {
    SplitOne(ssid, '|');
    SplitOne(host, '|');
  }

  /**
    The receive loop survives the message if and only if the target is a listed neighbour other than the receiver
    itself, or the sender is not listed.
   */
  lemma KcmSurvivesExactly(n: Node, m: Msg, freq: int, ssid: string, host: Host)
    ensures HandleKcm(n, m, Text(KcmPayload(freq, ssid, host))).node.rxAlive
       <==> n.rxAlive && (m.host !in n.nbrs || (Target(ssid, host) in n.nbrs && Target(ssid, host) != n.name))
  {
    KcmRead(freq, ssid, host);
  }

  /**
    A frequency other than 0 and a first piece of the SSID that is not empty replace those of the target's entry.
    Nothing else in it changes, and all other entries stay as they are.
   */
  lemma KcmMergesInto(n: Node, m: Msg, freq: int, ssid: string, host: Host)
    requires m.host in n.nbrs && Target(ssid, host) in n.nbrs
    ensures var r := HandleKcm(n, m, Text(KcmPayload(freq, ssid, host))).node;
            && r.nbrs.Keys == n.nbrs.Keys
            && forall x | x in n.nbrs ::
                 if x != Target(ssid, host) then r.nbrs[x] == n.nbrs[x]
                 else
                   && r.nbrs[x] == n.nbrs[x].(freq := r.nbrs[x].freq, ssid := r.nbrs[x].ssid)
                   && r.nbrs[x].freq == (if freq != 0 then freq else n.nbrs[x].freq)
                   && r.nbrs[x].ssid == (if Split(ssid, '|')[0] != "" then Split(ssid, '|')[0] else n.nbrs[x].ssid)
  {
    KcmRead(freq, ssid, host);
  }
}
