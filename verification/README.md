# NxWLAN: a verified model of its protocols and codecs

NxWLAN lets neighbouring access points carry each other's traffic. This project models the parts of it that are
hardest to get right and proves what they are for, for all inputs, all runs and all interleavings:

* **Flooding and key exchange** (`framework/agent.py`): N agents, the copies in flight between them, duplicate
  filters, re-encryption and re-signing at every hop, key rotation, the unicast-key exchange with retries, loss
  counters. `Agent`, `Network`, `FloodSafety`, `FloodDrain`, `HopFlood`, `FloodComplete`, `FloodAnyOrder`,
  `FloodOrderRun`, `FloodOutcomes`, `KeyAgreement`, `KeyExchangeRun`, `KeyChange`, `KeyChangeRun`, `PreviousKey`,
  `OwnMessages`, `EntryUpdates`, `ReceiveLoop`, `LossAccounting`.
* **Virtual APs** (`framework/apps/cran.py`): id generators, the VAP/WTP handshake, the P4 switch wiring, the
  start-up order, and the power of probe replies. `Cran`, `CranNetwork`, `SwitchWiring`, `IdNumbers`,
  `StartQueue`, `VapHandshake`, `VapRun`, `ActiveClients`, `ProbePower`.
* **Information elements** (`framework/utils.py`, `framework/connectors.py`, `iw-4.3`): dotted hex, packet
  patterns, element streams, vendor dumps and their way back to neighbour entries, RSN elements. `Tokens`,
  `Numerals`, `HexMask`, `HexNumerals`, `VendorElement`, `ScanDump`, `VendorDump`, `ScanOutput`, `ScanLines`,
  `Rsn`.
* **Argument parsers of iw**: scheduled scan, wake-up triggers, scan. `SchedScan`, `SchedScanLanguage`, `Wowlan`,
  `WakeUpCommands`, `ScanArgs`, `ScanCommands`, `Refusals`.
* **hostapd**: AKA sequence numbers, GSM triplets, the ANQP domain list. `Sqn`, `Triplets`, `DomainList`.

Handlers that update fields, arrays or cursors in the source are methods with loops here, each proved equal to a
function on values; the theorems are about those functions and about transition systems built from them.

How the outside is represented:

* AES is a constructor with a left inverse; a wrong key gives an arbitrary text chosen by the parameter `garble`.
  RSA signatures name their signer and the signed bytes. All nodes are honest. Scans name the right node and public
  key, but may report any group key, old or new.
* Every iteration of a receive loop, every send, scan result, removal and key change is one atomic action. Runs are
  arbitrary lists of actions; copies may be delayed, reordered and lost.
* New keys, MAC address syntax, the outcome of reading a TCP configuration file, the printer tables of `iw` other
  than vendor and unknown elements, whether a text can be imported as a public key, and measured rates and backhauls
  are parameters.
* Integers are unbounded except where the source's width matters: `unsigned long` has 64 bits, `unsigned int` and
  `int` 32, the length octets 8 and the SQN 48. Powers and rates are real numbers.

Properties that turned out to hold only under a condition are stated with that condition and a proof that it is the
exact one, or with a run that breaks the property without it:

* Flooding reaches exactly the nodes within k hops when copies are taken in hop order, and such a run always exists
  (`FloodOutcomes.HopOrderIsPossible`). In other orders a node can be missed: `FloodOrderRun.OrderMatters` is a run
  of four agents from the start in which a node two links away never gets a message sent with k = 2.
  `FloodOutcomes.OutcomesExactly` says what can happen at all: the sets of publications in which runs end are exactly
  the settled ones, a condition on the subscriptions and k alone, and a node is reached in every order if and only if
  all of them have it (`FloodOutcomes.SureExactly`). It suffices that no path without repetition from the origin is
  longer than k (`FloodOutcomes.LongestPathSuffices`), as with k at least the number of other nodes.
* The receive loop cuts a key-change message at its bars and takes the third piece for the host. Where the sender is
  known, it survives if and only if that piece is a listed neighbour other than the receiver itself
  (`KeyChange.KcmSurvivesExactly`): the rescan that follows never finds the receiver's own name, and the removal after
  it raises. So an SSID with a bar can end the loop of every neighbour or merge into the entry of a third node;
  `KeyChangeRun.LoopEndsExactly` is the run.
* A neighbour's copies sealed before it changed its key still get through while its entry holds that key, that is
  until the second new key is found by rescans (`PreviousKey.EarlierCopiesGetThrough`). A node's own messages have no
  such grace: what is on the send socket when its key changes is dropped (`OwnMessages.OwnMessagePublished`).
* Unicast keys agree as long as the receiver does not drop the sender's entry; `KeyAgreement.RemovalBreaksAgreement`
  shows that exactly that removal breaks the agreement, and `KeyExchangeRun.SharedThenLost` is such a run.
* VAP and WTP mirror each other until the VAP side sees a link failure: removal forgets the VAP but not the WTP at
  the other end, so a re-created VAP is completed with ids that belong to the old one. `VapRun.MirrorIsLost` is a run from
  the start in which that happens although every message is delivered once.
* `parse_hex_mask` writes outside its buffer if and only if some token behind its end is a byte and all tokens up to
  that one are well-formed (`HexMask.ParseOverruns`); don't-care tokens there are accepted, and then the length it reports is larger than the
  buffer, exactly when the text has more than |s| / 2 + 1 colons (`HexMask.LengthExceedsBuffer`). Neither happens
  without empty tokens.
* `parse_hex_mask` compares with 255 only after cutting to 32 bits, so numbers far beyond a byte are read as one
  (`HexNumerals.FarBeyond`).
* An empty pattern and an empty vendor payload do not survive the round trip through text.
* `parse_resfi_ie` gives the fields back if and only if the IP field is not empty, because a slice that ends at
  `-0` is empty.
* An access point whose address is the text `Error` is never listed, because that text marks unusable elements
  (`ScanOutput.LastWins`).
* A scan fails as a whole when an access point with a ResFi element is received with a signal that is no whole number
  of dBm (`ScanLines.SignalReads`, `ScanLines.OneFractionFails`).
* `handle_scan` returns 0 for a malformed `ies` argument if a `randomise` argument came before it.
* The domain list can be decoded if and only if every name has less than 256 octets.
* A neighbour's probe-reply power is never above the home AP's, except in the branch for the placeholder host name;
  `ProbePower.PlaceholderIsQuieter` says for which rates, backhauls and thresholds it is above there.
* SQNs increase until SEQ reaches its maximum.

Where the code differs from what its comments say, the model follows the code: `sendToNeighbors` adds two to the hop
count it is given, and the assertion on the received power that is commented out in `calc_tx_power` is the one whose
exact condition is proved in `ProbePower.StaysAudible`.

## Model

| member | source | states |
|---|---|---|
| `Agent.ResFiAgent.constructor` | framework/agent.py:48-112 | the agent starts with itself as its only neighbour, an empty forwarding cache and message id 1 |
| `Agent.ResFiAgent.SendFloodingMessage` | framework/agent.py:656-707 | signing, encryption for unicast and control messages, encryption with the group key and the new local id are those of the send function on node values |
| `Agent.ResFiAgent.ForwardMessage` | framework/agent.py:212-379 | one iteration of the forwarder, with its filters, the two keys it tries, the loss counters and the re-published message, computes the forward function on node values |
| `Agent.ResFiAgent.RecordLoss` | framework/agent.py:302-332 | a failed decryption counts as a loss and leads to a rescan or a removal at the fifth in a row |
| `Agent.ResFiAgent.ReceiveMessage` | framework/agent.py:421-519 | one iteration of the receive loop: key change, key request and reply, application data, and the failures that end the loop |
| `Agent.ResFiAgent.OnAPJoined` | framework/agent.py:555-577 | a scan result is added, or merged into the entry that exists |
| `Agent.ResFiAgent.OnAPLeft` | framework/agent.py:579-591 | the entry is removed; without an entry the removal is reported to have failed |
| `Agent.ResFiAgent.MergeKeyChange` | framework/agent.py:477-490 | the text is cut at its bars and merged into the entry of the third piece; too few pieces, a frequency that is no number, a third piece without entry or the receiver's own name there end the loop |
| `Agent.ResFiAgent.ChangeKeys` | framework/agent.py:593-613 | the old group key is kept for one announcement, which is sent under it |
| `FloodSafety.StepInv` | framework/agent.py:212-379 | every action of every node keeps the invariant that each copy in flight is signed by its last hop over the bytes its origin signed, carries the TTL of its distance and is not ahead of the caches |
| `FloodSafety.PayloadIntegrity` | framework/agent.py:247-301 | in every run a node that accepts a message obtains the text its origin sent under that id, over any number of hops and key changes |
| `FloodSafety.FloodReach` | framework/agent.py:216-219 | in every run a copy published d links away carries the initial TTL minus d minus one, at least 1; acceptance is confined to TTL minus 2 links, for control and unicast messages to direct neighbours |
| `FloodSafety.HopLimit` | framework/agent.py:742-744 | a broadcast for k hops, sent after any run, is accepted with its own text and within k links only, whatever happens afterwards |
| `FloodSafety.AtMostOnce` | framework/agent.py:220-222 | per node and origin published ids strictly increase, N nodes publish a message at most N times, and no node accepts it twice |
| `FloodSafety.ReturningMessageIgnored` | framework/agent.py:220-225 | an origin never re-publishes its own returning message |
| `FloodDrain.FloodDrains` | framework/agent.py:212-225 | with S sends and N nodes no run handles more copies than S times a bound in N, whatever the interleaving |
| `HopFlood.NextInv` | framework/agent.py:355-358 | copies of one broadcast taken in hop order fill the network level by level |
| `HopFlood.DrainedExactly` | framework/agent.py:355-358 | after the last copy exactly the nodes within k hops have accepted |
| `HopFlood.DrainedAny` | framework/agent.py:216-225 | whatever the order, after the last copy exactly the nodes other than the origin that hear a relay with a TTL of at least 2 have accepted |
| `FloodOrderRun.OrderMatters` | framework/agent.py:220-222 | a run of four agents from the start, drained and with all keys known, in which a node within the two hops asked for misses the broadcast |
| `FloodComplete.BroadcastReachesExactly` | framework/agent.py:742-744 | after any run, a broadcast whose copies are handled in hop order with all keys known, while other nodes send what they like, is accepted exactly once, with its text, at exactly the nodes within k hops |
| `FloodAnyOrder.AnyOrderReaches` | framework/agent.py:212-225 | the same run in any order: accepted exactly once, with its text, at exactly the nodes that hear a relay with a TTL of at least 2 |
| `FloodOutcomes.OutcomesExactly` | framework/agent.py:212-225 | over all orders of the copies, and whatever other nodes send, the sets of publications (who, with which TTL) in which a broadcast can end are exactly those that the subscriptions and k allow |
| `FloodOutcomes.SureExactly` | framework/agent.py:220-222 | a node is reached in every order if and only if all those sets have it |
| `FloodOutcomes.LongestPathSuffices` | framework/agent.py:216-222 | if no path without repetition from the origin has more than k links, every order reaches exactly the nodes within reach |
| `FloodOutcomes.EnoughHopsReachAll` | framework/agent.py:742-744 | so it does if k is at least the number of other nodes |
| `FloodOutcomes.HopOrderIsPossible` | framework/agent.py:212-225 | from every reachable state with all keys known a run in hop order brings the broadcast to its end |
| `KeyAgreement.UnicastKeyAgreement` | framework/agent.py:494-515 | a send key equals the receive key at the other end and unicast data decrypts to what was sent, under any retry, loss and reordering |
| `KeyAgreement.UnicastKeyNeverChanges` | framework/agent.py:746-766 | once set, the send key stays the same for the rest of the run |
| `KeyAgreement.RemovalBreaksAgreement` | framework/agent.py:579-591 | a removal breaks the agreement if and only if the receiver drops the sender |
| `KeyExchangeRun.SharedThenLost` | framework/agent.py:492-515 | a run from the start in which two nodes come to share a key, and the removal after which they no longer agree |
| `ReceiveLoop.ReceiveLoopSurvives` | framework/agent.py:426-519 | no message ends the receive loop of a node that drops no entry, in any run whose key changes have no bar in name and SSID, or whose third piece is the sender |
| `KeyChange.KcmRead` | framework/agent.py:477-480 | for any SSID and host: the frequency, the SSID up to its first bar and the third piece are read |
| `KeyChange.TargetIsSender` | framework/agent.py:602-602 | the third piece is the sender if and only if the SSID has no bar or the sender's name follows its first one |
| `KeyChange.KcmSurvivesExactly` | framework/agent.py:483-551 | the loop survives a key-change message if and only if the third piece is a listed neighbour other than the receiver, or the sender is unknown |
| `KeyChange.KcmMergesInto` | framework/utils.py:103-107 | a frequency other than 0 and a cut SSID that is not empty replace those of the third piece's entry, also when that is another host; nothing else in it and no other entry changes |
| `KeyChangeRun.LoopEndsExactly` | framework/agent.py:477-551 | a run from the start for any SSID: after one key change the neighbour, which dropped no entry, goes on if and only if the third piece is the sender |
| `KeyChangeRun.BarEndsLoop` | framework/agent.py:477-490 | an SSID with a bar and anything but the sender's name behind it ends the neighbour's loop in that run |
| `LossAccounting.CountersOfHistory` | framework/agent.py:302-353 | lost and success counters add up to the decryption attempts and the consecutive counter is the trailing run of failures modulo 5 |
| `LossAccounting.FiresAtFifthLoss` | framework/agent.py:309-332 | rescan or removal fires exactly when the failures in a row reach a multiple of five |
| `LossAccounting.MergeKeepsHistory` | framework/utils.py:92-118 | merging a scan result leaves the counters and their history alone |
| `LossAccounting.OthersKeepCounters` | framework/agent.py:199-379 | nothing but an attempt on the neighbour's own messages changes its counters |
| `PreviousKey.EitherKeyOpens` | framework/agent.py:247-301 | a copy from another node that passes the filters, is signed by its listed last hop and sealed with that hop's present or previous key is published with the same signed bytes under the own key, and the success is counted |
| `PreviousKey.OpensExactly` | framework/agent.py:247-332 | such a copy is published if and only if the last hop signed it and one of the two keys gives the signed bytes |
| `PreviousKey.OtherKeyIsLost` | framework/agent.py:300-332 | sealed with any other key, a copy counts as a loss, unless a wrong key happens to give the signed bytes |
| `PreviousKey.RescanKeepsOpening` | framework/agent.py:533-538 | after a rescan with any key, copies sealed with the key before it are still published |
| `PreviousKey.EarlierCopiesGetThrough` | framework/agent.py:266-278 | in any run, with key changes of the sender anywhere in it, a copy published under a key that the receiver had gets through as long as the receiver keeps the entry and finds at most one new key by rescans |
| `OwnMessages.RunKeepsOwn` | framework/agent.py:606-613 | in every run every node lists itself with the key it seals with |
| `OwnMessages.OwnMessagePublished` | framework/agent.py:231-262 | in every run an own message is published if and only if the present own key, or for an announcement the retired one, gives the signed bytes, and otherwise dropped without a count |
| `OwnMessages.OldOwnMessageIsDropped` | framework/agent.py:258-265 | an own message sealed with a former key is dropped |
| `OwnMessages.AnnouncementPublished` | framework/agent.py:593-613 | after every run a key change is announced and published under the retired key, and the next broadcast is sealed with the new one |
| `EntryUpdates.JoinUpdates` | framework/utils.py:92-118 | a scan result replaces every value it has and leaves every other, the time stamp follows the response RSSI, and no other entry changes |
| `EntryUpdates.JoinAdds` | framework/agent.py:563-570 | a new host gets an entry with the scanned values, empty counters and no unicast keys |
| `EntryUpdates.RescanUpdates` | framework/agent.py:527-543 | a rescan with a new key makes the former key the previous one and the scanned one the present one; with the known key it changes nothing |
| `EntryUpdates.KcmUpdates` | framework/agent.py:477-490 | the key-change message sets the frequency unless 0 and the SSID unless empty in the named entry, and nothing else |
| `EntryUpdates.RotationUpdates` | framework/agent.py:606-607 | a change of the own key changes the key in the own entry and nothing else in the list |
| `Cran.ResFiApp.constructor` | framework/apps/cran.py:249-261 | the generators start at 0, 1000, 1000 and 5001 |
| `Cran.ResFiApp.InitializeLocal` | framework/apps/cran.py:310-338 | a VAP with fresh ids and a request, unless one exists |
| `Cran.ResFiApp.CreateRemote` | framework/apps/cran.py:340-380 | a WTP with fresh ids and the requester's ids, a reply, a port and two wires, unless one exists |
| `Cran.ResFiApp.CompleteLocal` | framework/apps/cran.py:382-403 | the VAP takes over the ids of the reply and gets a port and two wires |
| `Cran.ResFiApp.Remove` | framework/apps/cran.py:405-410 | the VAP for the neighbour is forgotten |
| `Cran.ResFiApp.Process` | framework/apps/cran.py:903-925 | dispatch of the three message types |
| `Cran.ResFiApp.Rx` | framework/apps/cran.py:931-941 | messages are queued before the start and processed after it |
| `Cran.ResFiApp.RunNext` | framework/apps/cran.py:846-884 | the start-up steps in order, then the queue |
| `CranNetwork.IdsAreUnique` | framework/apps/cran.py:278-338 | in every run at most one VAP and one WTP per neighbour, and no id or port shared by two entries |
| `CranNetwork.P4WiringIsSafe` | framework/apps/cran.py:413-477 | in every run hwsim0 has port 0, inject0 port 1, every tunnel a port of its own from 2 on, and every wire joins a tunnel port with the base port of its kind |
| `SwitchWiring.EveryTunnelIsConnected` | framework/apps/cran.py:371-403 | in every run a VAP from its completion on and every WTP has a switch port of its own that carries its tunnel and is wired to the base port of its kind both ways |
| `IdNumbers.NumbersFollow` | framework/apps/cran.py:249-338 | in every run number k stands for tunnel and session 1000 + k and UDP port 5001 + k, and the numbers given out are those of the entries and of the VAPs that link failures removed |
| `StartQueue.QueueInOrder` | framework/apps/cran.py:877-879 | as many steps as there are queued messages process them first in, first out, and leave the queue empty |
| `StartQueue.QueueKeepsOrder` | framework/apps/cran.py:846-941 | receiving any messages before the start and processing them after it gives the same state and the same replies as starting first and receiving them then |
| `VapHandshake.CompletedVapKnowsPeer` | framework/apps/cran.py:382-403 | in every run the ids that a completed VAP has for the far end are those of the WTP there |
| `VapHandshake.VapMirror` | framework/apps/cran.py:340-403 | in every run without a link failure for the neighbour both ends mirror each other |
| `VapHandshake.MirrorsUntilLinkFailure` | framework/apps/cran.py:405-410 | once they mirror each other they keep doing so if and only if no link failure follows |
| `VapHandshake.OldCompletionIsAccepted` | framework/apps/cran.py:957-961 | after link failure and new link an old reply completes the new VAP against a WTP that points at the old one |
| `VapRun.SetupMirrors` | framework/apps/cran.py:310-403 | a run from the start after which both ends of a VAP mirror each other |
| `VapRun.MirrorIsLost` | framework/apps/cran.py:877-884 | a run from the start that delivers no message twice: a reply waits in the queue while the link is lost and regained, and completes a VAP that is not mirrored |
| `Tokens.SplitJoin` | iw-4.3/util.c:73-78 | cutting a joined list at its separators gives the list back |
| `Tokens.JoinSplit` | iw-4.3/util.c:73-78 | joining the tokens gives the text back and no token holds a separator |
| `Tokens.SplitAppend` | framework/agent.py:477-477 | cutting two texts joined by a separator gives the pieces of both |
| `Numerals.ReadDecimal` | framework/agent.py:478-478 | reading the decimal form of any number gives the number, and the form has only digits and a sign |
| `HexMask.ParseHexMask` | iw-4.3/util.c:51-113 | the buffers, the length, the status and the cut input string are those of the pattern that the tokens stand for |
| `HexMask.ParseHex` | iw-4.3/util.c:115-122 | the same without a mask; on success the length lies inside the buffer |
| `HexMask.ParseAccepts` | iw-4.3/util.c:73-107 | a text is accepted if and only if every token reads as a cell and all cells without room are don't-care, and as which pattern |
| `HexMask.ParseOverruns` | iw-4.3/util.c:77-102 | a write falls outside the buffer if and only if some token without room is a byte and all tokens up to it are well-formed |
| `HexMask.LengthExceedsBuffer` | iw-4.3/util.c:51-82 | the length of an accepted text is larger than the buffer if and only if the text has more than |s| / 2 + 1 colons |
| `HexMask.UnmaskedLengthFits` | iw-4.3/util.c:77-102 | without a mask an accepted text never has such a length |
| `HexMask.LengthCanExceed` | iw-4.3/util.c:77-82 | the pattern `::::-` is accepted with length 5 and a buffer of 4 |
| `HexMask.NonEmptyTokensFit` | iw-4.3/util.c:54-69 | without empty tokens every write stays inside the buffers |
| `HexMask.StoreBit` | iw-4.3/util.c:95-97 | one mask bit is set, least significant bit first, and no other is touched |
| `HexMask.PrintPattern` | iw-4.3/wowlan.c:456-463 | the printing loop writes hex or dashes for every position, separated by colons |
| `HexMask.PatternRoundTrip` | iw-4.3/coalesce.c:253-268 | parsing the printed form of any non-empty pattern gives the pattern back |
| `HexMask.BuffersRoundTrip` | iw-4.3/coalesce.c:253-268 | the same on byte and mask buffers; the mask comes back if and only if no bit behind the end was set |
| `HexMask.MaskIsUnique` | iw-4.3/util.c:95-97 | a packed mask is determined by the pattern |
| `HexMask.EmptyPatternGainsAByte` | iw-4.3/util.c:88-93 | an empty pattern comes back as one zero byte |
| `HexNumerals.NumeralRead` | iw-4.3/util.c:88-93 | every numeral in base 16, in small or capital letters, is read as its number capped at 64 bits and cut to 32, if that is a byte |
| `HexNumerals.PrefixedRead` | iw-4.3/util.c:88-93 | so it is behind 0x or 0X |
| `HexNumerals.MinusRead` | iw-4.3/util.c:88-93 | a minus sign takes the number from 2 to the 64th first |
| `HexNumerals.FarBeyond` | iw-4.3/util.c:91-93 | every number below 2 to the 64th whose lower 32 bits are a byte passes for that byte |
| `HexNumerals.DontCareExactly` | iw-4.3/util.c:79-82 | the don't-care tokens are exactly `-`, `xx` and `--`, and only with a mask |
| `VendorElement.HexToVendorSpecIe` | framework/utils.py:277-300 | the two error codes and the dotted and plain forms |
| `VendorElement.Dotted` | framework/utils.py:287-295 | the loop puts a colon after every pair of digits |
| `VendorElement.DottedIsOneElement` | framework/utils.py:287-297 | parsing the dotted form of any non-empty payload of up to 249 octets gives exactly one vendor element |
| `VendorElement.DottedPairIsTwoElements` | framework/connectors.py:111-115 | two dotted forms joined by a colon parse as two elements |
| `VendorElement.EmptyPayloadIsNoElement` | framework/utils.py:297-297 | without payload the parsed bytes are no element |
| `VendorElement.UnhexHexlify` | framework/utils.py:69-72 | decoding hex undoes encoding |
| `ScanDump.PrintVendor` | iw-4.3/scan.c:1707-1760 | all branches of the vendor dump |
| `ScanDump.PrintIes` | iw-4.3/scan.c:1762-1783 | any stream of well-formed elements is printed once each, in order, and the remaining length ends at 0 |
| `VendorDump.LookedUpExactly` | iw-4.3/scan.c:1720-1745 | the tables are asked exactly for bodies of at least four octets that begin with 00:50:f2 or 50:6f:9a |
| `VendorDump.SilentExactly` | iw-4.3/scan.c:1712-1750 | without the option for unknown elements nothing but a too short body is shown |
| `VendorDump.DumpsDiffer` | iw-4.3/scan.c:1707-1760 | with it, no two bodies without table entry are shown alike |
| `VendorDump.UnknownDiffer` | iw-4.3/scan.c:1773-1779 | no two elements without printer are shown alike |
| `ScanDump.FieldsRoundTrip` | framework/utils.py:50-55 | for a non-empty public key that can be imported the slices give back key, IV, public key and IP if and only if the IP field is not empty |
| `ScanDump.EmptyIpLosesPublicKey` | framework/utils.py:53-54 | with an empty IP field an empty text is imported as the public key: key and IV come back without it if that succeeds, and parsing raises if not |
| `ScanDump.DumpRestoresFields` | framework/connectors.py:140-166 | the line printed for a ResFi element is recognised, long enough from four octets of payload on, and yields the four fields it was built from |
| `ScanOutput.CollectEntries` | framework/connectors.py:126-143 | the loop over the output lines, including the failure when no signal line came before a dump |
| `ScanOutput.BuildNeighborList` | framework/connectors.py:145-171 | the loop that parses the dumps and the numbers beside them into the list of neighbours, with the failures on a text that is no number and on a key that cannot be imported, and without entries named `Error` |
| `ScanOutput.ScanFindsNeighbors` | framework/connectors.py:126-171 | for any number of access points with other lines in between, the list holds each one not named `Error` with its own keys and SSID and the numbers that its frequency and signal lines spell |
| `ScanOutput.LastWins` | framework/connectors.py:168-171 | the last of the access points with one address is in the list if and only if that address is not `Error` |
| `ScanOutput.OnlyScanned` | framework/connectors.py:168-171 | the addresses in the list are the scanned ones without `Error` |
| `ScanLines.FreqReads` | iw-4.3/scan.c:1924-1924 | the frequency line that iw prints is recognised as such and read back, for every number |
| `ScanLines.SignalReads` | iw-4.3/scan.c:1942-1942 | the signal is read back if and only if it is a whole number of dBm; otherwise its text is no number |
| `ScanLines.SsidReads` | framework/connectors.py:135-138 | an SSID without tabs, line ends and the labels the connector looks for is read back |
| `ScanLines.PrintedIsRead` | iw-4.3/scan.c:1922-1943 | from an access point through the printed lines to the neighbour entry, with the exact condition under which it can be used |
| `ScanLines.OneFractionFails` | framework/connectors.py:161-163 | one access point with a ResFi element and a signal that is no whole number of dBm makes the whole scan fail |
| `Rsn.PrintRsnIe` | iw-4.3/scan.c:725-882 | the printer with its cursor and remaining length decodes the body field by field |
| `Rsn.ReadSuites` | iw-4.3/scan.c:767-772 | the suite loop reads four octets per suite |
| `Rsn.ReadTail` | iw-4.3/scan.c:872-881 | the tail loop ends and prints exactly what is left |
| `Rsn.DecodeEncode` | iw-4.3/scan.c:725-882 | encoding any record with trailing fields left out and decoding it gives the record with no tail |
| `Rsn.EncodeDecode` | iw-4.3/scan.c:725-882 | every body is the encoding of the decoded record followed by the tail |
| `Rsn.SilentTail` | iw-4.3/scan.c:742-881 | what is left over is reported if and only if the authentication suites were read or a count does not fit; what is dropped without notice is shorter than the next field |
| `SchedScan.ParseSchedScan` | iw-4.3/scan.c:138-337 | the loop ends, count and position stay in step, and the result is that of the machine |
| `SchedScan.TopLevel` | iw-4.3/scan.c:140-226 | one step at top level, with all its error exits |
| `SchedScan.InList` | iw-4.3/scan.c:229-310 | one step inside a list, including the one that consumes nothing |
| `SchedScanLanguage.AcceptedIsValid` | iw-4.3/scan.c:138-337 | accepted arguments are a valid clause list followed by an argument that begins no clause |
| `SchedScanLanguage.ValidIsAccepted` | iw-4.3/scan.c:138-337 | every valid clause list is read back from its arguments |
| `SchedScanLanguage.AcceptsExactly` | iw-4.3/scan.c:138-337 | a whole argument list is accepted as given clauses if and only if they are valid and written that way |
| `SchedScanLanguage.Unambiguous` | iw-4.3/scan.c:138-337 | no argument list can be read in two ways |
| `SchedScanLanguage.AtMostOne` | iw-4.3/scan.c:141-205 | at most one interval, one frequency list, one match list, one of active and passive, and one delay other than 0 |
| `Wowlan.HandleWowlanEnable` | iw-4.3/wowlan.c:200-303 | the loop ends on every argument list with the verdict of the specification |
| `Wowlan.Register` | iw-4.3/wowlan.c:218-268 | one trigger, with the error exits |
| `Wowlan.NetDetectArgs` | iw-4.3/wowlan.c:184-198 | the scheduled-scan arguments and what is left after them |
| `Wowlan.EnableAcceptsExactly` | iw-4.3/wowlan.c:216-303 | the accepted argument lists are exactly the valid trigger lists, each read in one way |
| `WakeUpCommands.PrintedPatternIsRead` | iw-4.3/wowlan.c:274-289 | a printed pattern behind its offset, or without one, is read back with both |
| `WakeUpCommands.NullExactly` | iw-4.3/wowlan.c:273-285 | the pattern pointer is null if and only if the argument holds nothing but plus signs |
| `WakeUpCommands.WakeUpIsAccepted` | iw-4.3/wowlan.c:314-324 | every command with triggers of the usage text and printed patterns is accepted, each pattern with its offset and cells |
| `Refusals.RandomWithMask` | iw-4.3/scan.c:73-100 | a randomise argument with an equals sign is accepted if and only if a readable address, a slash and a readable mask follow |
| `Refusals.RandomWord` | iw-4.3/scan.c:73-80 | anything else behind the word is ignored |
| `Refusals.SchedScanCodes` | iw-4.3/scan.c:138-337 | whatever the arguments, the result is 0, -22, or the 1 of an unreadable randomise |
| `Refusals.EmptyList` | iw-4.3/scan.c:229-310 | a list without items is refused with -22 |
| `Refusals.BadScanValues` | iw-4.3/scan.c:394-426 | an unreadable randomise ends the scan with 1 and unreadable elements end it with -105 |
| `Refusals.WakeUpRefused` | iw-4.3/wowlan.c:218-289 | unknown triggers, triggers without argument and unreadable patterns are refused with 1 |
| `Refusals.WakeUpPartRefused` | iw-4.3/wowlan.c:232-262 | an unusable file and bad scheduled-scan arguments are refused with their own code |
| `ScanArgs.HandleScan` | iw-4.3/scan.c:372-445 | the loop ends although the index steps back, with the result of the specification |
| `ScanArgs.ScanAcceptsExactly` | iw-4.3/scan.c:372-445 | the roles given to the arguments are exactly the valid ones |
| `ScanArgs.BadIesReturns` | iw-4.3/scan.c:394-426 | a malformed ies argument is reported as a failure if and only if no randomise argument came before it |
| `ScanCommands.UsageIsAccepted` | iw-4.3/scan.c:2081-2084 | every command line that follows the usage text is accepted, with each argument in the role it has there |
| `ScanCommands.DecimalAsUnsigned` | iw-4.3/scan.c:405-413 | a number written in decimal is read capped at 64 bits and cut to 32 |
| `ScanCommands.NameCommand` | framework/connectors.py:122-124 | the connector's scan for a name on one frequency is accepted; every word of the name becomes an SSID of its own |
| `ScanCommands.FullCommand` | framework/connectors.py:109-116 | the connector's full scan is accepted, and its dotted payloads are taken for exactly the two vendor elements |
| `Sqn.IncSqn` | hostapd/hostapd/hlr_auc_gw.c:748-767 | the six octets hold SEQ + 1 and IND + 1 afterwards, reduced to 48 bits |
| `Sqn.LoadStore` | hostapd/hostapd/hlr_auc_gw.c:761-766 | loading undoes storing, octet by octet |
| `Sqn.AfterParts` | hostapd/hostapd/hlr_auc_gw.c:748-767 | n calls give SEQ0 + n and IND0 + n, each modulo its width |
| `Sqn.SqnIncreases` | hostapd/hostapd/hlr_auc_gw.c:784-793 | until SEQ wraps both SQN and SEQ strictly increase, also for equal INDs |
| `Sqn.IncreasesExactly` | hostapd/hostapd/hlr_auc_gw.c:748-767 | one call increases the SQN if and only if SEQ is not at its maximum |
| `Sqn.IndsDiffer` | hostapd/hostapd/hlr_auc_gw.c:763-763 | any 2^len consecutive SQNs have different INDs |
| `Triplets.TripletStore.GetGsmTriplet` | hostapd/hostapd/hlr_auc_gw.c:382-404 | the two loops find the first entry from the cursor on, around the end, and move the cursor behind it |
| `Triplets.TripletStore.SimReqAuth` | hostapd/hostapd/hlr_auc_gw.c:625-695 | an answer holds the next triplets of the IMSI in turn: 1 or 2 if so many are asked for, otherwise 3, and none if the IMSI has none |
| `Triplets.LookupRotates` | hostapd/hostapd/hlr_auc_gw.c:382-404 | a lookup fails only without triplets and otherwise moves the first one to the end of the turn |
| `Triplets.RoundRobin` | hostapd/hostapd/hlr_auc_gw.c:382-404 | from any cursor position the lookups serve the rotation in turn |
| `Triplets.ServesEachOnce` | hostapd/hostapd/hlr_auc_gw.c:382-404 | k lookups of an IMSI with k triplets return each once |
| `Triplets.RotationIsComplete` | hostapd/hostapd/hlr_auc_gw.c:382-404 | the turn holds every triplet of the IMSI exactly once |
| `Triplets.AnswerRepeatsExactly` | hostapd/hostapd/hlr_auc_gw.c:669-684 | an answer repeats no triplet if and only if there are enough, or none |
| `DomainList.EncodeDomains` | hostapd/hostapd/config_file.c:2734-2774 | the length-prefixed names fill the buffer of strlen + 1 octets exactly |
| `DomainList.CountDomains` | hostapd/hostapd/config_file.c:2747-2752 | the first loop counts the names |
| `DomainList.DecodesExactly` | hostapd/hostapd/config_file.c:2753-2770 | decoding gives the comma split if and only if every name has less than 256 octets |
| `ProbePower.Calc` | framework/apps/cran.py:499-521 | the loop computes the capacity |
| `ProbePower.OneClient` | framework/apps/cran.py:512-521 | one client gets its own rate or the backhaul |
| `ProbePower.EqualClients` | framework/apps/cran.py:512-521 | n clients with the same rate r get r / n or the backhaul |
| `ProbePower.TimesAddUp` | framework/apps/cran.py:512-521 | with ample backhaul the inverse capacities of two groups of clients add up |
| `ProbePower.OrderIsIrrelevant` | framework/apps/cran.py:512-521 | the capacity does not depend on the order of the clients |
| `ProbePower.NewClientLowers` | framework/apps/cran.py:512-521 | with ample backhaul another client strictly lowers the capacity |
| `ProbePower.CapacityBounds` | framework/apps/cran.py:499-521 | capacity lies between the smaller of slowest rate over n and backhaul and the smaller of slowest rate and backhaul |
| `ProbePower.PriorityIsShare` | framework/apps/cran.py:523-524 | the priority is the capacity's share of the largest rate, and 1 from that rate on |
| `ProbePower.ReceivedLevel` | framework/apps/cran.py:538-559 | between the limits the client receives the low threshold plus the granted share of the range |
| `ProbePower.NearClient` | framework/apps/cran.py:548-549 | a near client gets 1 dBm plus the granted share, up to the maximum |
| `ProbePower.FarClient` | framework/apps/cran.py:549-549 | where even the maximum does not reach the granted level, it is used |
| `ProbePower.AssertionsHold` | framework/apps/cran.py:551-554 | both assertions on the power hold for every priority of at least 0 |
| `ProbePower.AssertionsHoldFor` | framework/apps/cran.py:538-554 | both hold for the priority computed from any positive rates and any backhaul of at least 0 |
| `ProbePower.StaysAudible` | framework/apps/cran.py:556-561 | the reply is received at or above the low threshold if and only if full power would be |
| `ProbePower.ClientNeverRaisesPower` | framework/apps/cran.py:689-702 | another client never raises the power |
| `ProbePower.NeighborNotLouder` | framework/apps/cran.py:706-733 | no neighbour gets more power than the home AP outside the placeholder branch |
| `ProbePower.PlaceholderIsQuieter` | framework/apps/cran.py:690-733 | in the placeholder branch a neighbour gets more power than the home AP if and only if the thresholds differ, the home AP stays below the maximum, the bottleneck is above 1000 and the capacity and the largest rate are above 0.001 |
| `ProbePower.NormalizedGrows` | framework/apps/cran.py:519-533 | a backhaul raises the normalised capacity over that of 1000 bit/s exactly when it is larger and neither the wireless capacity nor the largest rate caps both |
| `ProbePower.PlaceholderPoint` | framework/apps/cran.py:690-692 | the start-up settings with rate 54, 50 Mbit/s everywhere and -80 dBm are such a case |
| `ProbePower.CalcTxPower` | framework/apps/cran.py:538-562 | capacity, priority and power in sequence |
| `ProbePower.GetPhyBitrate` | framework/apps/cran.py:589-597 | the fastest rate that the signal supports, in any order of the table |
| `ProbePower.FastestOfTable` | framework/apps/cran.py:578-597 | with the table's sensitivities that is 1 below -86 dBm, then 6, 9, 12, 18, 24, 36 and 48 from -86, -84, -82, -80, -77, -74 and -72 dBm on, and 54 from -70 dBm on |
| `ProbePower.AloneInCell` | framework/apps/cran.py:618-736 | with the program's settings and no active client the home AP answers with 16 dBm, except between -88.86 and -86 dBm, where the power is given |
| `ActiveClients.CollectRates` | framework/apps/cran.py:635-657 | the nested loops collect the rates of the active clients |
| `ActiveClients.WindowIsRecent` | framework/apps/cran.py:746-754 | the window holds the last five samples |
| `ActiveClients.CountsExactly` | framework/apps/cran.py:638-653 | a client is active if and only if it was sampled at least twice and its counter is not below that of four samples before, or of the first one |
| `ProbePower.CalculatePreplyTxPower` | framework/apps/cran.py:626-736 | from the clients' samples: one power for the home AP and one for every neighbour, none above the home AP's, except in the placeholder branch under the exact condition |

## Left out

- The events and sleeps that gate the threads of `framework/agent.py`: handlers are atomic, and no mutual exclusion is claimed from the events.
- The outcome of `rescan_neighbor`, `validateCurrentNeighborList`, `setChannel` and its guard, and all timestamps: scan results and removals are arbitrary actions instead.
- AES, RSA, OAEP, SHA-1, Milenage and the hex and base64 wrapping of messages; the initialisation vector is part of the key.
- FloodComplete.BroadcastReachesExactly: says nothing about runs in which, during the broadcast, one of its copies is lost, an entry is added or removed, a key changes, a receive loop ends or the origin sends another message; other nodes may send. FloodAnyOrder.AnyOrderReaches and the theorems of FloodOutcomes have the same scope; out of hop order the ball of radius k is not reached in general.
- Agent.ResFiAgent.ForwardMessage: a message from a neighbour that names `old_keys` as its last hop is ignored, where the source counts a loss on the entry of that name; no node sends such a message to another, so this occurs in no run.
- Agent.ResFiAgent.ReceiveMessage: the callback of the application is represented by the accepted text, and an exception inside it is not modelled. What the rescan after a key-change message finds or removes among the neighbours is an action of its own. Texts are taken as ASCII.
- Cran.ResFiApp.RunNext: the requests for set-up sent to all neighbours before the start are link actions of their own.
- Probe requests of other access points (`handle_incoming_probe_requests`): they enter as scan results.
- Tunnel interfaces, `hostapd`, network namespaces and the switch process behind `framework/apps/cran.py`; ids that travel as strings are numbers here. Messages may be repeated, which the real network does not do.
- ProbePower.CalculatePreplyTxPower: the samples and rates of the clients are parameters, and so are the backhauls, which the source replaces by 50 Mbit/s for every node; rounding of floating-point numbers is not modelled. Which clients are in the table at a time is left out.
- Calls with an empty list of rates or a rate of 0, which divide by zero in the source, are not modelled.
- HexMask.ParseHexMask: after a write that would fall outside a buffer the model stops with the status `Undefined`; contents of buffers after an error are not described, and neither are the bytes that a caller reads behind the buffer when the length is larger than it. Failing allocations are not modelled.
- ScanDump.PrintIes: streams with a truncated last element are not modelled, nor are the printers for elements other than vendor and unknown ones.
- ScanOutput.CollectEntries: a frequency that the caller passes as a number is represented by its decimal form, which reads back as the same number (Numerals.ReadDecimal).
- ScanOutput.ScanFindsNeighbors: whether a text can be imported as a public key is a parameter, and the imported key is represented by that text.
- Rsn.PrintRsnIe: the names of suites and capability bits are left out; the decoder keeps the octets they are printed from.
- SchedScan.ParseSchedScan: the netlink attributes that the clauses are turned into are left out, so it does not show that match, frequency and SSID lists are dropped when parsing stops at a foreign argument.
- ScanArgs.HandleScan: the joining of ies and mesh id into one attribute and the numbering of attributes are left out.
- The line-driven rule reader of `iw-4.3/coalesce.c` and the TCP file reader of `iw-4.3/wowlan.c`, apart from the pattern reader they share.
- Triplets.TripletStore.SimReqAuth: the Milenage branch and the text of the answers are left out, and so is re-synchronisation by AUTS.
- Sqn.IncSqn: IND lengths of 31 and 32 are accepted by the option parser but shift an `int` out of range; the model covers lengths up to 30.
- All other options of `config_file.c`, all other printers of `iw`, `speedtest.py`, the emulation set-up and the P4 program.
