/**
  The RSN element printer of iw-4.3/scan.c, as a decoder (section 8.4.2.27 of IEEE 802.11-2012).  `isOsen` is the
  variant without a version field.  Printing is left out; what the cursor passes over is kept.
 */
module Rsn {
  import opened Agent
  import opened HexMask

  type Suite = s: seq<Byte> | |s| == 4 witness [0, 0, 0, 0]

  type Half = n: int | 0 <= n < 0x1_0000

  /** Every field is optional; pmkids holds the octets of all PMKIDs. */
  datatype Rsn = Rsn(
    version: Option<Half>,
    group: Option<Suite>,
    pairwise: Option<seq<Suite>>,
    auth: Option<seq<Suite>>,
    capabilities: Option<Half>,
    pmkids: Option<seq<Byte>>,
    groupMgmt: Option<Suite>)

  const NOTHING: Rsn := Rsn(None, None, None, None, None, None, None)

  /** reported: what is left over is printed as bogus tail data rather than dropped in silence. */
  datatype Decoded = Decoded(rsn: Rsn, tail: seq<Byte>, reported: bool)

  function Le16(d: seq<Byte>): (n: Half)
    requires |d| >= 2
  {
    Word(d[0], d[1])
  }

  /** Two octets, the lower one first. */
  function Word(low: int, high: int): (n: int)
    ensures 0 <= low < 256 && 0 <= high < 256 ==> 0 <= n < 0x1_0000
  {
    low + 256 * high
  }

  function Suites(d: seq<Byte>, count: nat): (ss: seq<Suite>)
    requires 4 * count <= |d|
    ensures |ss| == count
  {
    seq(count, i requires 0 <= i < count => d[4 * i..4 * i + 4])
  }

  // ---------------------------------------------------------------- the decoder, field by field

  function Decode(body: seq<Byte>, isOsen: bool): (r: Decoded)
    requires isOsen || |body| >= 2
  {
    if isOsen then FromGroup(NOTHING, body) else FromGroup(NOTHING.(version := Some(Le16(body))), body[2..])
  }

  function FromGroup(acc: Rsn, d: seq<Byte>): (r: Decoded)
  {
    if |d| < 4 then Decoded(acc, d, false) else FromPairwise(acc.(group := Some(d[..4])), d[4..])
  }

  function FromPairwise(acc: Rsn, d: seq<Byte>): (r: Decoded)
  {
    if |d| < 2 then Decoded(acc, d, false)
    else
      var n: int := Le16(d);
      if 2 + 4 * n > |d| then Decoded(acc, d, true)
      else FromAuth(acc.(pairwise := Some(Suites(d[2..], n))), d[2 + 4 * n..])
  }

  function FromAuth(acc: Rsn, d: seq<Byte>): (r: Decoded)
  {
    if |d| < 2 then Decoded(acc, d, false)
    else
      var n: int := Le16(d);
      if 2 + 4 * n > |d| then Decoded(acc, d, true)
      else FromCapabilities(acc.(auth := Some(Suites(d[2..], n))), d[2 + 4 * n..])
  }

  function FromCapabilities(acc: Rsn, d: seq<Byte>): (r: Decoded)
  {
    if |d| < 2 then FromPmkids(acc, d) else FromPmkids(acc.(capabilities := Some(Le16(d))), d[2..])
  }

  function FromPmkids(acc: Rsn, d: seq<Byte>): (r: Decoded)
  {
    if |d| < 2 then FromGroupMgmt(acc, d)
    else
      var n: int := Le16(d);
      if |d| < 2 + 16 * n then Decoded(acc, d, true)
      else FromGroupMgmt(acc.(pmkids := Some(d[2..2 + 16 * n])), d[2 + 16 * n..])
  }

  function FromGroupMgmt(acc: Rsn, d: seq<Byte>): (r: Decoded)
  {
    if |d| < 4 then Decoded(acc, d, true) else Decoded(acc.(groupMgmt := Some(d[..4])), d[4..], true)
  }

  // ---------------------------------------------------------------- the printer's loop and cursor

  method ReadSuites(body: seq<Byte>, data: nat, count: nat) returns (ss: seq<Suite>)
    requires data + 4 * count <= |body|
    ensures ss == Suites(body[data..], count)
  {
    ss := [];
    for i := 0 to count
      invariant ss == Suites(body[data..], i)
    {
      assert body[data..][4 * i..4 * i + 4] == body[data + 4 * i..data + 4 * i + 4];
      ss := ss + [body[data + 4 * i..data + 4 * i + 4]];
    }
  }

  method ReadTail(body: seq<Byte>, start: nat, left: nat) returns (tail: seq<Byte>)
    requires start + left == |body|
    ensures tail == body[start..]
  {
    tail := [];
    var data, len := start, left;
    while len != 0
      invariant start <= data && 0 <= len && data + len == |body| && tail == body[start..data]
      decreases len
    {
      tail := tail + [body[data]];
      data := data + 1;
      len := len - 1;
    }
  }

  /** A suite list at the cursor: None when its count does not fit what is left. */
  method ReadList(body: seq<Byte>, data: nat, len: nat) returns (ss: Option<seq<Suite>>)
    requires data + len == |body| && len >= 2
    ensures var d := body[data..];
            ss == if 2 + 4 * Le16(d) > len then None else Some(Suites(d[2..], Le16(d)))
  {
    var count: int := Word(body[data], body[data + 1]);
    if 2 + 4 * count > len {
      return None;
    }
    var list := ReadSuites(body, data + 2, count);
    assert body[data..][2..] == body[data + 2..];
    ss := Some(list);
  }

  /** Everything after the suite lists. */
  method ReadEnd(body: seq<Byte>, start: nat, left: nat, acc: Rsn) returns (r: Decoded)
    requires start + left == |body|
    ensures r == FromCapabilities(acc, body[start..])
  {
    var data, len := start, left;
    var rsn := acc;
    if len >= 2 {
      rsn := rsn.(capabilities := Some(Word(body[data], body[data + 1])));
      assert body[data..][2..] == body[data + 2..];
      data := data + 2;
      len := len - 2;
    }
    ghost var d := body[data..];
    if len >= 2 {
      var count: int := Word(body[data], body[data + 1]);
      if len >= 2 + 16 * count {
        assert d[2..2 + 16 * count] == body[data + 2..data + 2 + 16 * count];
        assert d[2 + 16 * count..] == body[data + 2 + 16 * count..];
        rsn := rsn.(pmkids := Some(body[data + 2..data + 2 + 16 * count]));
        data := data + 2 + 16 * count;
        len := len - (2 + 16 * count);
      } else {
        var tail := ReadTail(body, data, len);
        return Decoded(rsn, tail, true);
      }
    }
    if len >= 4 {
      assert body[data..][..4] == body[data..data + 4] && body[data..][4..] == body[data + 4..];
      rsn := rsn.(groupMgmt := Some(body[data..data + 4]));
      data := data + 4;
      len := len - 4;
    }
    var tail := ReadTail(body, data, len);
    r := Decoded(rsn, tail, true);
  }

  /** The printer: cursor plus remaining length is the end of the element at every step. */
  method PrintRsnIe(body: seq<Byte>, isOsen: bool) returns (r: Decoded)
    requires |body| <= 255 && (isOsen || |body| >= 2)
    ensures r == Decode(body, isOsen)
  {
    var data, len := 0, |body|;
    var rsn := NOTHING;
    assert body[0..] == body;
    if !isOsen {
      rsn := rsn.(version := Some(Word(body[data], body[data + 1])));
      data := data + 2;
      len := len - 2;
    }
    if len < 4 {
      return Decoded(rsn, body[data..], false);
    }
    assert body[data..][..4] == body[data..data + 4] && body[data..][4..] == body[data + 4..];
    rsn := rsn.(group := Some(body[data..data + 4]));
    data := data + 4;
    len := len - 4;
    r := ReadLists(body, data, len, rsn);
  }

  lemma Onwards(body: seq<Byte>, start: nat, used: nat)
    requires start + used <= |body|
    ensures body[start..][used..] == body[start + used..]
  {
  }

  method ReadLists(body: seq<Byte>, start: nat, left: nat, acc: Rsn) returns (r: Decoded)
    requires start + left == |body|
    ensures r == FromPairwise(acc, body[start..])
  {
    if left < 2 {
      return Decoded(acc, body[start..], false);
    }
    var list := ReadList(body, start, left);
    if list.None? {
      var tail := ReadTail(body, start, left);
      return Decoded(acc, tail, true);
    }
    var used := 2 + 4 * |list.value|;
    Onwards(body, start, used);
    r := ReadAuth(body, start + used, left - used, acc.(pairwise := list));
  }

  method ReadAuth(body: seq<Byte>, start: nat, left: nat, acc: Rsn) returns (r: Decoded)
    requires start + left == |body|
    ensures r == FromAuth(acc, body[start..])
  {
    if left < 2 {
      return Decoded(acc, body[start..], false);
    }
    var list := ReadList(body, start, left);
    if list.None? {
      var tail := ReadTail(body, start, left);
      return Decoded(acc, tail, true);
    }
    var used := 2 + 4 * |list.value|;
    Onwards(body, start, used);
    r := ReadEnd(body, start + used, left - used, acc.(auth := list));
  }

  // ---------------------------------------------------------------- the encoding

  function Encode16(n: Half): (s: seq<Byte>)
    ensures |s| == 2 && Le16(s) == n
  {
    [n % 256, n / 256]
  }

  function Concat(ss: seq<Suite>): (s: seq<Byte>)
    ensures |s| == 4 * |ss|
  {
    if ss == [] then [] else Concat(ss[..|ss| - 1]) + ss[|ss| - 1]
  }

  function EncodeHalf(f: Option<Half>): (s: seq<Byte>)
  {
    if f.None? then [] else Encode16(f.value)
  }

  function EncodeSuite(f: Option<Suite>): (s: seq<Byte>)
  {
    if f.None? then [] else f.value
  }

  function EncodeList(f: Option<seq<Suite>>): (s: seq<Byte>)
    requires f.Some? ==> |f.value| < 0x1_0000
  {
    if f.None? then [] else Encode16(|f.value|) + Concat(f.value)
  }

  function EncodePmkids(f: Option<seq<Byte>>): (s: seq<Byte>)
    requires f.Some? ==> |f.value| % 16 == 0 && |f.value| / 16 < 0x1_0000
  {
    if f.None? then [] else Encode16(|f.value| / 16) + f.value
  }

  /** The counts fit their fields. */
  predicate Encodable(r: Rsn)
  {
    && (r.pairwise.Some? ==> |r.pairwise.value| < 0x1_0000)
    && (r.auth.Some? ==> |r.auth.value| < 0x1_0000)
    && (r.pmkids.Some? ==> |r.pmkids.value| % 16 == 0 && |r.pmkids.value| / 16 < 0x1_0000)
  }

  /** A field is present only if all fields before it are. */
  predicate NoGaps(r: Rsn, isOsen: bool)
  {
    && r.version.Some? == !isOsen
    && (r.pairwise.Some? ==> r.group.Some?) && (r.auth.Some? ==> r.pairwise.Some?)
    && (r.capabilities.Some? ==> r.auth.Some?) && (r.pmkids.Some? ==> r.capabilities.Some?)
    && (r.groupMgmt.Some? ==> r.pmkids.Some?)
  }

  function Encode(r: Rsn): (s: seq<Byte>)
    requires Encodable(r)
  {
    EncodeHalf(r.version) + (EncodeSuite(r.group) + (EncodeList(r.pairwise) + EncodeFromAuth(r)))
  }

  function EncodeFromAuth(r: Rsn): (s: seq<Byte>)
    requires Encodable(r)
  {
    EncodeList(r.auth) + (EncodeHalf(r.capabilities) + (EncodePmkids(r.pmkids) + EncodeSuite(r.groupMgmt)))
  }

  lemma {:induction false} ConcatSuites(ss: seq<Suite>, rest: seq<Byte>)
    ensures Suites(Concat(ss) + rest, |ss|) == ss
  {
    if ss != [] {
      var k := |ss| - 1;
      var d := Concat(ss) + rest;
      ConcatSuites(ss[..k], ss[k] + rest);
      assert d == Concat(ss[..k]) + (ss[k] + rest);
      assert d[4 * k..4 * k + 4] == ss[k];
      assert Suites(d, k) == ss[..k];
    }
  }

  lemma {:induction false} SuitesConcat(d: seq<Byte>, count: nat)
    requires 4 * count <= |d|
    ensures Concat(Suites(d, count)) == d[..4 * count]
  {
    if count > 0 {
      var k := count - 1;
      SuitesConcat(d, k);
      assert Suites(d, count)[..k] == Suites(d, k);
      assert d[..4 * count] == d[..4 * k] + d[4 * k..4 * count];
    }
  }

  // ---------------------------------------------------------------- decoding an encoding

  lemma HalfBack(n: Half, rest: seq<Byte>)
    ensures var d := Encode16(n) + rest; |d| >= 2 && Le16(d) == n && d[2..] == rest
  {
  }

  lemma ListBack(ss: seq<Suite>, rest: seq<Byte>)
    requires |ss| < 0x1_0000
    ensures var d := EncodeList(Some(ss)) + rest;
            && |d| >= 2 + 4 * |ss| && Le16(d) == |ss| && Suites(d[2..], |ss|) == ss && d[2 + 4 * |ss|..] == rest
  {
    var d := EncodeList(Some(ss)) + rest;
    assert d[2..] == Concat(ss) + rest;
    ConcatSuites(ss, rest);
  }

  lemma PmkidsBack(ps: seq<Byte>, rest: seq<Byte>)
    requires |ps| % 16 == 0 && |ps| / 16 < 0x1_0000
    ensures var d := EncodePmkids(Some(ps)) + rest;
            var n := |ps| / 16;
            && 16 * n == |ps| && |d| >= 2 + 16 * n && Le16(d) == n
            && d[2..2 + 16 * n] == ps && d[2 + 16 * n..] == rest
  {
  }

  lemma GroupMgmtBack(r: Rsn)
    ensures FromGroupMgmt(r.(groupMgmt := None), EncodeSuite(r.groupMgmt)) == Decoded(r, [], true)
  {
    if r.groupMgmt.Some? {
      assert r.groupMgmt.value[..4] == r.groupMgmt.value;
    }
  }

  lemma PmkidsRoundTrip(r: Rsn)
    requires Encodable(r) && (r.groupMgmt.Some? ==> r.pmkids.Some?)
    ensures FromPmkids(r.(pmkids := None, groupMgmt := None), EncodePmkids(r.pmkids) + EncodeSuite(r.groupMgmt))
         == Decoded(r, [], true)
  {
    GroupMgmtBack(r);
    if r.pmkids.Some? {
      PmkidsBack(r.pmkids.value, EncodeSuite(r.groupMgmt));
    }
  }

  lemma CapabilitiesRoundTrip(r: Rsn)
    requires Encodable(r) && (r.groupMgmt.Some? ==> r.pmkids.Some?) && (r.pmkids.Some? ==> r.capabilities.Some?)
    ensures FromCapabilities(r.(capabilities := None, pmkids := None, groupMgmt := None),
                             EncodeHalf(r.capabilities) + (EncodePmkids(r.pmkids) + EncodeSuite(r.groupMgmt)))
         == Decoded(r, [], true)
  {
    PmkidsRoundTrip(r);
    if r.capabilities.Some? {
      HalfBack(r.capabilities.value, EncodePmkids(r.pmkids) + EncodeSuite(r.groupMgmt));
    }
  }

  lemma AuthRoundTrip(r: Rsn, isOsen: bool)
    requires Encodable(r) && NoGaps(r, isOsen)
    ensures var q := FromAuth(r.(auth := None, capabilities := None, pmkids := None, groupMgmt := None), EncodeFromAuth(r));
            q.rsn == r && q.tail == []
  {
    CapabilitiesRoundTrip(r);
    if r.auth.Some? {
      ListBack(r.auth.value, EncodeHalf(r.capabilities) + (EncodePmkids(r.pmkids) + EncodeSuite(r.groupMgmt)));
    }
  }

  lemma PairwiseRoundTrip(r: Rsn, isOsen: bool)
    requires Encodable(r) && NoGaps(r, isOsen)
    ensures var acc := NOTHING.(version := r.version, group := r.group);
            var q := FromPairwise(acc, EncodeList(r.pairwise) + EncodeFromAuth(r));
            q.rsn == r && q.tail == []
  {
    AuthRoundTrip(r, isOsen);
    if r.pairwise.Some? {
      ListBack(r.pairwise.value, EncodeFromAuth(r));
    }
  }

  /** Encoding any record with its trailing fields left out and decoding it gives the record, with no tail. */
  lemma DecodeEncode(r: Rsn, isOsen: bool)
    requires Encodable(r) && NoGaps(r, isOsen)
    ensures isOsen || |Encode(r)| >= 2
    ensures Decode(Encode(r), isOsen).rsn == r && Decode(Encode(r), isOsen).tail == []
  {
    PairwiseRoundTrip(r, isOsen);
    var lists := EncodeList(r.pairwise) + EncodeFromAuth(r);
    if r.group.Some? {
      assert (r.group.value + lists)[..4] == r.group.value && (r.group.value + lists)[4..] == lists;
    }
    if !isOsen {
      HalfBack(r.version.value, EncodeSuite(r.group) + lists);
    } else {
      assert Encode(r) == EncodeSuite(r.group) + lists;
    }
  }

  // ---------------------------------------------------------------- encoding what was decoded

  /** From the group management cipher on: the input is the new field and the tail, and acc is kept. */
  predicate SplitsMgmt(acc: Rsn, d: seq<Byte>, q: Decoded)
  {
    && q.rsn.(groupMgmt := None) == acc && (|d| < 4 ==> q.rsn == acc)
    && EncodeSuite(q.rsn.groupMgmt) + q.tail == d
  }

  predicate SplitsPmkids(acc: Rsn, d: seq<Byte>, q: Decoded)
  {
    && q.rsn.(pmkids := None, groupMgmt := None) == acc && (|d| < 2 ==> q.rsn == acc)
    && Encodable(q.rsn) && (q.rsn.groupMgmt.Some? ==> q.rsn.pmkids.Some?)
    && EncodePmkids(q.rsn.pmkids) + (EncodeSuite(q.rsn.groupMgmt) + q.tail) == d
  }

  predicate SplitsCapabilities(acc: Rsn, d: seq<Byte>, q: Decoded)
  {
    && q.rsn.(capabilities := None, pmkids := None, groupMgmt := None) == acc && Encodable(q.rsn)
    && (q.rsn.groupMgmt.Some? ==> q.rsn.pmkids.Some?) && (q.rsn.pmkids.Some? ==> q.rsn.capabilities.Some?)
    && EncodeHalf(q.rsn.capabilities) + (EncodePmkids(q.rsn.pmkids) + (EncodeSuite(q.rsn.groupMgmt) + q.tail)) == d
  }

  predicate SplitsAuth(acc: Rsn, d: seq<Byte>, q: Decoded)
  {
    && q.rsn.(auth := None, capabilities := None, pmkids := None, groupMgmt := None) == acc && Encodable(q.rsn)
    && (q.rsn.groupMgmt.Some? ==> q.rsn.pmkids.Some?) && (q.rsn.pmkids.Some? ==> q.rsn.capabilities.Some?)
    && (q.rsn.capabilities.Some? ==> q.rsn.auth.Some?)
    && EncodeFromAuth(q.rsn) + q.tail == d
  }

  predicate SplitsPairwise(acc: Rsn, d: seq<Byte>, q: Decoded)
  {
    && q.rsn.version == acc.version && q.rsn.group == acc.group && Encodable(q.rsn)
    && (acc.group.Some? ==> NoGaps(q.rsn, acc.version.None?))
    && EncodeList(q.rsn.pairwise) + (EncodeFromAuth(q.rsn) + q.tail) == d
  }

  lemma Encode16Le(d: seq<Byte>)
    requires |d| >= 2
    ensures Encode16(Le16(d)) == d[..2] && d == d[..2] + d[2..]
  {
    WordParts(d[0], d[1]);
  }

  lemma WordParts(low: int, high: int)
    requires 0 <= low < 256 && 0 <= high < 256
    ensures Word(low, high) % 256 == low && Word(low, high) / 256 == high
  {
  }

  lemma MgmtSplits(acc: Rsn, d: seq<Byte>)
    requires acc.groupMgmt.None?
    ensures SplitsMgmt(acc, d, FromGroupMgmt(acc, d))
  {
  }

  lemma PmkidsField(d: seq<Byte>)
    requires |d| >= 2 && |d| >= 2 + 16 * (Le16(d) as int)
    ensures var n: int := Le16(d);
            var ps := d[2..2 + 16 * n];
            && |ps| % 16 == 0 && |ps| / 16 == n
            && EncodePmkids(Some(ps)) == d[..2 + 16 * n] && d == d[..2 + 16 * n] + d[2 + 16 * n..]
  {
    Encode16Le(d);
  }

  lemma MgmtToPmkids(acc: Rsn, ps: seq<Byte>, rest: seq<Byte>, q: Decoded)
    requires Encodable(acc) && acc.pmkids.None? && acc.groupMgmt.None?
    requires |ps| % 16 == 0 && |ps| / 16 < 0x1_0000 && SplitsMgmt(acc.(pmkids := Some(ps)), rest, q)
    ensures SplitsPmkids(acc, EncodePmkids(Some(ps)) + rest, q)
  {
  }

  lemma PmkidsSplit(acc: Rsn, d: seq<Byte>)
    requires Encodable(acc) && acc.pmkids.None? && acc.groupMgmt.None?
    ensures SplitsPmkids(acc, d, FromPmkids(acc, d))
  {
    if |d| < 2 {
      MgmtSplits(acc, d);
    } else {
      var n: int := Le16(d);
      if |d| >= 2 + 16 * n {
        var ps, rest := d[2..2 + 16 * n], d[2 + 16 * n..];
        PmkidsField(d);
        MgmtSplits(acc.(pmkids := Some(ps)), rest);
        MgmtToPmkids(acc, ps, rest, FromGroupMgmt(acc.(pmkids := Some(ps)), rest));
      }
    }
  }

  lemma PmkidsToCapabilities(acc: Rsn, c: Option<Half>, rest: seq<Byte>, q: Decoded)
    requires acc.capabilities.None? && SplitsPmkids(acc.(capabilities := c), rest, q) && (c.None? ==> |rest| < 2)
    requires acc.pmkids.None?
    ensures SplitsCapabilities(acc, EncodeHalf(c) + rest, q)
  {
  }

  lemma CapabilitiesSplit(acc: Rsn, d: seq<Byte>)
    requires Encodable(acc) && acc.capabilities.None? && acc.pmkids.None? && acc.groupMgmt.None?
    ensures SplitsCapabilities(acc, d, FromCapabilities(acc, d))
  {
    if |d| < 2 {
      PmkidsSplit(acc, d);
      PmkidsToCapabilities(acc, None, d, FromPmkids(acc, d));
    } else {
      var next := acc.(capabilities := Some(Le16(d)));
      PmkidsSplit(next, d[2..]);
      Encode16Le(d);
      PmkidsToCapabilities(acc, Some(Le16(d)), d[2..], FromPmkids(next, d[2..]));
    }
  }

  lemma ListSplit(d: seq<Byte>)
    requires |d| >= 2 && 2 + 4 * (Le16(d) as int) <= |d|
    ensures var n: int := Le16(d);
            EncodeList(Some(Suites(d[2..], n))) == d[..2 + 4 * n] && d == d[..2 + 4 * n] + d[2 + 4 * n..]
  {
    var n: int := Le16(d);
    SuitesConcat(d[2..], n);
    Encode16Le(d);
    assert d[2..][..4 * n] == d[2..2 + 4 * n];
  }

  lemma CapabilitiesToAuth(acc: Rsn, ss: seq<Suite>, rest: seq<Byte>, q: Decoded)
    requires |ss| < 0x1_0000 && acc.auth.None? && SplitsCapabilities(acc.(auth := Some(ss)), rest, q)
    ensures SplitsAuth(acc, EncodeList(Some(ss)) + rest, q)
  {
    var r := q.rsn;
    Shift(EncodeList(r.auth), EncodeHalf(r.capabilities), EncodePmkids(r.pmkids), EncodeSuite(r.groupMgmt), q.tail);
  }

  lemma Shift(a: seq<Byte>, b: seq<Byte>, c: seq<Byte>, d: seq<Byte>, t: seq<Byte>)
    ensures (a + (b + (c + d))) + t == a + (b + (c + (d + t)))
  {
  }

  lemma AuthSplits(acc: Rsn, d: seq<Byte>)
    requires Encodable(acc) && acc.auth.None? && acc.capabilities.None? && acc.pmkids.None? && acc.groupMgmt.None?
    ensures SplitsAuth(acc, d, FromAuth(acc, d))
  {
    if |d| >= 2 && 2 + 4 * (Le16(d) as int) <= |d| {
      var n: int := Le16(d);
      var ss, rest := Suites(d[2..], n), d[2 + 4 * n..];
      var next := acc.(auth := Some(ss));
      ListSplit(d);
      CapabilitiesSplit(next, rest);
      CapabilitiesToAuth(acc, ss, rest, FromCapabilities(next, rest));
    }
  }

  lemma AuthToPairwise(acc: Rsn, ss: seq<Suite>, rest: seq<Byte>, q: Decoded)
    requires |ss| < 0x1_0000 && acc.pairwise.None? && SplitsAuth(acc.(pairwise := Some(ss)), rest, q)
    ensures SplitsPairwise(acc, EncodeList(Some(ss)) + rest, q)
  {
  }

  lemma PairwiseSplits(acc: Rsn, d: seq<Byte>)
    requires acc == NOTHING.(version := acc.version, group := acc.group)
    ensures SplitsPairwise(acc, d, FromPairwise(acc, d))
  {
    if |d| >= 2 && 2 + 4 * (Le16(d) as int) <= |d| {
      var n: int := Le16(d);
      var ss, rest := Suites(d[2..], n), d[2 + 4 * n..];
      var next := acc.(pairwise := Some(ss));
      ListSplit(d);
      AuthSplits(next, rest);
      AuthToPairwise(acc, ss, rest, FromAuth(next, rest));
    }
  }

  lemma PairwiseToAll(acc: Rsn, g: Suite, rest: seq<Byte>, q: Decoded)
    requires acc == NOTHING.(version := acc.version) && SplitsPairwise(acc.(group := Some(g)), rest, q)
    ensures Encodable(q.rsn) && NoGaps(q.rsn, acc.version.None?)
    ensures Encode(q.rsn) + q.tail == EncodeHalf(acc.version) + (g + rest)
  {
    var r := q.rsn;
    Shift(EncodeHalf(r.version), EncodeSuite(r.group), EncodeList(r.pairwise), EncodeFromAuth(r), q.tail);
  }

  /** Every body is the encoding of the decoded record followed by the tail: nothing is read twice or lost. */
  lemma EncodeDecode(body: seq<Byte>, isOsen: bool)
    requires isOsen || |body| >= 2
    ensures var q := Decode(body, isOsen);
            Encodable(q.rsn) && NoGaps(q.rsn, isOsen) && Encode(q.rsn) + q.tail == body
  {
    var acc := if isOsen then NOTHING else NOTHING.(version := Some(Le16(body)));
    var d := if isOsen then body else body[2..];
    if !isOsen {
      Encode16Le(body);
    }
    assert EncodeHalf(acc.version) + d == body;
    if |d| >= 4 {
      var next := acc.(group := Some(d[..4]));
      PairwiseSplits(next, d[4..]);
      PairwiseToAll(acc, d[..4], d[4..], FromPairwise(next, d[4..]));
      assert d == d[..4] + d[4..];
    } else {
      assert Encode(acc) == EncodeHalf(acc.version);
    }
  }

  lemma EndReports(acc: Rsn, d: seq<Byte>)
    ensures FromCapabilities(acc, d).reported
  {
  }

  lemma ListsReport(acc: Rsn, d: seq<Byte>)
    requires acc.auth.None?
    ensures var q := FromAuth(acc, d); q.reported <==> q.rsn.auth.Some? || |q.tail| >= 2
    ensures var q := FromPairwise(acc, d);
            q.rsn.group == acc.group && (q.reported <==> q.rsn.auth.Some? || |q.tail| >= 2)
  {
    AuthReports(acc, d);
    if |d| >= 2 && 2 + 4 * (Le16(d) as int) <= |d| {
      var n: int := Le16(d);
      AuthReports(acc.(pairwise := Some(Suites(d[2..], n))), d[2 + 4 * n..]);
    }
  }

  lemma AuthReports(acc: Rsn, d: seq<Byte>)
    requires acc.auth.None?
    ensures var q := FromAuth(acc, d);
            q.rsn.group == acc.group && (q.reported <==> q.rsn.auth.Some? || |q.tail| >= 2)
  {
    if |d| >= 2 && 2 + 4 * (Le16(d) as int) <= |d| {
      var n: int := Le16(d);
      var next, rest := acc.(auth := Some(Suites(d[2..], n))), d[2 + 4 * n..];
      EndReports(next, rest);
      EndKeepsLists(next, rest);
    }
  }

  lemma EndKeepsLists(acc: Rsn, d: seq<Byte>)
    ensures FromCapabilities(acc, d).rsn.auth == acc.auth && FromCapabilities(acc, d).rsn.group == acc.group
  {
  }

  /**
    What is left over is printed as tail data if and only if the authentication suites were read, or the group
    cipher was and at least two octets are left, a count that does not fit.  Otherwise at most three octets are
    dropped in silence, because the next field would not fit.
   */
  lemma SilentTail(body: seq<Byte>, isOsen: bool)
    requires isOsen || |body| >= 2
    ensures var q := Decode(body, isOsen);
            && (q.reported <==> q.rsn.auth.Some? || (q.rsn.group.Some? && |q.tail| >= 2))
            && (!q.reported ==> |q.tail| < (if q.rsn.group.None? then 4 else 2))
  {
    var acc := if isOsen then NOTHING else NOTHING.(version := Some(Le16(body)));
    var d := if isOsen then body else body[2..];
    if |d| >= 4 {
      ListsReport(acc.(group := Some(d[..4])), d[4..]);
    }
  }
}
