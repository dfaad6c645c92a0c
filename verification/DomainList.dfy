/**
  The domain_name option of hostapd/hostapd/config_file.c: a comma-separated list becomes a list of length-prefixed
  names (section 8.4.4.15 of IEEE 802.11-2012) in a buffer of one octet more than the text has.
 */
module DomainList {
  import opened Agent
  import opened Tokens
  import opened HexMask

  /** A C string: characters are octets. */
  predicate IsText(s: string)
  {
    forall i | 0 <= i < |s| :: s[i] as int < 256
  }

  function ToBytes(s: string): (bs: seq<Byte>)
    requires IsText(s)
    ensures |bs| == |s|
  {
    seq(|s|, i requires 0 <= i < |s| => s[i] as int)
  }

  function ToText(bs: seq<Byte>): (s: string)
  {
    seq(|bs|, i requires 0 <= i < |bs| => bs[i] as char)
  }

  predicate AllText(names: seq<string>)
  {
    forall i | 0 <= i < |names| :: IsText(names[i])
  }

  /** The length octet takes the length modulo 256. */
  function EncodeName(name: string): (s: seq<Byte>)
    requires IsText(name)
    ensures |s| == |name| + 1
  {
    [|name| % 256] + ToBytes(name)
  }

  function EncodeNames(names: seq<string>): (s: seq<Byte>)
    requires AllText(names)
  {
    if names == [] then [] else EncodeName(names[0]) + EncodeNames(names[1..])
  }

  function DecodeNames(s: seq<Byte>): (r: Option<seq<string>>)
    decreases |s|
  {
    if s == [] then Some([])
    else
      var len: int := s[0];
      if 1 + len > |s| then None
      else
        var rest := DecodeNames(s[1 + len..]);
        if rest.None? then None else Some([ToText(s[1..1 + len])] + rest.value)
  }

  // ---------------------------------------------------------------- the encoder

  method StrChr(text: string, start: nat, c: char) returns (k: nat)
    requires start <= |text|
    ensures k == start + IndexOf(text[start..], c) <= |text|
  {
    k := start;
    while k < |text| && text[k] != c
      invariant start <= k <= |text|
      invariant IndexOf(text[start..], c) == IndexOf(text[start..], c, k - start)
    {
      k := k + 1;
    }
  }

  method CountDomains(text: string) returns (count: nat)
    ensures count == |Split(text, ',')|
  {
    var tok := 0;
    count := 1;
    assert text[0..] == text;
    while true
      invariant tok <= |text| && count + |Split(text[tok..], ',')| == |Split(text, ',')| + 1
      decreases |text| - tok
    {
      var k := StrChr(text, tok, ',');
      if k == |text| {
        break;
      }
      assert text[tok..][k - tok + 1..] == text[k + 1..];
      count := count + 1;
      tok := k + 1;
    }
  }

  /** Writes the length octet and the name at ptr. */
  method PutName(list: array<Byte>, ptr: nat, name: string)
    requires IsText(name) && ptr + |name| + 1 <= list.Length
    modifies list
    ensures list[..ptr] == old(list[..ptr]) && list[ptr..ptr + |name| + 1] == EncodeName(name)
  {
    list[ptr] := |name| % 256;
    ghost var before := list[..ptr + 1];
    for i := 0 to |name|
      invariant list[..ptr + 1] == before
      invariant list[ptr + 1..ptr + 1 + i] == ToBytes(name)[..i]
    {
      list[ptr + 1 + i] := name[i] as int;
      assert list[ptr + 1..ptr + 2 + i] == list[ptr + 1..ptr + 1 + i] + [name[i] as int];
    }
    assert list[ptr..ptr + |name| + 1] == [|name| % 256] + list[ptr + 1..ptr + 1 + |name|];
    assert list[..ptr] == before[..ptr];
  }

  /** The names before tokPrev are done: name j begins there. */
  ghost predicate Doing(text: string, names: seq<string>, j: nat, tokPrev: nat)
  {
    tokPrev <= |text| && j < |names| && names[j..] == Split(text[tokPrev..], ',')
  }

  lemma NextName(text: string, names: seq<string>, j: nat, tokPrev: nat, k: nat)
    requires Doing(text, names, j, tokPrev) && k == tokPrev + IndexOf(text[tokPrev..], ',') && k <= |text|
    ensures names[j] == text[tokPrev..k]
    ensures k == |text| ==> j + 1 == |names|
    ensures k < |text| ==> Doing(text, names, j + 1, k + 1)
  {
    var s := text[tokPrev..];
    assert s[..k - tokPrev] == text[tokPrev..k] && names[j + 1..] == names[j..][1..];
    if k < |text| {
      assert s[k - tokPrev + 1..] == text[k + 1..];
    }
  }

  lemma {:induction false} EncodeAppend(names: seq<string>, name: string)
    requires AllText(names) && IsText(name)
    ensures AllText(names + [name]) && EncodeNames(names + [name]) == EncodeNames(names) + EncodeName(name)
  {
    if names == [] {
      assert names + [name] == [name] && [name][1..] == [];
      assert EncodeNames([name]) == EncodeName(name) + EncodeNames([]);
    } else {
      assert (names + [name])[0] == names[0] && (names + [name])[1..] == names[1..] + [name];
      EncodeAppend(names[1..], name);
      Assoc(EncodeName(names[0]), EncodeNames(names[1..]), EncodeName(name));
    }
  }

  lemma Assoc(a: seq<Byte>, b: seq<Byte>, c: seq<Byte>)
    ensures a + (b + c) == (a + b) + c
  {
  }

  /** Name j goes where it begins in the text; it ends at k, one before the next. */
  method EncodeOne(list: array<Byte>, text: string, tokPrev: nat, ghost names: seq<string>, ghost j: nat)
    returns (k: nat)
    requires IsText(text) && AllText(names) && list.Length == |text| + 1 && Doing(text, names, j, tokPrev)
    requires list[..tokPrev] == EncodeNames(names[..j])
    modifies list
    ensures k <= |text| && list[..k + 1] == EncodeNames(names[..j + 1])
    ensures k == |text| ==> j + 1 == |names|
    ensures k < |text| ==> Doing(text, names, j + 1, k + 1)
  {
    k := StrChr(text, tokPrev, ',');
    NextName(text, names, j, tokPrev, k);
    EncodeAppend(names[..j], names[j]);
    assert names[..j + 1] == names[..j] + [names[j]];
    PutName(list, tokPrev, text[tokPrev..k]);
    assert list[..k + 1] == list[..tokPrev] + list[tokPrev..k + 1];
  }

  /** The buffer of strlen + 1 octets is filled to the last one. */
  method EncodeDomains(text: string) returns (list: array<Byte>)
    requires IsText(text)
    ensures fresh(list) && list.Length == |text| + 1
    ensures AllText(Split(text, ',')) && list[..] == EncodeNames(Split(text, ','))
  {
    list := new Byte[|text| + 1](_ => 0);
    var count := CountDomains(text);
    ghost var names := Split(text, ',');
    SplitIsText(text);
    var tokPrev: nat := 0;
    assert text[0..] == text && names[0..] == names && names[..0] == [];
    for j := 0 to count
      invariant j < count ==> Doing(text, names, j, tokPrev)
      invariant j == count ==> tokPrev == |text| + 1
      invariant tokPrev <= list.Length && list[..tokPrev] == EncodeNames(names[..j])
    {
      var k := EncodeOne(list, text, tokPrev, names, j);
      tokPrev := k + 1;
    }
    assert names[..count] == names && list[..list.Length] == list[..];
  }

  lemma {:induction false} SplitIsText(text: string)
    requires IsText(text)
    ensures AllText(Split(text, ','))
    decreases |text|
  {
    var k := IndexOf(text, ',');
    if k < |text| {
      SplitIsText(text[k + 1..]);
    }
  }

  // ---------------------------------------------------------------- decoding

  predicate AllShort(names: seq<string>)
  {
    forall i | 0 <= i < |names| :: |names[i]| < 256
  }

  lemma {:induction false} DecodedAreShort(s: seq<Byte>)
    requires DecodeNames(s).Some?
    ensures AllShort(DecodeNames(s).value)
    decreases |s|
  {
    if s != [] {
      DecodedAreShort(s[1 + s[0] as int..]);
    }
  }

  lemma NameBytes(name: string, rest: seq<Byte>)
    requires IsText(name) && |name| < 256
    ensures var s := EncodeName(name) + rest;
            s[0] == |name| && s[1..1 + |name|] == ToBytes(name) && s[1 + |name|..] == rest
  {
  }

  lemma TextBytes(name: string)
    requires IsText(name)
    ensures ToText(ToBytes(name)) == name
  {
  }

  lemma DecodeOne(name: string, rest: seq<Byte>)
    requires IsText(name) && |name| < 256 && DecodeNames(rest).Some?
    ensures DecodeNames(EncodeName(name) + rest) == Some([name] + DecodeNames(rest).value)
  {
    NameBytes(name, rest);
    TextBytes(name);
  }

  lemma {:induction false} DecodeEncode(names: seq<string>)
    requires AllText(names) && AllShort(names)
    ensures DecodeNames(EncodeNames(names)) == Some(names)
  {
    if names != [] {
      DecodeEncode(names[1..]);
      DecodeOne(names[0], EncodeNames(names[1..]));
      assert names == [names[0]] + names[1..];
    }
  }

  /** The list decodes to the names in the text if and only if every name has less than 256 octets. */
  lemma DecodesExactly(text: string)
    requires IsText(text)
    ensures AllText(Split(text, ','))
    ensures DecodeNames(EncodeNames(Split(text, ','))) == Some(Split(text, ',')) <==> AllShort(Split(text, ','))
  {
    SplitIsText(text);
    var names := Split(text, ',');
    if AllShort(names) {
      DecodeEncode(names);
    }
    if DecodeNames(EncodeNames(names)) == Some(names) {
      DecodedAreShort(EncodeNames(names));
    }
  }
}
