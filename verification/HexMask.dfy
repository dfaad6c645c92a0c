/**
  The colon-separated hex reader of iw (iw-4.3/util.c) and the pattern printers of iw-4.3/wowlan.c and
  iw-4.3/coalesce.c.  A pattern is a list of byte-or-don't-care positions; on the wire it is a byte string and
  a mask with one bit per byte, least significant bit first.

  Strings are C strings without their terminator; `unsigned long` has 64 bits and `int` 32.
 */
module HexMask {
  import opened Agent
  import opened Tokens
  import opened Numerals

  type Byte = b: int | 0 <= b < 256

  type Pattern = seq<Option<Byte>>

  // ---------------------------------------------------------------- strtoul with base 16

  function DigitValue(c: char): (r: Option<nat>)
    ensures r.Some? ==> r.value < 16
  {
    if '0' <= c <= '9' then Some(c as int - '0' as int)
    else if 'a' <= c <= 'f' then Some(c as int - 'a' as int + 10)
    else if 'A' <= c <= 'F' then Some(c as int - 'A' as int + 10)
    else None
  }

  predicate AllHex(s: string)
  {
    forall i | 0 <= i < |s| :: DigitValue(s[i]).Some?
  }

  function HexNumber(s: string): (v: nat)
    requires AllHex(s)
  {
    if s == [] then 0 else 16 * HexNumber(s[..|s| - 1]) + DigitValue(s[|s| - 1]).value
  }

  const ULONG_SIZE: nat := 0x1_0000_0000_0000_0000

  /** The value when the end pointer reaches the terminator, otherwise None. */
  function StrtoulWhole(s: string): (r: Option<nat>)
  {
    if s == "" then Some(0)
    else
      var t := SkipSpace(s);
      var negative := t != "" && t[0] == '-';
      var u := if t != "" && (t[0] == '-' || t[0] == '+') then t[1..] else t;
      var prefixed := |u| >= 3 && u[0] == '0' && (u[1] == 'x' || u[1] == 'X') && DigitValue(u[2]).Some?;
      var d := if prefixed then u[2..] else u;
      if d == "" || !AllHex(d) then None
      else if HexNumber(d) >= ULONG_SIZE then Some(ULONG_SIZE - 1)
      else if negative then Some((ULONG_SIZE - HexNumber(d)) % ULONG_SIZE)
      else Some(HexNumber(d))
  }

  /** Assignment of an unsigned long to an int. */
  function ToInt(v: nat): (r: int)
  {
    var w := v % 0x1_0000_0000;
    if w >= 0x8000_0000 then w - 0x1_0000_0000 else w
  }

  // ---------------------------------------------------------------- tokens

  datatype Token = Bad | Cell(cell: Option<Byte>)

  function ReadToken(tok: string, masked: bool): (t: Token)
  {
    if masked && (tok == "-" || tok == "xx" || tok == "--") then Cell(None)
    else
      var v := StrtoulWhole(tok);
      if v.None? || ToInt(v.value) < 0 || ToInt(v.value) > 255 then Bad else Cell(Some(ToInt(v.value)))
  }

  /** Overrun: a byte is to be written behind the end of the buffer.  A don't-care position writes nothing. */
  datatype Parsed = Rejected | Overrun | Parsed(pattern: Pattern)

  function ReadAll(toks: seq<string>, masked: bool): (ts: seq<Token>)
    ensures |ts| == |toks|
  {
    seq(|toks|, i requires 0 <= i < |toks| => ReadToken(toks[i], masked))
  }

  function ParseTokens(ts: seq<Token>, room: nat): (r: Parsed)
  {
    if ts == [] then Parsed([])
    else if ts[0].Bad? then Rejected
    else if room == 0 && ts[0].cell.Some? then Overrun
    else
      var rest := ParseTokens(ts[1..], if room == 0 then 0 else room - 1);
      if rest.Parsed? then Parsed([ts[0].cell] + rest.pattern) else rest
  }

  function Room(s: string): (n: nat)
  {
    |s| / 2 + 2
  }

  /** What parse_hex_mask makes of a string. */
  function ParseText(s: string, masked: bool): (r: Parsed)
  {
    ParseTokens(ReadAll(Split(s, ':'), masked), Room(s))
  }

  predicate Good(ts: seq<Token>)
  {
    forall i | 0 <= i < |ts| :: ts[i].Cell?
  }

  function Cells(ts: seq<Token>): (p: Pattern)
    requires Good(ts)
  {
    seq(|ts|, i requires 0 <= i < |ts| => ts[i].cell)
  }

  /** From position room on, every position is don't-care. */
  predicate Fits(p: Pattern, room: nat)
  {
    forall i | room <= i < |p| :: p[i].None?
  }

  /** A list of tokens is accepted exactly when all are good and those without room write nothing. */
  lemma {:induction false} ParseAccepts(ts: seq<Token>, room: nat)
    ensures ParseTokens(ts, room).Parsed? <==> Good(ts) && Fits(Cells(ts), room)
    ensures Good(ts) && Fits(Cells(ts), room) ==> ParseTokens(ts, room) == Parsed(Cells(ts))
  {
    if ts != [] {
      var rest := ts[1..];
      assert ts == [ts[0]] + rest;
      ParseAccepts(rest, if room == 0 then 0 else room - 1);
      if Good(ts) {
        CellsShift(ts, room);
      }
    }
  }

  lemma CellsShift(ts: seq<Token>, room: nat)
    requires ts != [] && Good(ts)
    ensures Good(ts[1..]) && Cells(ts) == [ts[0].cell] + Cells(ts[1..])
    ensures Fits(Cells(ts), room) <==>
              (room == 0 ==> ts[0].cell.None?) && Fits(Cells(ts[1..]), if room == 0 then 0 else room - 1)
  {
    FitsShift(ts[0].cell, Cells(ts[1..]), room);
    assert Cells(ts) == [ts[0].cell] + Cells(ts[1..]);
  }

  lemma FitsShift(c: Option<Byte>, q: Pattern, room: nat)
    ensures Fits([c] + q, room) <==> (room == 0 ==> c.None?) && Fits(q, if room == 0 then 0 else room - 1)
  {
    var p, less := [c] + q, if room == 0 then 0 else room - 1;
    if Fits(p, room) {
      forall i | less <= i < |q| ensures q[i].None? {
        assert p[i + 1].None?;
      }
      assert room == 0 ==> p[0].None?;
    }
    if (room == 0 ==> c.None?) && Fits(q, less) {
      forall i | room <= i < |p| ensures p[i].None? {
        assert i > 0 ==> p[i] == q[i - 1];
      }
    }
  }

  /** Token i is reached and writes. */
  predicate WritesAt(ts: seq<Token>, i: nat)
    requires i < |ts|
  {
    Good(ts[..i + 1]) && ts[i].Cell? && ts[i].cell.Some?
  }

  /** The buffer overruns exactly when a token without room is reached and writes. */
  lemma {:induction false} ParseOverruns(ts: seq<Token>, room: nat)
    ensures ParseTokens(ts, room).Overrun? <==> exists i :: room <= i < |ts| && WritesAt(ts, i)
  {
    if ts != [] {
      var less := if room == 0 then 0 else room - 1;
      ParseOverruns(ts[1..], less);
      if i :| room <= i < |ts| && WritesAt(ts, i) {
        assert ts[..i + 1][0] == ts[0];
        if i > 0 {
          WritesShift(ts, i - 1);
        }
      }
      if ts[0].Cell? {
        if room == 0 && ts[0].cell.Some? {
          assert WritesAt(ts, 0);
        } else if i :| less <= i < |ts[1..]| && WritesAt(ts[1..], i) {
          WritesShift(ts, i);
        }
      }
    }
  }

  lemma WritesShift(ts: seq<Token>, i: nat)
    requires i + 1 < |ts| && ts[0].Cell?
    ensures WritesAt(ts, i + 1) <==> WritesAt(ts[1..], i)
  {
    assert ts[..i + 2] == [ts[0]] + ts[1..][..i + 1];
  }

  /** Tokens that read as the cells of a pattern, and fit. */
  lemma ParsesAs(s: string, toks: seq<string>, masked: bool, p: Pattern)
    requires Split(s, ':') == toks && |p| == |toks| <= Room(s)
    requires forall i | 0 <= i < |toks| :: ReadToken(toks[i], masked) == Cell(p[i])
    ensures ParseText(s, masked) == Parsed(p)
  {
    var ts := ReadAll(toks, masked);
    assert forall i | 0 <= i < |ts| :: ts[i] == Cell(p[i]);
    ParseAccepts(ts, Room(s));
    assert Cells(ts) == p;
  }

  /** If no token is empty, every write lands inside the buffers, and so does everything up to the length. */
  lemma NonEmptyTokensFit(s: string, masked: bool)
    requires forall i | 0 <= i < |Split(s, ':')| :: |Split(s, ':')[i]| > 0
    ensures |Split(s, ':')| <= |s| / 2 + 1
    ensures !ParseText(s, masked).Overrun?
  {
    JoinSplit(s, ':');
    JoinLength(Split(s, ':'), ':');
    ParseOverruns(ReadAll(Split(s, ':'), masked), Room(s));
  }

  /**
    The length that an accepted text reports goes beyond the byte buffer, from which callers copy that many
    bytes, exactly when the text has more than |s| / 2 + 1 colons.
   */
  lemma LengthExceedsBuffer(s: string, masked: bool)
    requires ParseText(s, masked).Parsed?
    ensures |ParseText(s, masked).pattern| > Room(s) <==> Count(s, ':') > |s| / 2 + 1
  {
    ParseAccepts(ReadAll(Split(s, ':'), masked), Room(s));
    SplitCount(s, ':');
  }

  /** Without a mask every position writes, so an accepted text never reports more than the buffer holds. */
  lemma UnmaskedLengthFits(s: string)
    requires ParseText(s, false).Parsed?
    ensures |ParseText(s, false).pattern| <= Room(s)
  {
    WritesFit(ReadAll(Split(s, ':'), false), Room(s));
  }

  lemma {:induction false} WritesFit(ts: seq<Token>, room: nat)
    requires ParseTokens(ts, room).Parsed? && forall i | 0 <= i < |ts| :: ts[i] != Cell(None)
    ensures |ParseTokens(ts, room).pattern| <= room
  {
    if ts != [] {
      WritesFit(ts[1..], if room == 0 then 0 else room - 1);
    }
  }

  /** Such a text: four empty tokens fill the buffer of four bytes, and the fifth position is don't-care. */
  lemma LengthCanExceed(s: string)
    requires s == "::::-"
    ensures ParseText(s, true) == Parsed([Some(0), Some(0), Some(0), Some(0), None]) && Room(s) == 4
  {
    var toks := ["", "", "", "", "-"];
    FiveTokens(toks);
    SplitJoin(toks, ':');
    var ts := ReadAll(toks, true);
    assert ts == [Cell(Some(0)), Cell(Some(0)), Cell(Some(0)), Cell(Some(0)), Cell(None)];
    ParseAccepts(ts, 4);
    assert Cells(ts) == [Some(0), Some(0), Some(0), Some(0), None];
  }

  lemma FiveTokens(toks: seq<string>)
    requires toks == ["", "", "", "", "-"]
    ensures Join(toks, ':') == "::::-"
  {
    assert toks[1..] == ["", "", "", "-"] && ["", "", "", "-"][1..] == ["", "", "-"];
    assert ["", "", "-"][1..] == ["", "-"] && ["", "-"][1..] == ["-"];
    assert Join(["", "-"], ':') == ":-" && Join(["", "", "-"], ':') == "::-";
  }

  // ---------------------------------------------------------------- mask bits

  function Bit(k: nat): (b: bv8)
    requires k < 8
  {
    match k
    case 0 => 1
    case 1 => 2
    case 2 => 4
    case 3 => 8
    case 4 => 16
    case 5 => 32
    case 6 => 64
    case _ => 128
  }

  predicate BitSet(mask: seq<bv8>, i: nat)
    requires i / 8 < |mask|
  {
    mask[i / 8] & Bit(i % 8) != 0
  }

  lemma OrBit(x: bv8, k: nat, l: nat)
    requires k < 8 && l < 8
    ensures ((x | Bit(k)) & Bit(l) != 0) == (k == l || x & Bit(l) != 0)
  {
  }

  lemma SameBits(x: bv8, y: bv8)
    requires forall k: nat | k < 8 :: (x & Bit(k) != 0) == (y & Bit(k) != 0)
    ensures x == y
  {
    assert (x & Bit(0) != 0) == (y & Bit(0) != 0);
    assert (x & Bit(1) != 0) == (y & Bit(1) != 0);
    assert (x & Bit(2) != 0) == (y & Bit(2) != 0);
    assert (x & Bit(3) != 0) == (y & Bit(3) != 0);
    assert (x & Bit(4) != 0) == (y & Bit(4) != 0);
    assert (x & Bit(5) != 0) == (y & Bit(5) != 0);
    assert (x & Bit(6) != 0) == (y & Bit(6) != 0);
    assert (x & Bit(7) != 0) == (y & Bit(7) != 0);
  }

  function DivRoundUp(n: nat, d: nat): (r: nat)
    requires d > 0
  {
    (n + d - 1) / d
  }

  /** The buffer holds the bytes of the pattern, 0 where any byte matches and behind the end. */
  ghost predicate HoldsBytes(bytes: seq<Byte>, p: Pattern)
  {
    && Fits(p, |bytes|)
    && forall i | 0 <= i < |bytes| :: bytes[i] == if i < |p| && p[i].Some? then p[i].value else 0
  }

  /** Bit i of the mask says whether position i of the pattern is compared. */
  ghost predicate HoldsMask(mask: seq<bv8>, p: Pattern)
  {
    forall i: nat | i < 8 * |mask| :: BitSet(mask, i) == (i < |p| && p[i].Some?)
  }

  /** A mask is determined by its length and the pattern. */
  lemma MaskIsUnique(x: seq<bv8>, y: seq<bv8>, p: Pattern)
    requires HoldsMask(x, p) && HoldsMask(y, p) && |x| <= |y|
    ensures x == y[..|x|]
  {
    forall j | 0 <= j < |x| ensures x[j] == y[j] {
      forall k: nat | k < 8 ensures (x[j] & Bit(k) != 0) == (y[j] & Bit(k) != 0) {
        assert (8 * j + k) / 8 == j && (8 * j + k) % 8 == k;
        assert BitSet(x, 8 * j + k) == BitSet(y, 8 * j + k);
      }
      SameBits(x[j], y[j]);
    }
  }

  function SetBit(mask: seq<bv8>, pos: nat): (r: seq<bv8>)
    requires pos / 8 < |mask|
  {
    mask[pos / 8 := mask[pos / 8] | Bit(pos % 8)]
  }

  lemma SetBitSets(mask: seq<bv8>, pos: nat, i: nat)
    requires pos / 8 < |mask| && i < 8 * |mask|
    ensures BitSet(SetBit(mask, pos), i) == (i == pos || BitSet(mask, i))
  {
    OrBit(mask[pos / 8], pos % 8, i % 8);
  }

  lemma MaskGrows(mask: seq<bv8>, p: Pattern, cell: Option<Byte>)
    requires HoldsMask(mask, p) && (cell.Some? ==> |p| / 8 < |mask|)
    ensures HoldsMask(if cell.Some? then SetBit(mask, |p|) else mask, p + [cell])
  {
    if cell.Some? {
      forall i: nat | i < 8 * |mask|
        ensures BitSet(SetBit(mask, |p|), i) == (i < |p| + 1 && (p + [cell])[i].Some?)
      {
        SetBitSets(mask, |p|, i);
        assert BitSet(mask, i) == (i < |p| && p[i].Some?);
      }
    }
  }

  // ---------------------------------------------------------------- parse_hex_mask

  datatype Status = Success | Failure | Undefined

  method StrChr(buf: array<char>, start: nat, c: char) returns (cp: nat)
    requires start < buf.Length
    ensures start <= cp < buf.Length
    ensures cp == start + IndexOf(buf[start..buf.Length - 1], c)
  {
    cp := start;
    ghost var s := buf[start..buf.Length - 1];
    while cp < buf.Length - 1 && buf[cp] != c
      invariant start <= cp < buf.Length
      invariant IndexOf(s, c) == IndexOf(s, c, cp - start)
    {
      cp := cp + 1;
    }
  }

  lemma BytesGrow(bytes: seq<Byte>, p: Pattern, cell: Option<Byte>)
    requires HoldsBytes(bytes, p) && (cell.Some? ==> |p| < |bytes|)
    ensures HoldsBytes(if cell.Some? then bytes[|p| := cell.value] else bytes, p + [cell])
  {
  }

  /** The byte of one position is written, or left 0. */
  method StoreByte(result: array<Byte>, cell: Option<Byte>, pos: nat, ghost done: Pattern)
    requires pos == |done| && (cell.Some? ==> pos < result.Length) && HoldsBytes(result[..], done)
    modifies result
    ensures HoldsBytes(result[..], done + [cell])
  {
    BytesGrow(result[..], done, cell);
    if cell.Some? {
      ghost var before := result[..];
      result[pos] := cell.value;
      assert result[..] == before[pos := cell.value];
    }
  }

  /** The mask bit of one position is set, or left clear. */
  method StoreBit(mask: array<bv8>, cell: Option<Byte>, pos: nat, ghost done: Pattern)
    requires pos == |done| && (cell.Some? ==> pos / 8 < mask.Length) && HoldsMask(mask[..], done)
    modifies mask
    ensures HoldsMask(mask[..], done + [cell])
  {
    MaskGrows(mask[..], done, cell);
    if cell.Some? {
      ghost var before := mask[..];
      mask[pos / 8] := mask[pos / 8] | Bit(pos % 8);
      assert mask[..] == SetBit(before, pos);
    }
  }

  /** The buffer when reading has come to start: every separator before it has become a terminator. */
  function Layout(text: string, start: nat): (r: string)
    requires start <= |text|
  {
    Cut(text[..start]) + text[start..] + ['\0']
  }

  function Cut(s: string): (r: string)
  {
    seq(|s|, i requires 0 <= i < |s| => if s[i] == ':' then '\0' else s[i])
  }

  lemma CutStep(text: string, start: nat, cp: nat)
    requires start <= cp <= |text| && cp == start + IndexOf(text[start..], ':')
    ensures cp < |text| ==> Layout(text, start)[cp := '\0'] == Layout(text, cp + 1)
    ensures cp == |text| ==> Layout(text, start) == Layout(text, |text|)
  {
    assert forall i | start <= i < cp :: text[i] == text[start..][i - start];
  }

  /** Token pos begins at start. */
  ghost predicate Reading(contents: string, text: string, toks: seq<string>, pos: nat, start: nat)
  {
    && start <= |text| && pos < |toks| && contents == Layout(text, start)
    && toks[pos..] == Split(text[start..], ':')
  }

  lemma ReadingStep(text: string, toks: seq<string>, pos: nat, start: nat, cp: nat)
    requires start <= cp <= |text| && cp == start + IndexOf(text[start..], ':')
    requires pos < |toks| && toks[pos..] == Split(text[start..], ':')
    ensures toks[pos] == text[start..cp]
    ensures cp == |text| ==> pos + 1 == |toks|
    ensures cp < |text| ==> pos + 1 < |toks| && toks[pos + 1..] == Split(text[cp + 1..], ':')
  {
    var s := text[start..];
    assert s[..cp - start] == text[start..cp];
    assert toks[pos + 1..] == toks[pos..][1..];
    if cp < |text| {
      assert s[cp - start + 1..] == text[cp + 1..];
    }
  }

  /** The token at start, ended by writing a terminator over the separator. */
  method CutToken(buf: array<char>, start: nat, ghost text: string, ghost toks: seq<string>, ghost pos: nat)
    returns (cp: nat, tok: string)
    requires |text| == buf.Length - 1 && Reading(buf[..], text, toks, pos, start)
    modifies buf
    ensures start <= cp <= |text| && tok == toks[pos]
    ensures cp < |text| ==> Reading(buf[..], text, toks, pos + 1, cp + 1)
    ensures cp == |text| ==> pos + 1 == |toks| && buf[..] == Layout(text, |text|)
  {
    assert buf[start..buf.Length - 1] == text[start..];
    cp := StrChr(buf, start, ':');
    ReadingStep(text, toks, pos, start, cp);
    CutStep(text, start, cp);
    tok := buf[start..cp];
    if cp < buf.Length - 1 {
      buf[cp] := '\0';
      assert buf[..] == Layout(text, start)[cp := '\0'];
    }
  }

  /** The first tokens have been read into the pattern. */
  ghost predicate ReadInto(ts: seq<Token>, done: Pattern)
  {
    |done| <= |ts| && forall i | 0 <= i < |done| :: ts[i] == Cell(done[i])
  }

  lemma BadTokenRejects(ts: seq<Token>, room: nat, done: Pattern)
    requires ReadInto(ts, done) && |done| < |ts| && Fits(done, room)
    ensures ts[|done|].Bad? ==> ParseTokens(ts, room) == Rejected
    ensures ts[|done|].Cell? && ts[|done|].cell.Some? && |done| >= room ==> ParseTokens(ts, room) == Overrun
  {
    var k := |done|;
    ParseAccepts(ts, room);
    ParseOverruns(ts, room);
    if ts[k].Bad? {
      forall i | room <= i < |ts| ensures !WritesAt(ts, i) {
        if i >= k {
          assert ts[..i + 1][k] == ts[k];
        }
      }
    } else if ts[k].cell.Some? && k >= room {
      assert forall i | 0 <= i < k + 1 :: ts[..k + 1][i] == ts[i];
      assert WritesAt(ts, k);
    }
  }

  lemma ReadGrows(ts: seq<Token>, done: Pattern, cell: Option<Byte>)
    requires ReadInto(ts, done) && |done| < |ts| && ts[|done|] == Cell(cell)
    ensures ReadInto(ts, done + [cell])
  {
  }

  lemma AllRead(ts: seq<Token>, room: nat, done: Pattern)
    requires ReadInto(ts, done) && |done| == |ts| && Fits(done, room)
    ensures ParseTokens(ts, room) == Parsed(done)
  {
    assert Good(ts) && Cells(ts) == done;
    ParseAccepts(ts, room);
  }

  predicate Separate(buf: array<char>, result: array<Byte>, mask: array<bv8>)
  {
    (buf as object) != result && (buf as object) != mask && (result as object) != mask
  }

  method StoreCell(buf: array<char>, result: array<Byte>, mask: array<bv8>, masked: bool, cell: Option<Byte>, pos: nat,
                   ghost done: Pattern)
    requires Separate(buf, result, mask)
    requires pos == |done| && (cell.Some? ==> pos < result.Length) && HoldsBytes(result[..], done)
    requires masked ==> (cell.Some? ==> pos / 8 < mask.Length) && HoldsMask(mask[..], done)
    modifies result, mask
    ensures HoldsBytes(result[..], done + [cell])
    ensures masked ==> HoldsMask(mask[..], done + [cell])
    ensures buf[..] == old(buf[..])
  {
    ghost var contents, bits := buf[..], mask[..];
    StoreByte(result, cell, pos, done);
    ghost var bytes := result[..];
    assert mask[..] == bits;
    if masked {
      StoreBit(mask, cell, pos, done);
    }
    assert result[..] == bytes;
    assert buf[..] == contents;
  }

  /** What the loop of parse_hex_mask keeps: the first tokens are cut off, read and stored. */
  ghost predicate LoopInv(contents: string, bytes: seq<Byte>, bits: seq<bv8>, masked: bool, text: string, start: nat,
                          done: Pattern)
  {
    && Reading(contents, text, Split(text, ':'), |done|, start)
    && ReadInto(ReadAll(Split(text, ':'), masked), done)
    && |bytes| == Room(text) && HoldsBytes(bytes, done)
    && (masked ==> |bits| == DivRoundUp(|text| / 2, 8) + 2 && HoldsMask(bits, done))
  }

  lemma LoopStart(text: string, bytes: seq<Byte>, bits: seq<bv8>, masked: bool)
    requires |bytes| == Room(text) && (masked ==> |bits| == DivRoundUp(|text| / 2, 8) + 2)
    requires (forall i | 0 <= i < |bytes| :: bytes[i] == 0) && (forall i | 0 <= i < |bits| :: bits[i] == 0)
    ensures LoopInv(text + ['\0'], bytes, bits, masked, text, 0, [])
  {
    assert text[0..] == text && Split(text, ':')[0..] == Split(text, ':') && text + ['\0'] == Layout(text, 0);
  }

  /** One iteration: the status with which parsing ends here, or the start of the next token. */
  method ParseOne(buf: array<char>, masked: bool, result: array<Byte>, mask: array<bv8>, start: nat, pos: nat,
                  ghost text: string, ghost done: Pattern)
    returns (status: Option<Status>, next: nat, ghost cell: Option<Byte>)
    requires Separate(buf, result, mask) && pos == |done| && |text| == buf.Length - 1
    requires LoopInv(buf[..], result[..], mask[..], masked, text, start, done)
    modifies buf, result, mask
    ensures status.None? ==> start < next && LoopInv(buf[..], result[..], mask[..], masked, text, next, done + [cell])
    ensures status.Some? ==>
              var len := if status.value == Success then pos + 1 else pos;
              ParsedInto(text, masked, status.value, len, result[..], mask[..], buf[..])
  {
    ghost var toks := Split(text, ':');
    ghost var bytes, bits := result[..], mask[..];
    var cp, tok := CutToken(buf, start, text, toks, pos);
    assert result[..] == bytes && mask[..] == bits;
    var t := ReadToken(tok, masked);
    ghost var ts := ReadAll(toks, masked);
    next, cell := cp + 1, None;
    if t.Bad? {
      BadTokenRejects(ts, Room(text), done);
      return Some(Failure), next, cell;
    }
    if t.cell.Some? && pos >= result.Length {
      BadTokenRejects(ts, Room(text), done);
      return Some(Undefined), next, cell;
    }
    cell := t.cell;
    StoreCell(buf, result, mask, masked, t.cell, pos, done);
    ReadGrows(ts, done, cell);
    status := None;
    if cp == buf.Length - 1 {
      AllRead(ts, Room(text), done + [cell]);
      status := Some(Success);
    }
  }

  /** The status says what the text is; on success the buffers hold its pattern and every separator is cut. */
  ghost predicate ParsedInto(text: string, masked: bool, status: Status, len: nat, bytes: seq<Byte>, bits: seq<bv8>,
                             contents: string)
  {
    && status == StatusOf(ParseText(text, masked))
    && (status == Success ==>
          && var p := ParseText(text, masked).pattern;
          && len == |p| && HoldsBytes(bytes, p) && (masked ==> HoldsMask(bits, p)) && contents == Layout(text, |text|))
  }

  function StatusOf(r: Parsed): (s: Status)
  {
    match r
    case Rejected => Failure
    case Overrun => Undefined
    case Parsed(_) => Success
  }

  method ParseHexMask(buf: array<char>, masked: bool)
    returns (status: Status, result: array<Byte>, resultLen: nat, mask: array<bv8>)
    requires buf.Length > 0 && buf[buf.Length - 1] == '\0' && Lacks(buf[..buf.Length - 1], '\0')
    modifies buf
    ensures fresh(result) && fresh(mask) && result.Length == Room(old(buf[..buf.Length - 1]))
    ensures ParsedInto(old(buf[..buf.Length - 1]), masked, status, resultLen, result[..], mask[..], buf[..])
  {
    var n := buf.Length - 1;
    ghost var text := buf[..n];
    result := new Byte[n / 2 + 2](_ => 0);
    mask := new bv8[if masked then DivRoundUp(n / 2, 8) + 2 else 0](_ => 0);
    LoopStart(text, result[..], mask[..], masked);
    assert buf[..] == text + ['\0'];
    status, resultLen := ParseLoop(buf, masked, result, mask, text);
  }

  method ParseLoop(buf: array<char>, masked: bool, result: array<Byte>, mask: array<bv8>, ghost text: string)
    returns (status: Status, pos: nat)
    requires Separate(buf, result, mask) && |text| == buf.Length - 1
    requires LoopInv(buf[..], result[..], mask[..], masked, text, 0, [])
    modifies buf, result, mask
    ensures ParsedInto(text, masked, status, pos, result[..], mask[..], buf[..])
  {
    var start := 0;
    pos := 0;
    ghost var done: Pattern := [];
    while true
      invariant start <= |text| && pos == |done|
      invariant LoopInv(buf[..], result[..], mask[..], masked, text, start, done)
      decreases |text| - start
    {
      var outcome, next;
      ghost var cell;
      outcome, next, cell := ParseOne(buf, masked, result, mask, start, pos, text, done);
      if outcome.Some? {
        return outcome.value, if outcome.value == Success then pos + 1 else pos;
      }
      start, pos, done := next, pos + 1, done + [cell];
    }
  }

  /** parse_hex: the same without a mask; any status but Success is a null result. */
  method ParseHex(buf: array<char>) returns (status: Status, result: array<Byte>, outLen: nat)
    requires buf.Length > 0 && buf[buf.Length - 1] == '\0' && Lacks(buf[..buf.Length - 1], '\0')
    modifies buf
    ensures fresh(result)
    ensures ParsedInto(old(buf[..buf.Length - 1]), false, status, outLen, result[..], [], buf[..])
    ensures status == Success ==> outLen <= result.Length
  {
    ghost var text := buf[..buf.Length - 1];
    var mask;
    status, result, outLen, mask := ParseHexMask(buf, false);
    if status == Success {
      UnmaskedLengthFits(text);
    }
  }

  // ---------------------------------------------------------------- printing

  function DigitChar(v: nat): (c: char)
    requires v < 16
    ensures DigitValue(c) == Some(v) && c != ':'
  {
    if v < 10 then '0' + v as char else 'a' + (v - 10) as char
  }

  /** "%.2x" */
  function Hex2(b: Byte): (s: string)
    ensures |s| == 2 && AllHex(s) && Lacks(s, ':')
  {
    [DigitChar(b / 16), DigitChar(b % 16)]
  }

  function CellText(c: Option<Byte>): (s: string)
  {
    if c.Some? then Hex2(c.value) else "--"
  }

  function CellTexts(p: Pattern): (toks: seq<string>)
    ensures |toks| == |p|
  {
    seq(|p|, i requires 0 <= i < |p| => CellText(p[i]))
  }

  function Print(p: Pattern): (s: string)
  {
    if p == [] then "" else Join(CellTexts(p), ':')
  }

  /** The pattern that a byte string and its mask stand for. */
  function PatternOf(pat: seq<Byte>, mask: seq<bv8>): (p: Pattern)
    requires |mask| == DivRoundUp(|pat|, 8)
  {
    seq(|pat|, i requires 0 <= i < |pat| => if BitSet(mask, i) then Some(pat[i]) else None)
  }

  lemma {:induction false} JoinGrows(toks: seq<string>, t: string, c: char)
    requires |toks| > 0
    ensures Join(toks + [t], c) == Join(toks, c) + [c] + t
  {
    JoinAppend(toks, [t], c);
  }

  /** The printing loop of print_wowlan_handler and print_coalesce_handler. */
  method PrintPattern(pat: seq<Byte>, mask: seq<bv8>) returns (out: string)
    requires |mask| == DivRoundUp(|pat|, 8)
    ensures out == Print(PatternOf(pat, mask))
  {
    out := "";
    ghost var toks := CellTexts(PatternOf(pat, mask));
    for i := 0 to |pat|
      invariant i == 0 ==> out == ""
      invariant 0 < i < |pat| ==> out == Join(toks[..i], ':') + ":"
      invariant 0 < i == |pat| ==> out == Join(toks[..i], ':')
    {
      assert toks[..i + 1] == toks[..i] + [toks[i]];
      if i > 0 {
        JoinGrows(toks[..i], toks[i], ':');
      }
      if mask[i / 8] & Bit(i % 8) != 0 {
        out := out + Hex2(pat[i]);
      } else {
        out := out + "--";
      }
      if i != |pat| - 1 {
        out := out + ":";
      }
    }
    assert toks[..|pat|] == toks;
  }

  // ---------------------------------------------------------------- round trip

  lemma TwoDigitNumber(s: string)
    requires |s| == 2 && AllHex(s)
    ensures HexNumber(s) == 16 * DigitValue(s[0]).value + DigitValue(s[1]).value < 256
  {
    assert s[..1][..0] == "";
    assert HexNumber(s[..1]) == DigitValue(s[0]).value;
  }

  lemma TwoDigitStrtoul(s: string)
    requires |s| == 2 && AllHex(s)
    ensures StrtoulWhole(s) == Some(HexNumber(s))
  {
    TwoDigitNumber(s);
    assert SkipSpace(s) == s;
  }

  lemma TwoDigits(s: string)
    requires |s| == 2 && AllHex(s)
    ensures HexNumber(s) == 16 * DigitValue(s[0]).value + DigitValue(s[1]).value
    ensures forall masked :: ReadToken(s, masked) == Cell(Some(HexNumber(s)))
  {
    TwoDigitNumber(s);
    TwoDigitStrtoul(s);
  }

  lemma CellRoundTrip(c: Option<Byte>)
    ensures ReadToken(CellText(c), true) == Cell(c)
  {
    if c.Some? {
      TwoDigits(Hex2(c.value));
    }
  }

  /** Parsing the printed form of any non-empty pattern gives the pattern back. */
  lemma PatternRoundTrip(p: Pattern)
    requires p != []
    ensures ParseText(Print(p), true) == Parsed(p)
  {
    var toks := CellTexts(p);
    SplitJoin(toks, ':');
    forall i | 0 <= i < |toks| ensures ReadToken(toks[i], true) == Cell(p[i]) {
      CellRoundTrip(p[i]);
    }
    NonEmptyTokensFit(Print(p), true);
    ParsesAs(Print(p), toks, true, p);
  }

  /** The printed form leaves room for every position. */
  lemma PrintedLength(p: Pattern)
    requires p != []
    ensures |p| <= |Print(p)| / 2 + 1
  {
    JoinLength(CellTexts(p), ':');
  }

  /** An empty pattern does not come back empty: it prints as nothing, which reads as one zero byte. */
  lemma EmptyPatternGainsAByte()
    ensures Print([]) == "" && ParseText("", true) == Parsed([Some(0)])
  {
    ParsesAs("", [""], true, [Some(0)]);
  }

  /** No bit is set behind the last byte. */
  ghost predicate MaskTight(pat: seq<Byte>, mask: seq<bv8>)
    requires |mask| == DivRoundUp(|pat|, 8)
  {
    forall i: nat | |pat| <= i < 8 * |mask| :: !BitSet(mask, i)
  }

  /**
    The same on buffers: whatever buffers hold the result of parsing the printed form, they hold the compared
    bytes, 0 at the other positions and, unless stray bits were set behind the end, the original mask.
   */
  lemma BuffersRoundTrip(pat: seq<Byte>, mask: seq<bv8>, result: seq<Byte>, resultMask: seq<bv8>)
    requires pat != [] && |mask| == DivRoundUp(|pat|, 8)
    requires |result| == Room(Print(PatternOf(pat, mask)))
    requires |resultMask| == DivRoundUp(|Print(PatternOf(pat, mask))| / 2, 8) + 2
    requires ParseText(Print(PatternOf(pat, mask)), true).Parsed?
    requires var p := ParseText(Print(PatternOf(pat, mask)), true).pattern;
             HoldsBytes(result, p) && HoldsMask(resultMask, p)
    ensures |pat| <= |result| && |mask| <= |resultMask|
    ensures forall i | 0 <= i < |pat| :: result[i] == if BitSet(mask, i) then pat[i] else 0
    ensures resultMask[..|mask|] == mask <==> MaskTight(pat, mask)
  {
    var p := PatternOf(pat, mask);
    PatternRoundTrip(p);
    PrintedLength(p);
    if MaskTight(pat, mask) {
      assert HoldsMask(mask, p);
      MaskIsUnique(mask, resultMask, p);
    }
    if resultMask[..|mask|] == mask {
      forall i: nat | |pat| <= i < 8 * |mask| ensures !BitSet(mask, i) {
        assert BitSet(resultMask, i) == BitSet(mask, i);
      }
    }
  }
}
