/**
  The GSM triplets of hostapd/hostapd/hlr_auc_gw.c: a fixed list and a cursor that all requests share.  A position
  in the list stands for a link to its entry, the length of the list for none.
 */
module Triplets {
  import opened Agent
  import opened HexMask

  datatype Triplet = Triplet(imsi: string, kc: seq<Byte>, sres: seq<Byte>, rand: seq<Byte>)

  const EAP_SIM_MAX_CHAL: nat := 3

  /** First entry for the IMSI in db[lo..hi]. */
  function Find(db: seq<Triplet>, imsi: string, lo: nat, hi: nat): (r: Option<nat>)
    requires lo <= hi <= |db|
    ensures r.Some? ==> lo <= r.value < hi && db[r.value].imsi == imsi
    ensures r.Some? ==> forall i | lo <= i < r.value :: db[i].imsi != imsi
    ensures r.None? ==> forall i | lo <= i < hi :: db[i].imsi != imsi
    decreases hi - lo
  {
    if lo == hi then None else if db[lo].imsi == imsi then Some(lo) else Find(db, imsi, lo + 1, hi)
  }

  /** The entry a lookup returns: from the cursor to the end, then from the start to the cursor. */
  function Lookup(db: seq<Triplet>, imsi: string, pos: nat): (r: Option<nat>)
    requires pos <= |db|
    ensures r.Some? ==> r.value < |db|
  {
    var r := Find(db, imsi, pos, |db|);
    if r.Some? then r else Find(db, imsi, 0, pos)
  }

  /** The cursor after j lookups. */
  function Cursor(db: seq<Triplet>, imsi: string, pos: nat, j: nat): (r: nat)
    requires pos <= |db|
    ensures r <= |db|
  {
    if j == 0 then pos
    else
      var p := Cursor(db, imsi, pos, j - 1);
      var r := Lookup(db, imsi, p);
      if r.None? then p else r.value + 1
  }

  // ---------------------------------------------------------------- the store

  class TripletStore {
    const db: seq<Triplet>
    var pos: nat

    ghost predicate Valid()
      reads this
    {
      pos <= |db|
    }

    constructor (db: seq<Triplet>)
      ensures this.db == db && Valid() && pos == |db|
    {
      this.db := db;
      pos := |db|;
    }

    /** get_gsm_triplet */
    method GetGsmTriplet(imsi: string) returns (g: Option<nat>)
      requires Valid()
      modifies this`pos
      ensures Valid() && g == Lookup(db, imsi, old(pos)) && pos == Cursor(db, imsi, old(pos), 1)
    {
      assert Cursor(db, imsi, pos, 0) == pos;
      var i := pos;
      while i < |db|
        invariant pos <= i <= |db|
        invariant Find(db, imsi, pos, |db|) == Find(db, imsi, i, |db|)
      {
        if db[i].imsi == imsi {
          pos := i + 1;
          return Some(i);
        }
        i := i + 1;
      }
      i := 0;
      while i < |db| && i != pos
        invariant 0 <= i <= pos
        invariant Find(db, imsi, 0, pos) == Find(db, imsi, i, pos)
      {
        if db[i].imsi == imsi {
          pos := i + 1;
          return Some(i);
        }
        i := i + 1;
      }
      g := None;
    }

    /** The triplets of one SIM-REQ-AUTH answer; an empty answer stands for FAILURE. */
    method SimReqAuth(imsi: string, requested: Option<int>) returns (answer: seq<nat>)
      requires Valid()
      modifies this`pos
      ensures Valid() && answer == Served(Rotation(db, imsi, old(pos)), MaxChallenges(requested))
      ensures pos == Cursor(db, imsi, old(pos), |answer|)
      ensures |answer| == if forall i | 0 <= i < |db| :: db[i].imsi != imsi then 0
                          else if requested == Some(1) then 1 else if requested == Some(2) then 2 else 3
    {
      AnswerLength(db, imsi, pos, MaxChallenges(requested));
      var maxChal := MaxChallenges(requested);
      answer := [];
      var count := 0;
      ghost var pos0, r := pos, Rotation(db, imsi, pos);
      while count < maxChal
        invariant 0 <= count <= maxChal && Valid() && pos == Cursor(db, imsi, pos0, count)
        invariant |answer| == count && answer == Served(r, count)
      {
        ServeOne(db, imsi, pos0, count);
        var g := GetGsmTriplet(imsi);
        if g.None? {
          return;
        }
        answer := answer + [g.value];
        count := count + 1;
      }
    }
  }

  /** n triplets are served if the IMSI has any, and none otherwise. */
  lemma AnswerLength(db: seq<Triplet>, imsi: string, pos: nat, n: nat)
    requires pos <= |db| && n > 0
    ensures |Served(Rotation(db, imsi, pos), n)| == if forall i | 0 <= i < |db| :: db[i].imsi != imsi then 0 else n
  {
    var r := Rotation(db, imsi, pos);
    RotationIsComplete(db, imsi, pos);
    if r != [] {
      assert r[0] in r;
      ServedAt(r, n, 0);
    }
  }

  function MaxChallenges(requested: Option<int>): (n: nat)
    ensures 1 <= n <= EAP_SIM_MAX_CHAL
  {
    if requested.None? || requested.value < 1 || requested.value > EAP_SIM_MAX_CHAL then EAP_SIM_MAX_CHAL
    else requested.value
  }

  // ---------------------------------------------------------------- round robin

  /** All entries for the IMSI in db[lo..hi], in order. */
  function Entries(db: seq<Triplet>, imsi: string, lo: nat, hi: nat): (r: seq<nat>)
    requires lo <= hi <= |db|
    decreases hi - lo
  {
    if lo == hi then [] else (if db[lo].imsi == imsi then [lo] else []) + Entries(db, imsi, lo + 1, hi)
  }

  /** All entries for the IMSI, beginning at the cursor. */
  function Rotation(db: seq<Triplet>, imsi: string, pos: nat): (r: seq<nat>)
    requires pos <= |db|
  {
    Entries(db, imsi, pos, |db|) + Entries(db, imsi, 0, pos)
  }

  /** The first entry moves to the end. */
  function Turn(r: seq<nat>): (s: seq<nat>)
    ensures |s| == |r|
  {
    if r == [] then [] else r[1..] + [r[0]]
  }

  function Turned(r: seq<nat>, j: nat): (s: seq<nat>)
    ensures |s| == |r|
  {
    if j == 0 then r else Turn(Turned(r, j - 1))
  }

  /** n picks from r, over and over. */
  function Served(r: seq<nat>, n: nat): (s: seq<nat>)
  {
    if r == [] || n == 0 then [] else Served(r, n - 1) + [Turned(r, n - 1)[0]]
  }

  lemma {:induction false} ServedAt(r: seq<nat>, n: nat, j: nat)
    requires r != [] && j < n
    ensures |Served(r, n)| == n && Served(r, n)[j] == Turned(r, j)[0]
  {
    if j < n - 1 {
      ServedAt(r, n - 1, j);
    } else if n > 1 {
      ServedAt(r, n - 1, 0);
    }
  }

  lemma {:induction false} EntriesAre(db: seq<Triplet>, imsi: string, lo: nat, hi: nat)
    requires lo <= hi <= |db|
    ensures var r := Entries(db, imsi, lo, hi);
            && (forall i :: i in r <==> lo <= i < hi && db[i].imsi == imsi)
            && (forall k, l | 0 <= k < l < |r| :: r[k] < r[l])
    decreases hi - lo
  {
    if lo < hi {
      EntriesAre(db, imsi, lo + 1, hi);
      var r, rest := Entries(db, imsi, lo, hi), Entries(db, imsi, lo + 1, hi);
      if db[lo].imsi == imsi {
        assert r == [lo] + rest;
        assert forall k | 0 <= k < |rest| :: rest[k] in rest;
      } else {
        assert r == rest;
      }
    }
  }

  /** The rotation names every entry for the IMSI, each once. */
  lemma RotationIsComplete(db: seq<Triplet>, imsi: string, pos: nat)
    requires pos <= |db|
    ensures var r := Rotation(db, imsi, pos);
            && (forall i :: i in r <==> 0 <= i < |db| && db[i].imsi == imsi)
            && (forall k, l | 0 <= k < l < |r| :: r[k] != r[l])
  {
    EntriesAre(db, imsi, pos, |db|);
    EntriesAre(db, imsi, 0, pos);
    var a, b := Entries(db, imsi, pos, |db|), Entries(db, imsi, 0, pos);
    assert forall k | 0 <= k < |a| :: a[k] in a;
    assert forall k | 0 <= k < |b| :: b[k] in b;
  }

  lemma {:induction false} FindIsFirst(db: seq<Triplet>, imsi: string, lo: nat, hi: nat)
    requires lo <= hi <= |db|
    ensures var es := Entries(db, imsi, lo, hi);
            Find(db, imsi, lo, hi) == if es == [] then None else Some(es[0])
    decreases hi - lo
  {
    if lo < hi {
      FindIsFirst(db, imsi, lo + 1, hi);
    }
  }

  lemma {:induction false} EntriesSplit(db: seq<Triplet>, imsi: string, lo: nat, mid: nat, hi: nat)
    requires lo <= mid <= hi <= |db|
    ensures Entries(db, imsi, lo, hi) == Entries(db, imsi, lo, mid) + Entries(db, imsi, mid, hi)
    decreases mid - lo
  {
    if lo < mid {
      EntriesSplit(db, imsi, lo + 1, mid, hi);
    }
  }

  /** Up to and including the first entry there is just that entry. */
  lemma {:induction false} EntriesUpTo(db: seq<Triplet>, imsi: string, lo: nat, h: nat)
    requires lo <= h < |db| && db[h].imsi == imsi && forall i | lo <= i < h :: db[i].imsi != imsi
    ensures Entries(db, imsi, lo, h + 1) == [h]
    decreases h - lo
  {
    if lo < h {
      EntriesUpTo(db, imsi, lo + 1, h);
    } else {
      assert Entries(db, imsi, h + 1, h + 1) == [];
    }
  }

  /** A lookup fails only without entries; otherwise it takes the first of the rotation and moves it to the end. */
  lemma LookupRotates(db: seq<Triplet>, imsi: string, pos: nat)
    requires pos <= |db|
    ensures var r := Rotation(db, imsi, pos);
            && (r == [] ==> Lookup(db, imsi, pos).None?)
            && (r != [] ==> Lookup(db, imsi, pos) == Some(r[0]) && Rotation(db, imsi, r[0] + 1) == r[1..] + [r[0]])
  {
    var n := |db|;
    FindIsFirst(db, imsi, pos, n);
    FindIsFirst(db, imsi, 0, pos);
    var r := Rotation(db, imsi, pos);
    if r != [] {
      var h := r[0];
      if h >= pos && Entries(db, imsi, pos, n) != [] {
        TakeFromTail(db, imsi, pos, h);
      } else {
        TakeFromHead(db, imsi, pos, h);
      }
    }
  }

  lemma TakeFromTail(db: seq<Triplet>, imsi: string, pos: nat, h: nat)
    requires pos <= |db| && Find(db, imsi, pos, |db|) == Some(h)
    ensures var r := Rotation(db, imsi, pos); r != [] && r[0] == h && Rotation(db, imsi, h + 1) == r[1..] + [h]
  {
    var n := |db|;
    EntriesUpTo(db, imsi, pos, h);
    EntriesSplit(db, imsi, pos, h + 1, n);
    EntriesSplit(db, imsi, 0, pos, h + 1);
    MovedToEnd(h, Entries(db, imsi, h + 1, n), Entries(db, imsi, 0, pos));
  }

  lemma MovedToEnd(h: nat, a: seq<nat>, b: seq<nat>)
    ensures var r := [h] + a + b; r[0] == h && r[1..] + [h] == a + (b + [h])
  {
  }

  lemma TakeFromHead(db: seq<Triplet>, imsi: string, pos: nat, h: nat)
    requires pos <= |db| && Entries(db, imsi, pos, |db|) == [] && Find(db, imsi, 0, pos) == Some(h)
    ensures var r := Rotation(db, imsi, pos); r != [] && r[0] == h && Rotation(db, imsi, h + 1) == r[1..] + [h]
  {
    var n := |db|;
    EntriesUpTo(db, imsi, 0, h);
    EntriesSplit(db, imsi, 0, h + 1, pos);
    EntriesSplit(db, imsi, h + 1, pos, n);
    var b := Entries(db, imsi, h + 1, pos);
    assert [] + ([h] + b) == [h] + b && b + [] == b;
    assert ([h] + b)[1..] == b;
  }

  /** What lookup number j does. */
  lemma ServeOne(db: seq<Triplet>, imsi: string, pos: nat, j: nat)
    requires pos <= |db|
    ensures var r := Rotation(db, imsi, pos);
            var p := Cursor(db, imsi, pos, j);
            && Cursor(db, imsi, p, 1) == Cursor(db, imsi, pos, j + 1)
            && (r == [] ==> Lookup(db, imsi, p).None? && Cursor(db, imsi, pos, j + 1) == p)
            && (r != [] ==> Lookup(db, imsi, p).Some? &&
                            Served(r, j + 1) == Served(r, j) + [Lookup(db, imsi, p).value])
  {
    var r := Rotation(db, imsi, pos);
    RoundRobin(db, imsi, pos, j);
    CursorStep(db, imsi, pos, j);
  }

  lemma CursorStep(db: seq<Triplet>, imsi: string, pos: nat, j: nat)
    requires pos <= |db|
    ensures Cursor(db, imsi, pos, j + 1) == Cursor(db, imsi, Cursor(db, imsi, pos, j), 1)
  {
    var p := Cursor(db, imsi, pos, j);
    assert Cursor(db, imsi, p, 0) == p;
  }

  /** From any cursor position, the lookups serve the rotation in turn. */
  lemma {:induction false} RoundRobin(db: seq<Triplet>, imsi: string, pos: nat, j: nat)
    requires pos <= |db|
    ensures var s := Turned(Rotation(db, imsi, pos), j);
            var p := Cursor(db, imsi, pos, j);
            && Rotation(db, imsi, p) == s
            && Lookup(db, imsi, p) == if s == [] then None else Some(s[0])
  {
    if j > 0 {
      RoundRobin(db, imsi, pos, j - 1);
      LookupRotates(db, imsi, Cursor(db, imsi, pos, j - 1));
    }
    LookupRotates(db, imsi, Cursor(db, imsi, pos, j));
  }

  /** Up to the last entry, turning is cutting and swapping; after |r| turns everything is back in place. */
  lemma {:induction false} TurnedBy(r: seq<nat>, j: nat)
    requires j <= |r|
    ensures Turned(r, j) == r[j..] + r[..j]
  {
    if j > 0 {
      TurnedBy(r, j - 1);
      assert r[j - 1..] == [r[j - 1]] + r[j..];
      assert r[..j] == r[..j - 1] + [r[j - 1]];
    }
  }

  /**
    k consecutive lookups of an IMSI with k triplets return each of them once, in the order of the list from the
    cursor on, and the order is then the same as before.
   */
  lemma ServesEachOnce(db: seq<Triplet>, imsi: string, pos: nat)
    requires pos <= |db|
    ensures var r := Rotation(db, imsi, pos);
            Served(r, |r|) == r && Rotation(db, imsi, Cursor(db, imsi, pos, |r|)) == r
  {
    var r := Rotation(db, imsi, pos);
    RoundRobin(db, imsi, pos, |r|);
    TurnedBy(r, |r|);
    assert r[|r|..] + r[..|r|] == r;
    ServedFirst(r, |r|);
  }

  lemma {:induction false} ServedFirst(r: seq<nat>, n: nat)
    requires n <= |r|
    ensures Served(r, n) == r[..n]
  {
    if n > 0 {
      ServedFirst(r, n - 1);
      TurnedBy(r, n - 1);
    }
  }

  /** One answer repeats no triplet if and only if the IMSI has as many as are sent, or none at all. */
  lemma AnswerRepeatsExactly(db: seq<Triplet>, imsi: string, pos: nat, n: nat)
    requires pos <= |db|
    ensures var r := Rotation(db, imsi, pos);
            var s := Served(r, n);
            (forall i, j | 0 <= i < j < |s| :: s[i] != s[j]) <==> r == [] || n <= |r|
  {
    var r := Rotation(db, imsi, pos);
    RotationIsComplete(db, imsi, pos);
    if r != [] && n <= |r| {
      ServedFirst(r, n);
    } else if r != [] {
      TurnedBy(r, |r|);
      ServedAt(r, n, 0);
      ServedAt(r, n, |r|);
    }
  }
}
