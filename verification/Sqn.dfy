/**
  The AKA sequence numbers of hostapd/hostapd/hlr_auc_gw.c: a 48-bit value SEQ | IND in six octets, most significant
  first (Annex C.3.2 of 3GPP TS 33.102).  Shifts and masks by ind_len are written as division by 2^ind_len.
 */
module Sqn {
  import opened HexMask

  const SIZE: nat := 0x1_0000_0000_0000

  function Pow2(k: nat): (p: nat)
    ensures p > 0
  {
    if k == 0 then 1 else 2 * Pow2(k - 1)
  }

  function Seq(v: nat, len: nat): (s: nat)
  {
    Euclid(v, Pow2(len));
    v / Pow2(len)
  }

  function Ind(v: nat, len: nat): (i: nat)
  {
    Euclid(v, Pow2(len));
    v % Pow2(len)
  }

  /** SEQ and IND both plus one; the octets keep 48 bits. */
  function Next(v: nat, len: nat): (r: nat)
  {
    ((v / Pow2(len) + 1) * Pow2(len) + (v + 1) % Pow2(len)) % SIZE
  }

  function After(v: nat, len: nat, n: nat): (r: nat)
  {
    if n == 0 then v else Next(After(v, len, n - 1), len)
  }

  // ---------------------------------------------------------------- octets

  /** Big-endian load. */
  function Load(s: seq<Byte>): (v: nat)
  {
    if s == [] then 0 else 256 * Load(s[..|s| - 1]) + s[|s| - 1]
  }

  /** Big-endian store of the n low octets. */
  function Store(v: nat, n: nat): (s: seq<Byte>)
    ensures |s| == n
  {
    if n == 0 then [] else Store(v / 256, n - 1) + [v % 256]
  }

  lemma {:induction false} LoadStore(v: nat, n: nat)
    requires v < Pow2(8 * n)
    ensures Load(Store(v, n)) == v
  {
    if n > 0 {
      PowSplit(8 * n, 8 * n - 8);
      assert Pow2(8) == 256;
      LoadStore(v / 256, n - 1);
      assert Store(v, n)[..n - 1] == Store(v / 256, n - 1);
    }
  }

  lemma {:induction false} LoadBound(s: seq<Byte>)
    ensures Load(s) < Pow2(8 * |s|)
  {
    if s != [] {
      LoadBound(s[..|s| - 1]);
      PowSplit(8 * |s|, 8 * |s| - 8);
      assert Pow2(8) == 256;
    }
  }

  method LoadSqn(sqn: array<Byte>) returns (val: nat)
    ensures val == Load(sqn[..])
  {
    val := 0;
    for k := 0 to sqn.Length
      invariant val == Load(sqn[..k])
    {
      assert sqn[..k + 1][..k] == sqn[..k];
      val := 256 * val + sqn[k];
    }
    assert sqn[..sqn.Length] == sqn[..];
  }

  method StoreSqn(sqn: array<Byte>, val: nat)
    modifies sqn
    ensures sqn[..] == Store(val, sqn.Length)
  {
    var left, k := val, sqn.Length;
    while k > 0
      invariant 0 <= k <= sqn.Length
      invariant Store(val, sqn.Length) == Store(left, k) + sqn[k..]
    {
      k := k - 1;
      ghost var rest := sqn[k + 1..];
      sqn[k] := left % 256;
      assert sqn[k..] == [left % 256] + rest;
      left := left / 256;
    }
  }

  /** inc_sqn: load, add one to both parts, store. */
  method IncSqn(sqn: array<Byte>, indLen: nat)
    requires sqn.Length == 6 && indLen <= 30
    modifies sqn
    ensures Load(sqn[..]) == Next(old(Load(sqn[..])), indLen)
  {
    var val := LoadSqn(sqn);
    var seq1 := val / Pow2(indLen) + 1;
    var ind := (val + 1) % Pow2(indLen);
    ghost var v := val;
    val := seq1 * Pow2(indLen) + ind;
    StoreSqn(sqn, val % SIZE);
    Pow48();
    LoadStore(val % SIZE, 6);
  }

  // ---------------------------------------------------------------- arithmetic

  lemma MulMono(a: int, b: int, p: nat)
    requires a <= b
    ensures a * p <= b * p
  {
  }

  lemma Euclid(x: nat, p: nat)
    requires p > 0
    ensures x == x / p * p + x % p && x % p < p && x / p >= 0
  {
  }

  /** Quotient and remainder are unique. */
  lemma Unique(q: int, r: nat, q': int, r': nat, p: nat)
    requires r < p && r' < p && q * p + r == q' * p + r'
    ensures q == q' && r == r'
  {
    if q < q' {
      MulMono(q + 1, q', p);
    } else if q > q' {
      MulMono(q' + 1, q, p);
    }
  }

  lemma DivMod(q: nat, r: nat, p: nat)
    requires r < p
    ensures (q * p + r) / p == q && (q * p + r) % p == r
  {
    var x := q * p + r;
    MulMono(0, q, p);
    Euclid(x, p);
    Unique(q, r, x / p, x % p, p);
  }

  lemma {:induction false} PowSplit(k: nat, len: nat)
    requires len <= k
    ensures Pow2(k) == Pow2(len) * Pow2(k - len)
    decreases k - len
  {
    if len < k {
      PowSplit(k - 1, len);
      assert Pow2(k - len) == 2 * Pow2(k - 1 - len);
    }
  }

  lemma Pow48()
    ensures Pow2(48) == SIZE
  {
    PowSplit(48, 24);
    PowSplit(24, 12);
    PowSplit(12, 6);
    assert Pow2(6) == 64;
  }

  /** Reducing before adding changes nothing. */
  lemma ModSucc(x: nat, n: nat, p: nat)
    requires p > 0
    ensures (x % p + n) % p == (x + n) % p
  {
    Euclid(x, p);
    Euclid(x % p + n, p);
    var q0, q1, r := x / p, (x % p + n) / p, (x % p + n) % p;
    assert x + n == (q0 + q1) * p + r;
    DivMod(q0 + q1, r, p);
  }

  /** A value q*p + r below p*m, reduced modulo p*m. */
  lemma ModProduct(q: nat, r: nat, p: nat, m: nat)
    requires r < p && m > 0
    ensures p * m > 0 && (q * p + r) % (p * m) == (q % m) * p + r
  {
    var k, s := q / m, q % m;
    assert q * p + r == k * (p * m) + (s * p + r) by {
      assert q == k * m + s;
      assert k * (p * m) == k * m * p;
    }
    assert s * p + r < p * m by {
      assert (s + 1) * p <= m * p;
    }
    DivMod(k, s * p + r, p * m);
  }

  lemma NextIs(v: nat, len: nat)
    requires len <= 30
    ensures Next(v, len) == (Seq(v, len) + 1) % Pow2(48 - len) * Pow2(len) + (Ind(v, len) + 1) % Pow2(len)
  {
    PowSplit(48, len);
    Pow48();
    Euclid(v + 1, Pow2(len));
    ModProduct(Seq(v, len) + 1, (v + 1) % Pow2(len), Pow2(len), Pow2(48 - len));
    ModSucc(v, 1, Pow2(len));
  }

  /** One call: SEQ goes up by one modulo its width, IND by one modulo its width. */
  lemma NextParts(v: nat, len: nat)
    requires len <= 30
    ensures Seq(Next(v, len), len) == (Seq(v, len) + 1) % Pow2(48 - len)
    ensures Ind(Next(v, len), len) == (Ind(v, len) + 1) % Pow2(len)
    ensures Next(v, len) < SIZE
  {
    NextIs(v, len);
    Euclid(Seq(v, len) + 1, Pow2(48 - len));
    Euclid(Ind(v, len) + 1, Pow2(len));
    DivMod((Seq(v, len) + 1) % Pow2(48 - len), (Ind(v, len) + 1) % Pow2(len), Pow2(len));
  }

  /** n calls give SEQ0 + n and IND0 + n, each modulo its width. */
  lemma StartParts(v: nat, len: nat)
    requires len <= 30 && v < SIZE
    ensures Seq(v, len) == Seq(v, len) % Pow2(48 - len) && Ind(v, len) == Ind(v, len) % Pow2(len)
  {
    SeqBound(v, len);
    Euclid(v, Pow2(len));
    DivMod(0, Seq(v, len), Pow2(48 - len));
    DivMod(0, Ind(v, len), Pow2(len));
  }

  lemma {:induction false} AfterParts(v: nat, len: nat, n: nat)
    requires len <= 30 && v < SIZE
    ensures After(v, len, n) < SIZE
    ensures Seq(After(v, len, n), len) == (Seq(v, len) + n) % Pow2(48 - len)
    ensures Ind(After(v, len, n), len) == (Ind(v, len) + n) % Pow2(len)
  {
    if n == 0 {
      StartParts(v, len);
    } else {
      AfterParts(v, len, n - 1);
      NextParts(After(v, len, n - 1), len);
      ModSucc(Seq(v, len) + n - 1, 1, Pow2(48 - len));
      ModSucc(Ind(v, len) + n - 1, 1, Pow2(len));
    }
  }

  lemma DivBound(v: nat, p: nat, m: nat)
    requires p > 0 && v < p * m
    ensures v / p < m
  {
    Euclid(v, p);
    if v / p >= m {
      MulMono(m, v / p, p);
    }
  }

  lemma SeqBound(v: nat, len: nat)
    requires len <= 30 && v < SIZE
    ensures Seq(v, len) < Pow2(48 - len)
  {
    PowSplit(48, len);
    Pow48();
    DivBound(v, Pow2(len), Pow2(48 - len));
  }

  /** Values are ordered like their SEQ parts. */
  lemma SeqOrder(x: nat, y: nat, len: nat)
    requires Seq(x, len) < Seq(y, len)
    ensures x < y
  {
    var p := Pow2(len);
    Euclid(x, p);
    Euclid(y, p);
    MulMono(x / p + 1, y / p, p);
  }

  /** Until SEQ wraps, SQNs strictly increase and so does SEQ, whatever the INDs are. */
  lemma SqnIncreases(v: nat, len: nat, i: nat, j: nat)
    requires len <= 30 && v < SIZE && i < j && Seq(v, len) + j < Pow2(48 - len)
    ensures Seq(After(v, len, j), len) == Seq(After(v, len, i), len) + (j - i)
    ensures After(v, len, i) < After(v, len, j)
  {
    AfterParts(v, len, i);
    AfterParts(v, len, j);
    DivMod(0, Seq(v, len) + i, Pow2(48 - len));
    DivMod(0, Seq(v, len) + j, Pow2(48 - len));
    SeqOrder(After(v, len, i), After(v, len, j), len);
  }

  /** One call increases the value if and only if SEQ is not at its maximum. */
  lemma IncreasesExactly(v: nat, len: nat)
    requires len <= 30 && v < SIZE
    ensures Next(v, len) > v <==> Seq(v, len) + 1 < Pow2(48 - len)
  {
    var m := Pow2(48 - len);
    NextParts(v, len);
    SeqBound(v, len);
    if Seq(v, len) + 1 < m {
      DivMod(0, Seq(v, len) + 1, m);
      SeqOrder(v, Next(v, len), len);
    } else {
      DivMod(1, 0, m);
      PowSplit(48 - len, 1);
      assert Seq(Next(v, len), len) == 0 && m >= 2 by {
        assert Pow2(1) == 2;
      }
      SeqOrder(Next(v, len), v, len);
    }
  }

  /** Any 2^len consecutive SQNs have pairwise different INDs. */
  lemma IndsDiffer(v: nat, len: nat, i: nat, j: nat)
    requires len <= 30 && v < SIZE && i < j < i + Pow2(len)
    ensures Ind(After(v, len, i), len) != Ind(After(v, len, j), len)
  {
    var p := Pow2(len);
    AfterParts(v, len, i);
    AfterParts(v, len, j);
    ModDiffer(Ind(v, len) + i, Ind(v, len) + j, p);
  }

  lemma ModDiffer(x: nat, y: nat, p: nat)
    requires x < y < x + p
    ensures x % p != y % p
  {
    Euclid(x, p);
    Euclid(y, p);
    if y / p <= x / p {
      MulMono(y / p, x / p, p);
    } else {
      MulMono(x / p + 1, y / p, p);
    }
  }
}
