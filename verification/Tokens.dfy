/** Cutting a string at a separator and joining it again, as strchr loops and printing loops do. */
module Tokens {

  /** Position of the first c at or after start, or |s|. */
  function IndexOf(s: string, c: char, start: nat := 0): (k: nat)
    requires start <= |s|
    ensures start <= k <= |s| && (k < |s| ==> s[k] == c)
    ensures forall j | start <= j < k :: s[j] != c
    decreases |s| - start
  {
    if start == |s| || s[start] == c then start else IndexOf(s, c, start + 1)
  }

  function Split(s: string, c: char): (toks: seq<string>)
    ensures |toks| > 0
    decreases |s|
  {
    var k := IndexOf(s, c);
    if k == |s| then [s] else [s[..k]] + Split(s[k + 1..], c)
  }

  function Join(toks: seq<string>, c: char): (s: string)
    requires |toks| > 0
  {
    if |toks| == 1 then toks[0] else toks[0] + [c] + Join(toks[1..], c)
  }

  predicate Lacks(s: string, c: char)
  {
    forall i | 0 <= i < |s| :: s[i] != c
  }

  lemma IndexOfIs(s: string, c: char, k: nat)
    requires k <= |s| && (forall j | 0 <= j < k :: s[j] != c) && (k < |s| ==> s[k] == c)
    ensures IndexOf(s, c) == k
  {
  }

  lemma {:induction false} SplitJoin(toks: seq<string>, c: char)
    requires |toks| > 0 && forall i | 0 <= i < |toks| :: Lacks(toks[i], c)
    ensures Split(Join(toks, c), c) == toks
  {
    var s := Join(toks, c);
    assert s[..|toks[0]|] == toks[0];
    assert forall j | 0 <= j < |toks[0]| :: s[j] == toks[0][j];
    IndexOfIs(s, c, |toks[0]|);
    if |toks| > 1 {
      SplitJoin(toks[1..], c);
      assert s[|toks[0]| + 1..] == Join(toks[1..], c);
      assert toks == [toks[0]] + toks[1..];
    }
  }

  /** Joining undoes splitting, and no token holds the separator. */
  lemma {:induction false} JoinSplit(s: string, c: char)
    ensures Join(Split(s, c), c) == s
    ensures forall i | 0 <= i < |Split(s, c)| :: Lacks(Split(s, c)[i], c)
    decreases |s|
  {
    var k := IndexOf(s, c);
    if k < |s| {
      var rest := Split(s[k + 1..], c);
      JoinSplit(s[k + 1..], c);
      assert Split(s, c) == [s[..k]] + rest;
      JoinCons(s[..k], rest, c);
      assert s == s[..k] + [c] + s[k + 1..];
    }
  }

  lemma JoinCons(t: string, toks: seq<string>, c: char)
    requires toks != []
    ensures Join([t] + toks, c) == t + [c] + Join(toks, c)
  {
    assert ([t] + toks)[1..] == toks;
  }

  /** Characters of all tokens plus one separator between neighbours. */
  lemma {:induction false} JoinLength(toks: seq<string>, c: char)
    requires |toks| > 0
    ensures (forall i | 0 <= i < |toks| :: |toks[i]| > 0) ==> |Join(toks, c)| >= 2 * |toks| - 1
  {
    if |toks| > 1 {
      JoinLength(toks[1..], c);
    }
  }

  /** Joining two joined lists with the separator is joining the concatenated list. */
  lemma {:induction false} JoinAppend(xs: seq<string>, ys: seq<string>, c: char)
    requires |xs| > 0 && |ys| > 0
    ensures Join(xs + ys, c) == Join(xs, c) + [c] + Join(ys, c)
  {
    if |xs| == 1 {
      assert (xs + ys)[1..] == ys;
    } else {
      assert (xs + ys)[1..] == xs[1..] + ys;
      JoinAppend(xs[1..], ys, c);
    }
  }

  function Count(s: string, c: char): (n: nat)
  {
    if s == "" then 0 else (if s[0] == c then 1 else 0) + Count(s[1..], c)
  }

  /** One token more than separators. */
  lemma {:induction false} SplitCount(s: string, c: char)
    ensures |Split(s, c)| == Count(s, c) + 1
    decreases |s|
  {
    var k := IndexOf(s, c);
    CountPrefix(s, c, k);
    if k < |s| {
      SplitCount(s[k + 1..], c);
      assert s[k..][1..] == s[k + 1..];
    } else {
      assert s[k..] == "";
    }
  }

  lemma {:induction false} CountPrefix(s: string, c: char, k: nat)
    requires k <= |s| && forall j | 0 <= j < k :: s[j] != c
    ensures Count(s, c) == Count(s[k..], c)
  {
    if k > 0 {
      CountPrefix(s[1..], c, k - 1);
      assert s[1..][k - 1..] == s[k..];
    } else {
      assert s[0..] == s;
    }
  }

  lemma IndexOfPrefix(a: string, b: string, c: char)
    ensures IndexOf(a + [c] + b, c) == IndexOf(a, c)
  {
    IndexOfIs(a + [c] + b, c, IndexOf(a, c));
  }

  lemma TokensAssoc(t: string, xs: seq<string>, ys: seq<string>)
    ensures [t] + (xs + ys) == ([t] + xs) + ys
  {
  }

  lemma SplitAt(s: string, c: char, k: nat)
    requires k < |s| && IndexOf(s, c) == k
    ensures Split(s, c) == [s[..k]] + Split(s[k + 1..], c)
  {
  }

  /** A separator in the middle separates the tokens of both sides. */
  lemma {:induction false} SplitAppend(a: string, b: string, c: char)
    ensures Split(a + [c] + b, c) == Split(a, c) + Split(b, c)
    decreases |a|
  {
    var s, k := a + [c] + b, IndexOf(a, c);
    IndexOfPrefix(a, b, c);
    CutInside(a, b, c, k);
    SplitAt(s, c, k);
    if k < |a| {
      var rest := a[k + 1..];
      SplitAt(a, c, k);
      SplitAppend(rest, b, c);
      TokensAssoc(a[..k], Split(rest, c), Split(b, c));
    } else {
      assert a[..k] == a;
    }
  }

  lemma CutInside(a: string, b: string, c: char, k: nat)
    requires k <= |a|
    ensures (a + [c] + b)[..k] == a[..k]
    ensures (a + [c] + b)[k + 1..] == if k < |a| then a[k + 1..] + [c] + b else b
  {
  }

  lemma SplitOne(s: string, c: char)
    ensures Split(s, c) == [s] <==> Lacks(s, c)
    ensures |Split(s, c)| == 1 <==> Lacks(s, c)
  {
    var k := IndexOf(s, c);
    if Lacks(s, c) {
      IndexOfIs(s, c, |s|);
    }
  }
}
