/**
  Which clients count as competitors for the medium: those whose transmitted bits did not shrink over the window of
  samples kept for them.
 */
module ActiveClients {
  import opened Agent

  const WINDOW: nat := 5

  /** The samples of transmitted bits that are kept for a client, oldest first, and its PHY rate. */
  datatype Client = Client(bits: seq<real>, rate: real)

  predicate RatesPositive(clients: seq<Client>)
  {
    forall i | 0 <= i < |clients| :: clients[i].rate > 0.0
  }

  // ---------------------------------------------------------------- the window

  /** append on a deque of bounded length */
  function Push(window: seq<real>, bits: real): (r: seq<real>)
  {
    if |window| < WINDOW then window + [bits] else window[1..] + [bits]
  }

  function PushAll(samples: seq<real>): (r: seq<real>)
  {
    if samples == [] then [] else Push(PushAll(samples[..|samples| - 1]), samples[|samples| - 1])
  }

  lemma RecentPush(samples: seq<real>, bits: real)
    requires |samples| >= 5
    ensures samples[|samples| - 5..][1..] + [bits] == (samples + [bits])[|samples| - 4..]
  {
  }

  /** The window holds the last five samples, or all if there are fewer. */
  lemma {:induction false} WindowIsRecent(samples: seq<real>)
    ensures |samples| <= 5 ==> PushAll(samples) == samples
    ensures |samples| > 5 ==> PushAll(samples) == samples[|samples| - 5..]
  {
    if samples != [] {
      var n := |samples| - 1;
      var init, last := samples[..n], samples[n];
      WindowIsRecent(init);
      assert samples == init + [last];
      if n == 5 {
        assert init == init[n - 5..];
      }
      if n >= 5 {
        RecentPush(init, last);
      }
    }
  }

  // ---------------------------------------------------------------- active clients

  predicate IsActive(c: Client)
  {
    |c.bits| >= 2 && c.bits[|c.bits| - 1] >= c.bits[0]
  }

  function ActiveRates(clients: seq<Client>): (rates: seq<real>)
  {
    if clients == [] then []
    else
      var n := |clients| - 1;
      ActiveRates(clients[..n]) + (if IsActive(clients[n]) then [clients[n].rate] else [])
  }

  lemma {:induction false} ActiveRatesPositive(clients: seq<Client>)
    requires RatesPositive(clients)
    ensures forall i | 0 <= i < |ActiveRates(clients)| :: ActiveRates(clients)[i] > 0.0
  {
    if clients != [] {
      ActiveRatesPositive(clients[..|clients| - 1]);
    }
  }

  lemma QuotientSign(x: real, n: real)
    requires n > 0.0
    ensures x / n >= 0.0 <==> x >= 0.0
  {
    var q := x / n;
    assert q * n == x;
    if q < 0.0 {
      assert (0.0 - q) * n > 0.0;
    }
    if q >= 0.0 {
      assert q * n >= 0.0;
    }
  }

  /** The differences of neighbouring samples; None stands for skipping the client. */
  method MeanRate(bits: seq<real>) returns (mean: Option<real>)
    ensures mean.None? <==> |bits| < 2
    ensures mean.Some? ==> mean.value == (bits[|bits| - 1] - bits[0]) / (|bits| - 1) as real / 1000000.0
  {
    var values: seq<real> := [];
    var sum := 0.0;
    var i := 0;
    while i + 1 < |bits|
      invariant 0 <= i && (bits != [] ==> i < |bits|) && (bits == [] ==> i == 0)
      invariant |values| == i && (bits != [] ==> sum == bits[i] - bits[0]) && (bits == [] ==> sum == 0.0)
    {
      values := values + [bits[i + 1] - bits[i]];
      sum := sum + values[i];
      i := i + 1;
    }
    if |values| <= 0 {
      return None;
    }
    mean := Some(sum / |values| as real / 1000000.0);
  }

  /** The PHY rates of the clients whose mean rate is at least 0. */
  method CollectRates(clients: seq<Client>) returns (rates: seq<real>)
    ensures rates == ActiveRates(clients)
  {
    rates := [];
    for i := 0 to |clients|
      invariant rates == ActiveRates(clients[..i])
    {
      assert clients[..i + 1][..i] == clients[..i];
      var c := clients[i];
      var mean := MeanRate(c.bits);
      if mean.Some? {
        var d, n := c.bits[|c.bits| - 1] - c.bits[0], (|c.bits| - 1) as real;
        QuotientSign(d, n);
        QuotientSign(d / n, 1000000.0);
        if mean.value >= 0.0 {
          rates := rates + [c.rate];
        }
      }
    }
    assert clients[..|clients|] == clients;
  }

  /** A client whose counter has only been sampled once, or fell over the last five samples, does not count. */
  lemma CountsExactly(samples: seq<real>, rate: real)
    ensures ActiveRates([Client(PushAll(samples), rate)]) == [rate]
       <==> |samples| >= 2 && samples[|samples| - 1] >= samples[if |samples| <= 5 then 0 else |samples| - 5]
  {
    WindowIsRecent(samples);
    var c := Client(PushAll(samples), rate);
    assert [c][..0] == [];
    assert ActiveRates([]) == [];
  }
}
