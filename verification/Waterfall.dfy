/**
How a concession is taken off a year billed in terms: the terms are charged in
order until the net fee is used up, so the concession eats the year from the
back.
*/
module Waterfall {

  function Min(a: int, b: int): int { if a <= b then a else b }
  function Max(a: int, b: int): int { if a >= b then a else b }

  function SumTo(fees: seq<int>, k: nat): int
    requires k <= |fees|
  {
    if k == 0 then 0 else SumTo(fees, k - 1) + fees[k - 1]
  }

  function Total(fees: seq<int>): int { SumTo(fees, |fees|) }

  function NetFee(fees: seq<int>, concession: int): int { Max(0, Total(fees) - concession) }

  /** What is left of the net fee once `k` terms have been charged. */
  function Left(fees: seq<int>, net: int, k: nat): int
    requires k <= |fees|
  {
    if k == 0 then net else Left(fees, net, k - 1) - Min(fees[k - 1], Left(fees, net, k - 1))
  }

  function Charge(fees: seq<int>, net: int, k: nat): int
    requires k < |fees|
  {
    Min(fees[k], Left(fees, net, k))
  }

  ghost predicate NonNegative(fees: seq<int>) { forall k :: 0 <= k < |fees| ==> fees[k] >= 0 }

  method Charges(fees: seq<int>, concession: int) returns (net: int, charge: seq<int>)
    ensures net == NetFee(fees, concession)
    ensures |charge| == |fees| && forall k :: 0 <= k < |fees| ==> charge[k] == Charge(fees, net, k)
  {
    net := 0;
    for k := 0 to |fees|
      invariant net == SumTo(fees, k)
    {
      net := net + fees[k];
    }
    net := net - concession;
    if net < 0 {
      net := 0;
    }
    charge := [];
    var left := net;
    for k := 0 to |fees|
      invariant |charge| == k && left == Left(fees, net, k)
      invariant forall j :: 0 <= j < k ==> charge[j] == Charge(fees, net, j)
    {
      var c := fees[k];
      if c > left {
        c := left;
      }
      charge := charge + [c];
      left := left - c;
    }
  }

  // --- what the waterfall promises ------------------------------------------

  /** Whatever the fees, a term that charges something charges between nothing and its fee. */
  lemma {:induction false} ChargeWithinFee(fees: seq<int>, net: int, k: nat)
    requires net >= 0 && k <= |fees|
    ensures Left(fees, net, k) >= 0
    ensures k < |fees| && fees[k] > 0 ==> 0 <= Charge(fees, net, k) <= fees[k]
  {
    if k > 0 {
      ChargeWithinFee(fees, net, k - 1);
    }
  }

  lemma {:induction false} LeftClosed(fees: seq<int>, net: int, k: nat)
    requires NonNegative(fees) && net >= 0 && k <= |fees|
    ensures Left(fees, net, k) == Max(0, net - SumTo(fees, k))
  {
    if k > 0 {
      LeftClosed(fees, net, k - 1);
    }
  }

  /** Each term is charged what the earlier fees leave of the net fee, clamped to its own fee. */
  lemma ChargeClosed(fees: seq<int>, net: int, k: nat)
    requires NonNegative(fees) && net >= 0 && k < |fees|
    ensures Charge(fees, net, k) == Max(0, Min(fees[k], net - SumTo(fees, k)))
  {
    LeftClosed(fees, net, k);
  }

  function ChargedTo(fees: seq<int>, net: int, k: nat): int
    requires k <= |fees|
  {
    if k == 0 then 0 else ChargedTo(fees, net, k - 1) + Charge(fees, net, k - 1)
  }

  lemma {:induction false} ChargedAndLeft(fees: seq<int>, net: int, k: nat)
    requires k <= |fees|
    ensures ChargedTo(fees, net, k) + Left(fees, net, k) == net
  {
    if k > 0 {
      ChargedAndLeft(fees, net, k - 1);
    }
  }

  lemma {:induction false} SumsGrow(fees: seq<int>, j: nat, k: nat)
    requires NonNegative(fees) && j <= k <= |fees|
    ensures SumTo(fees, j) <= SumTo(fees, k)
  {
    if j < k {
      SumsGrow(fees, j, k - 1);
    }
  }

  /** The year is charged exactly the fee less the concession, and nothing when the concession is larger. */
  lemma WholeYear(fees: seq<int>, concession: int)
    requires NonNegative(fees) && concession >= 0
    ensures ChargedTo(fees, NetFee(fees, concession), |fees|) == Max(0, Total(fees) - concession)
  {
    var net := NetFee(fees, concession);
    SumsGrow(fees, 0, |fees|);
    LeftClosed(fees, net, |fees|);
    ChargedAndLeft(fees, net, |fees|);
  }

  /** All the terms together charge the net fee, or all their fees when those are less. */
  lemma AllCharge(fees: seq<int>, net: int)
    requires NonNegative(fees) && net >= 0
    ensures ChargedTo(fees, net, |fees|) == Min(net, Total(fees))
  {
    LeftClosed(fees, net, |fees|);
    ChargedAndLeft(fees, net, |fees|);
  }

  /** A term with any discount is followed only by terms charged nothing. */
  lemma FromTheBack(fees: seq<int>, net: int, j: nat, k: nat)
    requires NonNegative(fees) && net >= 0 && j < k < |fees| && Charge(fees, net, j) < fees[j]
    ensures Charge(fees, net, k) == 0
  {
    ChargeClosed(fees, net, j);
    ChargeClosed(fees, net, k);
    SumsGrow(fees, j + 1, k);
  }

  /** A concession no larger than the last term falls wholly on it. */
  lemma SmallConcession(fees: seq<int>, concession: int, k: nat)
    requires NonNegative(fees) && k < |fees| && 0 <= concession <= fees[|fees| - 1]
    ensures Charge(fees, NetFee(fees, concession), k) == fees[k] - (if k == |fees| - 1 then concession else 0)
  {
    var net := NetFee(fees, concession);
    SumsGrow(fees, 0, |fees| - 1);
    SumsGrow(fees, k, |fees| - 1);
    ChargeClosed(fees, net, k);
    if k < |fees| - 1 {
      SumsGrow(fees, k + 1, |fees| - 1);
    }
  }
}
