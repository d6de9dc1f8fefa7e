/** What the search minimises, in plain arithmetic: the fee of a channel, the cost
    of a route, and the choice between two parallel channels. */
module RouteFees {
  import opened Wrappers
  import opened Numbers
  import opened Domain
  import opened CheapestRoute

  // `rate` parts per million of `amount`, rounded down; a product beyond 2^64 - 1 counts as that.
  ghost predicate IsPartsPerMillion(fee: nat, rate: u64, amountMsat: u64) {
    if rate * amountMsat <= MAX_U64 then 1_000_000 * fee <= rate * amountMsat < 1_000_000 * (fee + 1)
    else fee == MAX_U64 / 1_000_000
  }

  lemma QuotientOf(product: nat, fee: nat)
    ensures fee == product / 1_000_000 <==> 1_000_000 * fee <= product < 1_000_000 * (fee + 1)
  {}

  lemma FeeIsPartsPerMillion(channel: Channel, amountMsat: u64, fee: nat)
    ensures fee == ProportionalFee(channel, amountMsat) <==>
            IsPartsPerMillion(fee, channel.feePolicy.feeRatePpm, amountMsat)
  {
    QuotientOf(SaturatingMul(channel.feePolicy.feeRatePpm, amountMsat), fee);
  }

  /** A channel charges its base fee and its parts per million of the amount, up to 2^64 - 1. */
  lemma CostIsBasePlusPartsPerMillion(channel: Channel, amountMsat: u64, fee: nat)
    requires IsPartsPerMillion(fee, channel.feePolicy.feeRatePpm, amountMsat)
    ensures var cost := channel.feePolicy.baseFeeMsat + fee;
            ChannelCost(channel, amountMsat) == if cost <= MAX_U64 then cost else MAX_U64
    ensures ChannelCost(channel, 0) == channel.feePolicy.baseFeeMsat
  {
    FeeIsPartsPerMillion(channel, amountMsat, fee);
  }

  // `fees[i]` is what channel `w[i]` of the walk charges.
  ghost predicate Charges(net: Net, w: seq<ChannelId>, amountMsat: u64, fees: seq<nat>) {
    && |fees| == |w|
    && forall i | 0 <= i < |w| ::
         w[i] in net.channels &&
         var policy := net.channels[w[i]].feePolicy;
         policy.baseFeeMsat <= fees[i] &&
         IsPartsPerMillion(fees[i] - policy.baseFeeMsat, policy.feeRatePpm, amountMsat)
  }

  function Sum(fees: seq<nat>): nat {
    if fees == [] then 0 else Sum(fees[..|fees| - 1]) + fees[|fees| - 1]
  }

  /** A walk costs the sum of what its channels charge, up to 2^64 - 1. */
  lemma {:induction false} WalkCostIsTheSum(net: Net, w: seq<ChannelId>, amountMsat: u64, fees: seq<nat>)
    requires Charges(net, w, amountMsat, fees)
    ensures net.WalkCost(w, amountMsat) == if Sum(fees) <= MAX_U64 then Sum(fees) else MAX_U64
  {
    if w != [] {
      var n := |w| - 1;
      WalkCostIsTheSum(net, w[..n], amountMsat, fees[..n]);
      var channel := net.channels[w[n]];
      CostIsBasePlusPartsPerMillion(channel, amountMsat, fees[n] - channel.feePolicy.baseFeeMsat);
    }
  }

  // ---- Two parallel channels ----

  predicate Joins(channel: Channel, a: NodeId, b: NodeId) {
    (channel.node == a && channel.peer == b) || (channel.node == b && channel.peer == a)
  }

  ghost predicate Parallel(net: Net, a: NodeId, b: NodeId) {
    a != b && forall c | c in net.channels :: Joins(net.channels[c], a, b)
  }

  // Between two nodes a walk that repeats none is one channel.
  lemma {:induction false} SimpleWalksAreHops(net: Net, a: NodeId, b: NodeId, w: seq<ChannelId>)
    requires Parallel(net, a, b) && net.IsWalk(a, w) && net.Simple(a, w)
    ensures w == [] || (|w| == 1 && w[0] in net.channels && net.EndOf(a, w) == b)
  {
    if w != [] {
      var init := w[..|w| - 1];
      SimpleWalksAreHops(net, a, b, init);
    }
  }

  lemma OneHop(net: Net, a: NodeId, b: NodeId, c: ChannelId, amountMsat: u64)
    requires Parallel(net, a, b) && net.Lists(a, c)
    ensures net.Leads(a, [c], b) && net.WalkCost([c], amountMsat) == ChannelCost(net.channels[c], amountMsat)
  {
    assert [c][..0] == [];
    assert net.IsWalk(a, []) && net.EndOf(a, []) == a && net.WalkCost([], amountMsat) == 0;
  }

  lemma AnswersAreHops(net: Net, a: NodeId, b: NodeId, amountMsat: u64, r: Option<Path>)
    requires Parallel(net, a, b) && Answers(net, a, b, amountMsat, r) && r.Some?
    ensures |r.value.hops| == 1 && HopIds(r.value.hops) == [r.value.hops[0].channelId]
    ensures r.value.hops[0].channelId in net.channels
    ensures net.Lists(a, r.value.hops[0].channelId)
  {
    var hops := r.value.hops;
    var ids := HopIds(hops);
    SimpleWalksAreHops(net, a, b, ids);
    HopIdsLength(hops);
    assert net.EndOf(a, []) == a;
    assert hops[..0] == [];
    assert ids[..0] == [];
  }

  lemma {:induction false} HopIdsLength(hops: seq<PathHop>)
    ensures |HopIds(hops)| == |hops|
  {
    if hops != [] {
      HopIdsLength(hops[..|hops| - 1]);
    }
  }

  /** Of two parallel channels the search takes the one whose base fee plus parts
      per million is smaller, and reports its base fee. */
  lemma CheaperParallelChannel(net: Net, a: NodeId, b: NodeId, x: ChannelId, y: ChannelId, amountMsat: u64,
                               feeX: nat, feeY: nat, r: Option<Path>)
    requires Parallel(net, a, b) && net.channels.Keys == {x, y} && net.Lists(a, x) && net.Lists(a, y)
    requires IsPartsPerMillion(feeX, net.channels[x].feePolicy.feeRatePpm, amountMsat)
    requires IsPartsPerMillion(feeY, net.channels[y].feePolicy.feeRatePpm, amountMsat)
    requires Answers(net, a, b, amountMsat, r)
    ensures var costX := net.channels[x].feePolicy.baseFeeMsat + feeX;
            var costY := net.channels[y].feePolicy.baseFeeMsat + feeY;
            && (r.Some? <==> costX < MAX_U64 || costY < MAX_U64)
            && (r.Some? ==>
                  && |r.value.hops| == 1
                  && (costX < costY ==> r.value.hops[0].channelId == x)
                  && (costY < costX ==> r.value.hops[0].channelId == y)
                  && r.value.hops[0].channelId in net.channels
                  && r.value.hops[0].costMsat == r.value.totalCostMsat ==
                       net.channels[r.value.hops[0].channelId].feePolicy.baseFeeMsat)
  {
    CostIsBasePlusPartsPerMillion(net.channels[x], amountMsat, feeX);
    CostIsBasePlusPartsPerMillion(net.channels[y], amountMsat, feeY);
    OneHop(net, a, b, x, amountMsat);
    OneHop(net, a, b, y, amountMsat);
    if r.Some? {
      AnswersAreHops(net, a, b, amountMsat, r);
      var c := r.value.hops[0].channelId;
      OneHop(net, a, b, c, amountMsat);
      OneHop(net, a, b, c, 0);
      assert r.value.hops[0] in r.value.hops;
    } else {
      NoAnswerSaturates(net, a, b, x, y, amountMsat);
    }
  }

  lemma NoAnswerSaturates(net: Net, a: NodeId, b: NodeId, x: ChannelId, y: ChannelId, amountMsat: u64)
    requires Answers(net, a, b, amountMsat, None)
    requires net.Leads(a, [x], b) && net.Leads(a, [y], b)
    ensures net.WalkCost([x], amountMsat) == net.WalkCost([y], amountMsat) == MAX_U64
  {}
}
