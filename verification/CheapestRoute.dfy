/** The cheapest-route search of crates/rieko-graph/src/path.rs: Dijkstra with
    saturating fees and lazy deletion, and the predecessor walk-back. */
module CheapestRoute {
  import opened Wrappers
  import opened Numbers
  import opened Ordering
  import opened Domain

  datatype PathHop = PathHop(channelId: ChannelId, costMsat: u64)
  datatype Path = Path(hops: seq<PathHop>, totalCostMsat: u64)
  datatype Distanced = Distanced(node: NodeId, cost: u64, prevChannel: Option<ChannelId>)

  function ProportionalFee(channel: Channel, amountMsat: u64): u64 {
    SaturatingMul(channel.feePolicy.feeRatePpm, amountMsat) / 1_000_000
  }

  function ChannelCost(channel: Channel, amountMsat: u64): u64 {
    SaturatingAdd(channel.feePolicy.baseFeeMsat, ProportionalFee(channel, amountMsat))
  }

  function OtherEnd(channel: Channel, n: NodeId): NodeId {
    if n == channel.node then channel.peer else channel.node
  }

  // ---- The graph a search runs over, and what a walk in it is and costs ----

  datatype Net = Net(channels: map<ChannelId, Channel>, peerEdge: map<NodeId, seq<ChannelId>>) {
    predicate Lists(n: NodeId, c: ChannelId) {
      n in peerEdge && c in peerEdge[n] && c in channels
    }

    // Every listed id really touches the node it is listed for.
    ghost predicate Touching() {
      forall n, c :: Lists(n, c) ==> n == channels[c].node || n == channels[c].peer
    }

    // The node a sequence of channels leads to.
    function EndOf(start: NodeId, w: seq<ChannelId>): NodeId {
      if w == [] then start
      else
        var n := EndOf(start, w[..|w| - 1]);
        if w[|w| - 1] in channels then OtherEnd(channels[w[|w| - 1]], n) else n
    }

    predicate IsWalk(start: NodeId, w: seq<ChannelId>) {
      w == [] ||
      (IsWalk(start, w[..|w| - 1]) && Lists(EndOf(start, w[..|w| - 1]), w[|w| - 1]))
    }

    ghost predicate Leads(start: NodeId, w: seq<ChannelId>, end: NodeId) {
      IsWalk(start, w) && EndOf(start, w) == end
    }

    function EdgeCost(c: ChannelId, amountMsat: u64): u64 {
      if c in channels then ChannelCost(channels[c], amountMsat) else 0
    }

    function WalkCost(w: seq<ChannelId>, amountMsat: u64): u64 {
      if w == [] then 0
      else SaturatingAdd(WalkCost(w[..|w| - 1], amountMsat), EdgeCost(w[|w| - 1], amountMsat))
    }

    function Visited(start: NodeId, w: seq<ChannelId>): set<NodeId> {
      {EndOf(start, w)} + (if w == [] then {} else Visited(start, w[..|w| - 1]))
    }

    // No node is reached twice along the walk.
    predicate Simple(start: NodeId, w: seq<ChannelId>) {
      w == [] ||
      (Simple(start, w[..|w| - 1]) && EndOf(start, w) !in Visited(start, w[..|w| - 1]))
    }
  }

  function HopIds(hops: seq<PathHop>): seq<ChannelId> {
    if hops == [] then [] else HopIds(hops[..|hops| - 1]) + [hops[|hops| - 1].channelId]
  }

  /** What the search promises: an optimal simple route, or a proof that every
      walk to the target has saturated cost. */
  ghost predicate Answers(net: Net, source: NodeId, target: NodeId, amountMsat: u64, r: Option<Path>) {
    match r
    case None =>
      source != target &&
      forall w | net.Leads(source, w, target) :: net.WalkCost(w, amountMsat) == MAX_U64
    case Some(path) =>
      var ids := HopIds(path.hops);
      && net.Leads(source, ids, target)
      && net.Simple(source, ids)
      && net.WalkCost(ids, amountMsat) < MAX_U64
      && (forall w | net.Leads(source, w, target) ::
            net.WalkCost(ids, amountMsat) <= net.WalkCost(w, amountMsat))
      && (forall hop | hop in path.hops :: hop.costMsat == net.EdgeCost(hop.channelId, 0))
      && path.totalCostMsat == net.WalkCost(ids, 0)
  }

  // ---- The heap: a bag from which the greatest entry of `Ord for Distanced` comes out ----

  predicate Above(a: Distanced, b: Distanced) {
    a.cost < b.cost || (a.cost == b.cost && StringLess(b.node, a.node))
  }

  method Top(heap: seq<Distanced>) returns (best: nat)
    requires heap != []
    ensures best < |heap| && forall k | 0 <= k < |heap| :: !Above(heap[k], heap[best])
  {
    best := 0;
    StringLessIrreflexive(heap[0].node);
    for i := 1 to |heap|
      invariant best < i
      invariant forall k | 0 <= k < i :: !Above(heap[k], heap[best])
    {
      if Above(heap[i], heap[best]) {
        forall k | 0 <= k <= i
          ensures !Above(heap[k], heap[i])
        {
          if k == i {
            StringLessIrreflexive(heap[i].node);
          } else if Above(heap[k], heap[i]) {
            if heap[k].cost == heap[i].cost == heap[best].cost {
              StringLessTransitive(heap[best].node, heap[i].node, heap[k].node);
            }
          }
        }
        best := i;
      }
    }
  }

  lemma EntriesWithout(heap: seq<Distanced>, at: nat)
    requires at < |heap|
    ensures forall e | e in heap :: e in heap[..at] + heap[at + 1..] || e == heap[at]
    ensures EntriesDistinct(heap) ==>
              forall e | e in heap[..at] + heap[at + 1..] ::
                e in heap && (e.node == heap[at].node ==> e.cost != heap[at].cost)
  {
    assert heap == heap[..at] + [heap[at]] + heap[at + 1..];
  }

  lemma DistinctWithout(heap: seq<Distanced>, at: nat)
    requires at < |heap|
    ensures EntriesDistinct(heap) ==> EntriesDistinct(heap[..at] + heap[at + 1..])
  {
    var rest := heap[..at] + heap[at + 1..];
    assert forall k | 0 <= k < |rest| :: rest[k] == heap[if k < at then k else k + 1];
  }

  function Without(heap: seq<Distanced>, at: nat): (rest: seq<Distanced>)
    requires at < |heap|
    ensures |rest| == |heap| - 1
    ensures EntriesDistinct(heap) ==> Remains(heap, heap[at], rest)
  {
    EntriesWithout(heap, at);
    DistinctWithout(heap, at);
    heap[..at] + heap[at + 1..]
  }

  // `rest` holds the entries of `heap` but `top`.
  ghost predicate Remains(heap: seq<Distanced>, top: Distanced, rest: seq<Distanced>) {
    && top in heap
    && (forall e | e in heap :: e in rest || e == top)
    && (forall e | e in rest :: e in heap && (e.node == top.node ==> e.cost != top.cost))
    && EntriesDistinct(rest)
  }

  // ---- The search invariant ----

  ghost function Label(dist: map<NodeId, u64>, v: NodeId): u64 {
    if v in dist then dist[v] else MAX_U64
  }

  // `v` was last labelled from a node that had been settled before `v` was.
  ghost predicate LabelledFrom(net: Net, amountMsat: u64, dist: map<NodeId, u64>,
                               prev: map<NodeId, ChannelId>, settledAt: map<NodeId, nat>, v: NodeId)
    requires v in prev
  {
    && prev[v] in net.channels
    && var u := OtherEnd(net.channels[prev[v]], v);
    && u in settledAt && u in dist && v in dist
    && net.Lists(u, prev[v])
    && OtherEnd(net.channels[prev[v]], u) == v
    && dist[v] == SaturatingAdd(dist[u], net.EdgeCost(prev[v], amountMsat))
    && (v in settledAt ==> settledAt[u] < settledAt[v])
  }

  ghost predicate Labelled(net: Net, amountMsat: u64, source: NodeId, dist: map<NodeId, u64>,
                           prev: map<NodeId, ChannelId>, settledAt: map<NodeId, nat>, clock: nat)
  {
    && source in dist && dist[source] == 0
    && prev.Keys == dist.Keys - {source}
    && settledAt.Keys <= dist.Keys
    && (forall v | v in dist :: dist[v] < MAX_U64)
    && (forall v | v in settledAt :: settledAt[v] < clock)
    && (forall v {:trigger LabelledFrom(net, amountMsat, dist, prev, settledAt, v)} | v in prev ::
          LabelledFrom(net, amountMsat, dist, prev, settledAt, v))
  }

  // Entries are never fresher than labels, and those of settled nodes are stale.
  ghost predicate EntriesSound(dist: map<NodeId, u64>, heap: seq<Distanced>, settledAt: map<NodeId, nat>) {
    && (forall e | e in heap ::
          e.node in dist && dist[e.node] <= e.cost && (e.node in settledAt ==> dist[e.node] < e.cost))
    && (forall u, e | u in settledAt && e in heap :: u in dist && dist[u] <= e.cost)
  }

  // A node is pushed again only with a smaller cost.
  ghost predicate EntriesDistinct(heap: seq<Distanced>) {
    forall i, j | 0 <= i < j < |heap| :: heap[i].node == heap[j].node ==> heap[i].cost != heap[j].cost
  }

  ghost predicate AllWaiting(dist: map<NodeId, u64>, heap: seq<Distanced>, settledAt: map<NodeId, nat>) {
    forall v | v in dist && v !in settledAt :: Waiting(heap, v, dist[v])
  }

  ghost predicate Queued(dist: map<NodeId, u64>, heap: seq<Distanced>, settledAt: map<NodeId, nat>) {
    EntriesSound(dist, heap, settledAt) && EntriesDistinct(heap) && AllWaiting(dist, heap, settledAt)
  }

  ghost predicate Waiting(heap: seq<Distanced>, v: NodeId, cost: u64) {
    exists e :: e in heap && e.node == v && e.cost == cost
  }

  ghost predicate EdgeRelaxed(net: Net, amountMsat: u64, dist: map<NodeId, u64>, u: NodeId, c: ChannelId)
    requires c in net.channels && u in dist
  {
    Label(dist, OtherEnd(net.channels[c], u)) <= SaturatingAdd(dist[u], net.EdgeCost(c, amountMsat))
  }

  ghost predicate ListRelaxed(net: Net, amountMsat: u64, dist: map<NodeId, u64>, u: NodeId, ids: seq<ChannelId>)
    requires u in dist
  {
    forall c | c in ids && c in net.channels :: EdgeRelaxed(net, amountMsat, dist, u, c)
  }

  ghost predicate Relaxed(net: Net, amountMsat: u64, dist: map<NodeId, u64>, done: set<NodeId>) {
    forall u, c | u in done && u in dist && net.Lists(u, c) :: EdgeRelaxed(net, amountMsat, dist, u, c)
  }

  /** The Dijkstra argument: a walk's cost is bounded below by its settled end's
      label, by any lower bound of the heap, or it saturates. */
  lemma {:induction false} WalksAreBounded(net: Net, amountMsat: u64, source: NodeId, dist: map<NodeId, u64>,
                          heap: seq<Distanced>, settledAt: map<NodeId, nat>, bound: u64, w: seq<ChannelId>)
    requires source in dist && dist[source] == 0
    requires settledAt.Keys <= dist.Keys
    requires Queued(dist, heap, settledAt)
    requires Relaxed(net, amountMsat, dist, settledAt.Keys)
    requires forall e | e in heap :: bound <= e.cost
    requires net.IsWalk(source, w)
    ensures var end := net.EndOf(source, w);
            bound <= net.WalkCost(w, amountMsat) ||
            (end in settledAt && dist[end] <= net.WalkCost(w, amountMsat))
  {
    var end := net.EndOf(source, w);
    if w == [] {
      if source !in settledAt {
        assert Waiting(heap, source, 0);
      }
    } else {
      var init, c := w[..|w| - 1], w[|w| - 1];
      WalksAreBounded(net, amountMsat, source, dist, heap, settledAt, bound, init);
      var mid := net.EndOf(source, init);
      if bound > net.WalkCost(init, amountMsat) {
        assert EdgeRelaxed(net, amountMsat, dist, mid, c);
        if end in dist && end !in settledAt {
          assert Waiting(heap, end, dist[end]);
        }
      }
    }
  }

  // ---- The predecessor walk-back ----

  ghost predicate Ranked(net: Net, prev: map<NodeId, ChannelId>, rank: map<NodeId, nat>, v: NodeId)
    requires v in prev
  {
    && prev[v] in net.channels
    && var u := OtherEnd(net.channels[prev[v]], v);
    && u in rank && v in rank && rank[u] < rank[v]
    && OtherEnd(net.channels[prev[v]], u) == v
  }

  ghost predicate Forest(net: Net, prev: map<NodeId, ChannelId>, rank: map<NodeId, nat>) {
    forall v {:trigger Ranked(net, prev, rank, v)} | v in prev :: Ranked(net, prev, rank, v)
  }

  ghost function Height(prev: map<NodeId, ChannelId>, rank: map<NodeId, nat>, v: NodeId): nat {
    if v in prev && v in rank then rank[v] + 1 else 0
  }

  ghost function TreePath(net: Net, prev: map<NodeId, ChannelId>, rank: map<NodeId, nat>, v: NodeId): seq<ChannelId>
    requires Forest(net, prev, rank)
    decreases Height(prev, rank, v)
  {
    if v !in prev then []
    else
      assert Ranked(net, prev, rank, v);
      TreePath(net, prev, rank, OtherEnd(net.channels[prev[v]], v)) + [prev[v]]
  }

  // Following predecessors back from a labelled node undoes its relaxations.
  lemma {:induction false} TreePathUndoesRelaxations(
      net: Net, amountMsat: u64, source: NodeId, dist: map<NodeId, u64>, prev: map<NodeId, ChannelId>,
      settledAt: map<NodeId, nat>, clock: nat, rank: map<NodeId, nat>, v: NodeId)
    requires Labelled(net, amountMsat, source, dist, prev, settledAt, clock)
    requires Forest(net, prev, rank) && v in dist
    ensures var w := TreePath(net, prev, rank, v);
            net.Leads(source, w, v) && net.WalkCost(w, amountMsat) == dist[v]
    decreases Height(prev, rank, v)
  {
    if v in prev {
      assert LabelledFrom(net, amountMsat, dist, prev, settledAt, v) && Ranked(net, prev, rank, v);
      var u := OtherEnd(net.channels[prev[v]], v);
      TreePathUndoesRelaxations(net, amountMsat, source, dist, prev, settledAt, clock, rank, u);
      var w := TreePath(net, prev, rank, v);
      assert w[..|w| - 1] == TreePath(net, prev, rank, u);
    }
  }

  // Ranks strictly increase along it, so it visits no node twice.
  lemma {:induction false} TreePathIsSimple(
      net: Net, source: NodeId, prev: map<NodeId, ChannelId>, rank: map<NodeId, nat>, v: NodeId)
    requires Forest(net, prev, rank) && v in rank
    requires forall x | x in rank && x !in prev :: x == source
    ensures var w := TreePath(net, prev, rank, v);
            && net.EndOf(source, w) == v
            && net.Visited(source, w) <= rank.Keys
            && (forall x | x in net.Visited(source, w) :: rank[x] <= rank[v])
            && net.Simple(source, w)
    decreases Height(prev, rank, v)
  {
    if v in prev {
      assert Ranked(net, prev, rank, v);
      var u := OtherEnd(net.channels[prev[v]], v);
      TreePathIsSimple(net, source, prev, rank, u);
      var w := TreePath(net, prev, rank, v);
      assert w[..|w| - 1] == TreePath(net, prev, rank, u);
    }
  }

  function Reversed(hops: seq<PathHop>): seq<PathHop> {
    if hops == [] then [] else [hops[|hops| - 1]] + Reversed(hops[..|hops| - 1])
  }

  lemma {:induction false} HopIdsOfCons(hop: PathHop, hops: seq<PathHop>)
    ensures HopIds([hop] + hops) == [hop.channelId] + HopIds(hops)
  {
    if hops != [] {
      var all := [hop] + hops;
      assert all[..|all| - 1] == [hop] + hops[..|hops| - 1];
      HopIdsOfCons(hop, hops[..|hops| - 1]);
    } else {
      assert [hop][..0] == [];
    }
  }

  lemma {:induction false} ReversedHasTheSame(hops: seq<PathHop>)
    ensures forall h :: h in Reversed(hops) <==> h in hops
  {
    if hops != [] {
      ReversedHasTheSame(hops[..|hops| - 1]);
      assert hops == hops[..|hops| - 1] + [hops[|hops| - 1]];
    }
  }

  // One turn of the loop below, on the route it has collected so far.
  lemma PushHop(net: Net, prev: map<NodeId, ChannelId>, rank: map<NodeId, nat>, cur: NodeId,
                hops: seq<PathHop>, hop: PathHop)
    requires Forest(net, prev, rank) && cur in prev && hop.channelId == prev[cur]
    ensures Ranked(net, prev, rank, cur)
    ensures TreePath(net, prev, rank, cur) + HopIds(Reversed(hops)) ==
            TreePath(net, prev, rank, OtherEnd(net.channels[prev[cur]], cur)) + HopIds(Reversed(hops + [hop]))
    ensures net.WalkCost(HopIds(Reversed(hops + [hop])), 0) ==
            SaturatingAdd(net.WalkCost(HopIds(Reversed(hops)), 0), net.EdgeCost(hop.channelId, 0))
  {
    assert Ranked(net, prev, rank, cur);
    assert (hops + [hop])[..|hops|] == hops;
    HopIdsOfCons(hop, Reversed(hops));
    WalkCostOfCons(net, hop.channelId, HopIds(Reversed(hops)), 0);
  }

  method ReconstructPath(target: NodeId, prev: map<NodeId, ChannelId>, net: Net, ghost rank: map<NodeId, nat>)
      returns (r: Path)
    requires Forest(net, prev, rank)
    ensures HopIds(r.hops) == TreePath(net, prev, rank, target)
    ensures forall hop | hop in r.hops :: hop.costMsat == net.EdgeCost(hop.channelId, 0)
    ensures r.totalCostMsat == net.WalkCost(HopIds(r.hops), 0)
  {
    var hops: seq<PathHop> := [];
    var cur := target;
    var total: u64 := 0;
    while cur in prev
      invariant TreePath(net, prev, rank, target) == TreePath(net, prev, rank, cur) + HopIds(Reversed(hops))
      invariant forall hop | hop in hops :: hop.costMsat == net.EdgeCost(hop.channelId, 0)
      invariant total == net.WalkCost(HopIds(Reversed(hops)), 0)
      decreases Height(prev, rank, cur)
    {
      var cid := prev[cur];
      assert Ranked(net, prev, rank, cur);
      var channel := net.channels[cid];
      var hopCost := ChannelCost(channel, 0);
      PushHop(net, prev, rank, cur, hops, PathHop(cid, hopCost));
      total := SaturatingAdd(total, hopCost);
      hops := hops + [PathHop(cid, hopCost)];
      // The channel was walked from its other end.
      cur := OtherEnd(channel, cur);
    }
    ReversedHasTheSame(hops);
    r := Path(Reversed(hops), total);
  }

  lemma {:induction false} WalkCostOfCons(net: Net, c: ChannelId, w: seq<ChannelId>, amountMsat: u64)
    ensures net.WalkCost([c] + w, amountMsat) ==
            SaturatingAdd(net.WalkCost(w, amountMsat), net.EdgeCost(c, amountMsat))
  {
    var cw := [c] + w;
    if w == [] {
      assert cw[..0] == [];
    } else {
      assert cw[..|cw| - 1] == [c] + w[..|w| - 1];
      WalkCostOfCons(net, c, w[..|w| - 1], amountMsat);
    }
  }

  // ---- The search ----

  ghost function Nodes(net: Net, source: NodeId): set<NodeId> {
    {source} + (set c | c in net.channels :: net.channels[c].node) + (set c | c in net.channels :: net.channels[c].peer)
  }

  // What the search carries from one popped entry to the next.
  datatype Frontier = Frontier(dist: map<NodeId, u64>, prev: map<NodeId, ChannelId>, heap: seq<Distanced>)

  ghost function RelaxStep(net: Net, amountMsat: u64, f: Frontier, node: NodeId, cost: u64, c: ChannelId): Frontier {
    if c !in net.channels then f
    else
      var neighbor := OtherEnd(net.channels[c], node);
      var next := SaturatingAdd(cost, ChannelCost(net.channels[c], amountMsat));
      if next < Label(f.dist, neighbor)
      then Frontier(f.dist[neighbor := next], f.prev[neighbor := c], f.heap + [Distanced(neighbor, next, Some(c))])
      else f
  }

  ghost function RelaxList(net: Net, amountMsat: u64, f: Frontier, node: NodeId, cost: u64, ids: seq<ChannelId>)
    : Frontier
  {
    if ids == [] then f
    else RelaxStep(net, amountMsat, RelaxList(net, amountMsat, f, node, cost, ids[..|ids| - 1]), node, cost,
                   ids[|ids| - 1])
  }

  // One turn of the search, at the heap entry that is popped.
  ghost function Turn(net: Net, amountMsat: u64, f: Frontier, at: nat): Frontier
    requires at < |f.heap|
  {
    var Distanced(node, cost, _) := f.heap[at];
    var rest := f.(heap := Without(f.heap, at));
    if cost > Label(f.dist, node) || node !in net.peerEdge then rest
    else RelaxList(net, amountMsat, rest, node, cost, net.peerEdge[node])
  }

  method FindPath(source: NodeId, target: NodeId, amountMsat: u64, net: Net) returns (r: Option<Path>)
    requires net.Touching()
    ensures Answers(net, source, target, amountMsat, r)
  {
    if source == target {
      assert HopIds([]) == [];
      return Some(Path([], 0));
    }
    var dist: map<NodeId, u64> := map[source := 0];
    var prev: map<NodeId, ChannelId> := map[];
    var heap := [Distanced(source, 0, None)];
    ghost var settledAt: map<NodeId, nat>, clock := map[], 0;
    StartSearch(net, amountMsat, source);
    while heap != []
      invariant Searching(net, amountMsat, source, dist, prev, heap, settledAt, clock, settledAt.Keys)
      invariant target !in settledAt
      decreases Nodes(net, source) - settledAt.Keys, |heap|
    {
      var at := Top(heap);
      if heap[at].node == target {
        RouteFound(net, amountMsat, source, target, dist, prev, heap, settledAt, clock, at);
        var path := ReconstructPath(target, prev, net, Ranks(dist, settledAt, clock));
        return Some(path);
      }
      dist, prev, heap, settledAt, clock := Expand(net, amountMsat, source, dist, prev, heap, at, settledAt, clock);
    }
    NothingLeft(net, amountMsat, source, target, dist, prev, settledAt, clock);
    r := None;
  }

  lemma StartSearch(net: Net, amountMsat: u64, source: NodeId)
    ensures Searching(net, amountMsat, source, map[source := 0], map[], [Distanced(source, 0, None)], map[], 0, {})
  {
    assert Distanced(source, 0, None) in [Distanced(source, 0, None)];
  }

  lemma NothingLeft(net: Net, amountMsat: u64, source: NodeId, target: NodeId, dist: map<NodeId, u64>,
                    prev: map<NodeId, ChannelId>, settledAt: map<NodeId, nat>, clock: nat)
    requires Searching(net, amountMsat, source, dist, prev, [], settledAt, clock, settledAt.Keys)
    requires source != target && target !in settledAt
    ensures Answers(net, source, target, amountMsat, None)
  {
    forall w | net.Leads(source, w, target)
      ensures net.WalkCost(w, amountMsat) == MAX_U64
    {
      WalksAreBounded(net, amountMsat, source, dist, [], settledAt, MAX_U64, w);
    }
  }

  ghost function Ranks(dist: map<NodeId, u64>, settledAt: map<NodeId, nat>, clock: nat): map<NodeId, nat> {
    map v | v in dist :: if v in settledAt then settledAt[v] else clock
  }

  // Everything the search maintains while the nodes of `done` have had all their channels explored.
  ghost predicate Searching(net: Net, amountMsat: u64, source: NodeId, dist: map<NodeId, u64>,
                            prev: map<NodeId, ChannelId>, heap: seq<Distanced>,
                            settledAt: map<NodeId, nat>, clock: nat, done: set<NodeId>)
  {
    && Labelled(net, amountMsat, source, dist, prev, settledAt, clock)
    && Queued(dist, heap, settledAt)
    && Relaxed(net, amountMsat, dist, done)
    && dist.Keys <= Nodes(net, source)
  }

  // Exploring the channel `eid` of the settled node `node`, after the channels `seen`.
  method RelaxChannel(net: Net, amountMsat: u64, ghost source: NodeId, node: NodeId, cost: u64, eid: ChannelId,
                      dist0: map<NodeId, u64>, prev0: map<NodeId, ChannelId>, heap0: seq<Distanced>,
                      ghost settledAt: map<NodeId, nat>, ghost clock: nat, ghost done: set<NodeId>,
                      ghost seen: seq<ChannelId>)
      returns (dist: map<NodeId, u64>, prev: map<NodeId, ChannelId>, heap: seq<Distanced>)
    requires net.Touching() && net.Lists(node, eid)
    requires Searching(net, amountMsat, source, dist0, prev0, heap0, settledAt, clock, done)
    requires settledAt.Keys == done + {node} && dist0[node] == cost
    requires forall u | u in settledAt :: dist0[u] <= cost
    requires ListRelaxed(net, amountMsat, dist0, node, seen)
    ensures Searching(net, amountMsat, source, dist, prev, heap, settledAt, clock, done)
    ensures forall u | u in settledAt :: dist[u] == dist0[u]
    ensures ListRelaxed(net, amountMsat, dist, node, seen + [eid])
    ensures Frontier(dist, prev, heap) == RelaxStep(net, amountMsat, Frontier(dist0, prev0, heap0), node, cost, eid)
  {
    dist, prev, heap := dist0, prev0, heap0;
    var channel := net.channels[eid];
    var neighbor := OtherEnd(channel, node);
    var next := SaturatingAdd(cost, ChannelCost(channel, amountMsat));
    var best := if neighbor in dist then dist[neighbor] else MAX_U64;
    if next < best {
      RelaxKeepsLabels(net, amountMsat, source, dist, prev, settledAt, clock, node, eid);
      RelaxKeepsQueue(dist, heap, settledAt, node, Distanced(neighbor, next, Some(eid)));
      RelaxKeepsRelaxed(net, amountMsat, dist, done, node, seen, neighbor, next);
      dist := dist[neighbor := next];
      prev := prev[neighbor := eid];
      heap := heap + [Distanced(neighbor, next, Some(eid))];
    }
  }

  lemma TurnAt(net: Net, amountMsat: u64, f: Frontier, at: nat)
    requires at < |f.heap| && f.heap[at].node in f.dist
    ensures var top, rest := f.heap[at], f.(heap := Without(f.heap, at));
            Turn(net, amountMsat, f, at) ==
            if top.cost > f.dist[top.node] || top.node !in net.peerEdge then rest
            else RelaxList(net, amountMsat, rest, top.node, top.cost, net.peerEdge[top.node])
  {}

  // Removing the top entry: a stale one is skipped, a fresh one settles its node.
  method Expand(net: Net, amountMsat: u64, ghost source: NodeId, dist0: map<NodeId, u64>,
                prev0: map<NodeId, ChannelId>, heap0: seq<Distanced>, at: nat,
                ghost settledAt0: map<NodeId, nat>, ghost clock0: nat)
      returns (dist: map<NodeId, u64>, prev: map<NodeId, ChannelId>, heap: seq<Distanced>,
               ghost settledAt: map<NodeId, nat>, ghost clock: nat)
    requires net.Touching()
    requires Searching(net, amountMsat, source, dist0, prev0, heap0, settledAt0, clock0, settledAt0.Keys)
    requires at < |heap0| && forall k | 0 <= k < |heap0| :: !Above(heap0[k], heap0[at])
    ensures Searching(net, amountMsat, source, dist, prev, heap, settledAt, clock, settledAt.Keys)
    ensures (settledAt == settledAt0 && |heap| < |heap0|) ||
            (heap0[at].node !in settledAt0 && heap0[at].node in Nodes(net, source) &&
             settledAt.Keys == settledAt0.Keys + {heap0[at].node})
    ensures Frontier(dist, prev, heap) == Turn(net, amountMsat, Frontier(dist0, prev0, heap0), at)
  {
    dist, prev, heap, settledAt, clock := dist0, prev0, Without(heap0, at), settledAt0, clock0;
    var Distanced(node, cost, _) := heap0[at];
    assert heap0[at] in heap0;
    TurnAt(net, amountMsat, Frontier(dist0, prev0, heap0), at);
    if cost > dist[node] {
      PopStale(dist, heap0, heap0[at], heap, settledAt);
      return;
    }
    dist, prev, heap, settledAt, clock :=
      SettleTop(net, amountMsat, source, dist, prev, heap0, heap0[at], heap, settledAt, clock);
  }

  // A fresh entry settles its node and explores its channels.
  method SettleTop(net: Net, amountMsat: u64, ghost source: NodeId, dist0: map<NodeId, u64>,
                   prev0: map<NodeId, ChannelId>, ghost heap0: seq<Distanced>, top: Distanced, rest: seq<Distanced>,
                   ghost settledAt0: map<NodeId, nat>, ghost clock0: nat)
      returns (dist: map<NodeId, u64>, prev: map<NodeId, ChannelId>, heap: seq<Distanced>,
               ghost settledAt: map<NodeId, nat>, ghost clock: nat)
    requires net.Touching()
    requires Searching(net, amountMsat, source, dist0, prev0, heap0, settledAt0, clock0, settledAt0.Keys)
    requires Remains(heap0, top, rest)
    requires top.node in dist0 && top.cost == dist0[top.node]
    requires forall e | e in heap0 :: top.cost <= e.cost
    ensures Searching(net, amountMsat, source, dist, prev, heap, settledAt, clock, settledAt.Keys)
    ensures top.node !in settledAt0 && top.node in Nodes(net, source)
    ensures settledAt.Keys == settledAt0.Keys + {top.node}
    ensures Frontier(dist, prev, heap) ==
            if top.node !in net.peerEdge then Frontier(dist0, prev0, rest)
            else RelaxList(net, amountMsat, Frontier(dist0, prev0, rest), top.node, top.cost, net.peerEdge[top.node])
  {
    PopFresh(net, amountMsat, source, dist0, prev0, heap0, top, rest, settledAt0, clock0);
    settledAt, clock := settledAt0[top.node := clock0], clock0 + 1;
    dist, prev, heap := RelaxNeighbours(net, amountMsat, source, top.node, top.cost, dist0, prev0, rest, settledAt,
                                        clock, settledAt0.Keys);
  }

  // One turn of the loop below: an id without a channel is skipped.
  method RelaxListed(net: Net, amountMsat: u64, ghost source: NodeId, node: NodeId, cost: u64, eid: ChannelId,
                     dist0: map<NodeId, u64>, prev0: map<NodeId, ChannelId>, heap0: seq<Distanced>,
                     ghost settledAt: map<NodeId, nat>, ghost clock: nat, ghost done: set<NodeId>,
                     ghost seen: seq<ChannelId>)
      returns (dist: map<NodeId, u64>, prev: map<NodeId, ChannelId>, heap: seq<Distanced>)
    requires net.Touching() && (eid in net.channels ==> net.Lists(node, eid))
    requires Searching(net, amountMsat, source, dist0, prev0, heap0, settledAt, clock, done)
    requires settledAt.Keys == done + {node} && dist0[node] == cost
    requires forall u | u in settledAt :: dist0[u] <= cost
    requires ListRelaxed(net, amountMsat, dist0, node, seen)
    ensures Searching(net, amountMsat, source, dist, prev, heap, settledAt, clock, done)
    ensures forall u | u in settledAt :: dist[u] == dist0[u]
    ensures ListRelaxed(net, amountMsat, dist, node, seen + [eid])
    ensures Frontier(dist, prev, heap) == RelaxStep(net, amountMsat, Frontier(dist0, prev0, heap0), node, cost, eid)
  {
    dist, prev, heap := dist0, prev0, heap0;
    if eid in net.channels {
      dist, prev, heap := RelaxChannel(net, amountMsat, source, node, cost, eid, dist0, prev0, heap0, settledAt, clock,
                                       done, seen);
    }
  }

  lemma RelaxListPush(net: Net, amountMsat: u64, f: Frontier, node: NodeId, cost: u64, ids: seq<ChannelId>,
                      c: ChannelId)
    ensures RelaxList(net, amountMsat, f, node, cost, ids + [c]) ==
            RelaxStep(net, amountMsat, RelaxList(net, amountMsat, f, node, cost, ids), node, cost, c)
  {
    assert (ids + [c])[..|ids|] == ids;
  }

  // One settled node's loop over its listed channels.
  method RelaxNeighbours(net: Net, amountMsat: u64, ghost source: NodeId, node: NodeId, cost: u64,
                         dist0: map<NodeId, u64>, prev0: map<NodeId, ChannelId>, heap0: seq<Distanced>,
                         ghost settledAt: map<NodeId, nat>, ghost clock: nat, ghost done: set<NodeId>)
      returns (dist: map<NodeId, u64>, prev: map<NodeId, ChannelId>, heap: seq<Distanced>)
    requires net.Touching()
    requires Searching(net, amountMsat, source, dist0, prev0, heap0, settledAt, clock, done)
    requires settledAt.Keys == done + {node} && dist0[node] == cost
    requires forall u | u in settledAt :: dist0[u] <= cost
    ensures Searching(net, amountMsat, source, dist, prev, heap, settledAt, clock, settledAt.Keys)
    ensures Frontier(dist, prev, heap) ==
            if node !in net.peerEdge then Frontier(dist0, prev0, heap0)
            else RelaxList(net, amountMsat, Frontier(dist0, prev0, heap0), node, cost, net.peerEdge[node])
  {
    dist, prev, heap := dist0, prev0, heap0;
    if node !in net.peerEdge {
      return;
    }
    var edgeIds := net.peerEdge[node];
    for i := 0 to |edgeIds|
      invariant Searching(net, amountMsat, source, dist, prev, heap, settledAt, clock, done)
      invariant forall u | u in settledAt :: dist[u] == dist0[u]
      invariant ListRelaxed(net, amountMsat, dist, node, edgeIds[..i])
      invariant Frontier(dist, prev, heap) ==
                RelaxList(net, amountMsat, Frontier(dist0, prev0, heap0), node, cost, edgeIds[..i])
    {
      assert edgeIds[..i + 1] == edgeIds[..i] + [edgeIds[i]];
      RelaxListPush(net, amountMsat, Frontier(dist0, prev0, heap0), node, cost, edgeIds[..i], edgeIds[i]);
      dist, prev, heap := RelaxListed(net, amountMsat, source, node, cost, edgeIds[i], dist, prev, heap, settledAt,
                                      clock, done, edgeIds[..i]);
    }
    assert edgeIds[..|edgeIds|] == edgeIds;
    NodeIsDone(net, amountMsat, dist, node, done);
  }

  lemma NodeIsDone(net: Net, amountMsat: u64, dist: map<NodeId, u64>, node: NodeId, done: set<NodeId>)
    requires node in dist && node in net.peerEdge && ListRelaxed(net, amountMsat, dist, node, net.peerEdge[node])
    requires Relaxed(net, amountMsat, dist, done)
    ensures Relaxed(net, amountMsat, dist, done + {node})
  {}

  // The first entry of the target to surface carries its final label: no walk
  // beats it, and the predecessors lead back from it along a simple walk.
  lemma RouteFound(net: Net, amountMsat: u64, source: NodeId, target: NodeId, dist: map<NodeId, u64>,
                   prev: map<NodeId, ChannelId>, heap: seq<Distanced>, settledAt: map<NodeId, nat>, clock: nat, at: nat)
    requires Searching(net, amountMsat, source, dist, prev, heap, settledAt, clock, settledAt.Keys)
    requires at < |heap| && heap[at].node == target && target !in settledAt
    requires forall k | 0 <= k < |heap| :: !Above(heap[k], heap[at])
    ensures Forest(net, prev, Ranks(dist, settledAt, clock))
    ensures var w := TreePath(net, prev, Ranks(dist, settledAt, clock), target);
            && net.Leads(source, w, target) && net.Simple(source, w) && net.WalkCost(w, amountMsat) < MAX_U64
            && forall w' | net.Leads(source, w', target) :: net.WalkCost(w, amountMsat) <= net.WalkCost(w', amountMsat)
  {
    assert heap[at] in heap;
    var rank := Ranks(dist, settledAt, clock);
    forall v | v in prev
      ensures Ranked(net, prev, rank, v)
    {
      assert LabelledFrom(net, amountMsat, dist, prev, settledAt, v);
    }
    TreePathUndoesRelaxations(net, amountMsat, source, dist, prev, settledAt, clock, rank, target);
    TreePathIsSimple(net, source, prev, rank, target);
    forall w | net.Leads(source, w, target)
      ensures dist[target] <= net.WalkCost(w, amountMsat)
    {
      WalksAreBounded(net, amountMsat, source, dist, heap, settledAt, dist[target], w);
    }
  }

  lemma PopStale(dist: map<NodeId, u64>, heap: seq<Distanced>, top: Distanced, rest: seq<Distanced>,
                 settledAt: map<NodeId, nat>)
    requires Queued(dist, heap, settledAt) && Remains(heap, top, rest)
    requires top.node in dist && top.cost > dist[top.node]
    ensures Queued(dist, rest, settledAt)
  {
    forall v | v in dist && v !in settledAt
      ensures Waiting(rest, v, dist[v])
    {
      assert Waiting(heap, v, dist[v]);
    }
  }

  // Settling the popped node keeps the invariant: its other entries are all staler.
  lemma PopFresh(net: Net, amountMsat: u64, source: NodeId, dist: map<NodeId, u64>, prev: map<NodeId, ChannelId>,
                 heap: seq<Distanced>, top: Distanced, rest: seq<Distanced>, settledAt: map<NodeId, nat>, clock: nat)
    requires Searching(net, amountMsat, source, dist, prev, heap, settledAt, clock, settledAt.Keys)
    requires Remains(heap, top, rest)
    requires top.node in dist && top.cost == dist[top.node]
    requires forall e | e in heap :: top.cost <= e.cost
    ensures top.node !in settledAt
    ensures Searching(net, amountMsat, source, dist, prev, rest, settledAt[top.node := clock], clock + 1,
                      settledAt.Keys)
    ensures forall u | u in settledAt :: u in dist && dist[u] <= top.cost
  {
    forall v | v in dist && v !in settledAt && v != top.node
      ensures Waiting(rest, v, dist[v])
    {
      assert Waiting(heap, v, dist[v]);
    }
    SettleKeepsLabels(net, amountMsat, source, dist, prev, settledAt, clock, top.node);
  }

  lemma SettleKeepsLabels(net: Net, amountMsat: u64, source: NodeId, dist: map<NodeId, u64>,
                          prev: map<NodeId, ChannelId>, settledAt: map<NodeId, nat>, clock: nat, node: NodeId)
    requires Labelled(net, amountMsat, source, dist, prev, settledAt, clock)
    requires node in dist && node !in settledAt
    ensures Labelled(net, amountMsat, source, dist, prev, settledAt[node := clock], clock + 1)
  {
    var settled := settledAt[node := clock];
    forall v | v in prev
      ensures LabelledFrom(net, amountMsat, dist, prev, settled, v)
    {
      assert LabelledFrom(net, amountMsat, dist, prev, settledAt, v);
    }
  }

  lemma RelaxKeepsLabels(net: Net, amountMsat: u64, source: NodeId, dist: map<NodeId, u64>,
                         prev: map<NodeId, ChannelId>, settledAt: map<NodeId, nat>, clock: nat, node: NodeId,
                         eid: ChannelId)
    requires net.Touching()
    requires Labelled(net, amountMsat, source, dist, prev, settledAt, clock)
    requires node in settledAt && net.Lists(node, eid)
    requires forall u | u in settledAt :: dist[u] <= dist[node]
    requires SaturatingAdd(dist[node], net.EdgeCost(eid, amountMsat)) < Label(dist, OtherEnd(net.channels[eid], node))
    ensures var v := OtherEnd(net.channels[eid], node);
            var next := SaturatingAdd(dist[node], net.EdgeCost(eid, amountMsat));
            v !in settledAt && Labelled(net, amountMsat, source, dist[v := next], prev[v := eid], settledAt, clock)
  {
    var v := OtherEnd(net.channels[eid], node);
    var dist' := dist[v := SaturatingAdd(dist[node], net.EdgeCost(eid, amountMsat))];
    var prev' := prev[v := eid];
    forall x | x in prev'
      ensures LabelledFrom(net, amountMsat, dist', prev', settledAt, x)
    {
      if x != v {
        assert LabelledFrom(net, amountMsat, dist, prev, settledAt, x);
      }
    }
  }

  lemma RelaxKeepsQueue(dist: map<NodeId, u64>, heap: seq<Distanced>, settledAt: map<NodeId, nat>,
                        node: NodeId, e: Distanced)
    requires Queued(dist, heap, settledAt)
    requires node in settledAt && node in dist && e.node !in settledAt && dist[node] <= e.cost
    requires forall u | u in settledAt :: u in dist && dist[u] <= dist[node]
    requires e.cost < Label(dist, e.node)
    ensures Queued(dist[e.node := e.cost], heap + [e], settledAt)
  {
    var heap' := heap + [e];
    assert forall x :: x in heap' <==> x in heap || x == e;
    forall x | x in dist[e.node := e.cost] && x !in settledAt && x != e.node
      ensures Waiting(heap', x, dist[x])
    {
      assert Waiting(heap, x, dist[x]);
    }
    assert EntriesDistinct(heap') by {
      forall i | 0 <= i < |heap|
        ensures heap[i].node == e.node ==> heap[i].cost != e.cost
      {
        assert heap[i] in heap;
      }
    }
  }

  lemma RelaxKeepsRelaxed(net: Net, amountMsat: u64, dist: map<NodeId, u64>, done: set<NodeId>,
                          node: NodeId, ids: seq<ChannelId>, v: NodeId, next: u64)
    requires Relaxed(net, amountMsat, dist, done)
    requires node in dist && ListRelaxed(net, amountMsat, dist, node, ids)
    requires v !in done && v != node && next < Label(dist, v)
    ensures Relaxed(net, amountMsat, dist[v := next], done)
    ensures ListRelaxed(net, amountMsat, dist[v := next], node, ids)
  {
    forall u, c | u in done && u in dist[v := next] && net.Lists(u, c)
      ensures EdgeRelaxed(net, amountMsat, dist[v := next], u, c)
    {
      assert EdgeRelaxed(net, amountMsat, dist, u, c);
    }
    forall c | c in ids && c in net.channels
      ensures EdgeRelaxed(net, amountMsat, dist[v := next], node, c)
    {
      assert EdgeRelaxed(net, amountMsat, dist, node, c);
    }
  }

  // ---- What the answer means ----

  /** The hop costs that are reported leave the proportional fee out, so the
      reported total is the minimised cost only on routes that charge none. */
  lemma {:induction false} ReportedTotalIsBaseFees(net: Net, w: seq<ChannelId>, amountMsat: u64)
    ensures net.WalkCost(w, 0) <= net.WalkCost(w, amountMsat)
    ensures net.WalkCost(w, amountMsat) < MAX_U64 ==>
              (net.WalkCost(w, 0) == net.WalkCost(w, amountMsat) <==>
               forall c | c in w && c in net.channels :: ProportionalFee(net.channels[c], amountMsat) == 0)
  {
    if w != [] {
      var init, c := w[..|w| - 1], w[|w| - 1];
      ReportedTotalIsBaseFees(net, init, amountMsat);
      assert w == init + [c];
      assert net.EdgeCost(c, 0) <= net.EdgeCost(c, amountMsat);
      if net.WalkCost(w, amountMsat) < MAX_U64 && c in net.channels {
        assert net.EdgeCost(c, amountMsat) - net.EdgeCost(c, 0) == ProportionalFee(net.channels[c], amountMsat);
      }
    }
  }

  /** Listing an id twice, or in another order, changes neither whether a route
      is found nor what it costs. */
  lemma AnswerIgnoresMultiplicity(net: Net, net': Net, source: NodeId, target: NodeId, amountMsat: u64,
                                  r: Option<Path>, r': Option<Path>)
    requires net.channels == net'.channels
    requires forall n, c :: net.Lists(n, c) <==> net'.Lists(n, c)
    requires Answers(net, source, target, amountMsat, r) && Answers(net', source, target, amountMsat, r')
    ensures r.Some? == r'.Some?
    ensures r.Some? ==>
              net.WalkCost(HopIds(r.value.hops), amountMsat) == net.WalkCost(HopIds(r'.value.hops), amountMsat)
  {
    forall w
      ensures net.IsWalk(source, w) == net'.IsWalk(source, w)
      ensures net.EndOf(source, w) == net'.EndOf(source, w)
      ensures net.WalkCost(w, amountMsat) == net'.WalkCost(w, amountMsat)
    {
      SameListingSameWalks(net, net', source, w, amountMsat);
    }
    if r.Some? {
      assert net'.Leads(source, HopIds(r.value.hops), target);
    }
    if r'.Some? {
      assert net.Leads(source, HopIds(r'.value.hops), target);
    }
  }

  lemma {:induction false} SameListingSameWalks(net: Net, net': Net, source: NodeId, w: seq<ChannelId>, amountMsat: u64)
    requires net.channels == net'.channels
    requires forall n, c :: net.Lists(n, c) <==> net'.Lists(n, c)
    ensures net.IsWalk(source, w) == net'.IsWalk(source, w)
    ensures net.EndOf(source, w) == net'.EndOf(source, w)
    ensures net.WalkCost(w, amountMsat) == net'.WalkCost(w, amountMsat)
  {
    if w != [] {
      SameListingSameWalks(net, net', source, w[..|w| - 1], amountMsat);
    }
  }
}
