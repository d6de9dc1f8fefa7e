/** The in-memory graph of crates/rieko-graph/src/store.rs: channels, and the
    adjacency index that upserts maintain and the route search relies on. */
module LiveGraph {
  import opened Wrappers
  import opened Numbers
  import opened Domain
  import opened CheapestRoute

  datatype NodeStatus = Online | Offline | UnknownStatus
  datatype Node = Node(id: NodeId, alias: Option<string>, version: Option<string>, status: NodeStatus, lastSeen: int)

  type Index = map<NodeId, seq<ChannelId>>

  // `Vec::retain(|cid| cid != id)`.
  function Dropping(ids: seq<ChannelId>, id: ChannelId): (r: seq<ChannelId>)
    ensures forall c :: c in r <==> c in ids && c != id
  {
    if ids == [] then []
    else (if ids[0] == id then [] else [ids[0]]) + Dropping(ids[1..], id)
  }

  function DropFrom(index: Index, n: NodeId, id: ChannelId): Index {
    if n in index then index[n := Dropping(index[n], id)] else index
  }

  function PushTo(index: Index, n: NodeId, id: ChannelId): Index {
    index[n := (if n in index then index[n] else []) + [id]]
  }

  predicate PeerReplaced(g: Net, c: Channel) {
    c.id in g.channels && g.channels[c.id].peer != c.peer
  }

  function Upserted(g: Net, c: Channel): Net {
    var kept := if PeerReplaced(g, c)
                then DropFrom(DropFrom(g.peerEdge, g.channels[c.id].peer, c.id), c.node, c.id)
                else g.peerEdge;
    Net(g.channels[c.id := c], PushTo(PushTo(kept, c.peer, c.id), c.node, c.id))
  }

  function UpsertedAll(g: Net, cs: seq<Channel>): Net {
    if cs == [] then g else Upserted(UpsertedAll(g, cs[..|cs| - 1]), cs[|cs| - 1])
  }

  // The channels of a listing in its order, as often as they are listed.
  function ListedChannels(channels: map<ChannelId, Channel>, ids: seq<ChannelId>): seq<Channel> {
    if ids == [] then []
    else
      ListedChannels(channels, ids[..|ids| - 1]) +
      (if ids[|ids| - 1] in channels then [channels[ids[|ids| - 1]]] else [])
  }

  class InMemoryGraph {
    var nodes: map<NodeId, Node>
    var channels: map<ChannelId, Channel>
    var peerChannels: Index

    function AsNet(): Net
      reads this
    {
      Net(channels, peerChannels)
    }

    constructor ()
      ensures AsNet() == Net(map[], map[]) && nodes == map[]
    {
      nodes, channels, peerChannels := map[], map[], map[];
    }

    method UpsertChannel(channel: Channel)
      modifies this
      ensures AsNet() == Upserted(old(AsNet()), channel)
      ensures channels == old(channels)[channel.id := channel]
      ensures nodes == (if channel.peer in old(nodes) then old(nodes)
                        else old(nodes)[channel.peer :=
                               Node(channel.peer, None, None, UnknownStatus, channel.lastSeen)])
    {
      if channel.id in channels {
        var replaced := channels[channel.id];
        if replaced.peer != channel.peer {
          if replaced.peer in peerChannels {
            peerChannels := peerChannels[replaced.peer := Dropping(peerChannels[replaced.peer], channel.id)];
          }
          if channel.node in peerChannels {
            peerChannels := peerChannels[channel.node := Dropping(peerChannels[channel.node], channel.id)];
          }
        }
      }
      if channel.peer !in nodes {
        nodes := nodes[channel.peer := Node(channel.peer, None, None, UnknownStatus, channel.lastSeen)];
      }
      // List the channel under both of its ends.
      peerChannels := PushTo(peerChannels, channel.peer, channel.id);
      peerChannels := PushTo(peerChannels, channel.node, channel.id);
      channels := channels[channel.id := channel];
    }

    method UpsertChannels(cs: seq<Channel>) returns (n: nat)
      modifies this
      ensures n == |cs| && AsNet() == UpsertedAll(old(AsNet()), cs)
    {
      n := |cs|;
      for i := 0 to |cs|
        invariant AsNet() == UpsertedAll(old(AsNet()), cs[..i])
      {
        assert cs[..i + 1][..i] == cs[..i];
        UpsertChannel(cs[i]);
      }
      assert cs[..|cs|] == cs;
    }

    method FindCheapestPath(source: NodeId, target: NodeId, amountMsat: u64) returns (r: Option<Path>)
      requires AsNet().Touching()
      ensures Answers(AsNet(), source, target, amountMsat, r)
    {
      r := FindPath(source, target, amountMsat, AsNet());
    }

    method ChannelsForPeer(peer: NodeId) returns (r: seq<Channel>)
      ensures r == ListedChannels(channels, if peer in peerChannels then peerChannels[peer] else [])
      ensures Exact(AsNet()) ==>
                forall c :: c in r <==> exists id :: id in channels && channels[id] == c && Touches(c, peer)
    {
      r := [];
      if peer !in peerChannels {
        return;
      }
      var ids := peerChannels[peer];
      for i := 0 to |ids|
        invariant r == ListedChannels(channels, ids[..i])
        invariant forall c :: c in r <==> exists j :: 0 <= j < i && ids[j] in channels && channels[ids[j]] == c
      {
        assert ids[..i + 1][..i] == ids[..i];
        if ids[i] in channels {
          r := r + [channels[ids[i]]];
        }
      }
      assert ids[..|ids|] == ids;
      if Exact(AsNet()) {
        forall c
          ensures c in r <==> exists id :: id in channels && channels[id] == c && Touches(c, peer)
        {
          if id :| id in channels && channels[id] == c && Touches(c, peer) {
            assert Indexed(AsNet(), peer, id);
          }
          if c in r {
            var j :| 0 <= j < |ids| && ids[j] in channels && channels[ids[j]] == c;
            assert Indexed(AsNet(), peer, ids[j]);
          }
        }
      }
    }
  }

  // ---- The index invariant ----

  predicate Touches(c: Channel, n: NodeId) {
    c.node == n || c.peer == n
  }

  predicate Indexed(g: Net, n: NodeId, id: ChannelId) {
    n in g.peerEdge && id in g.peerEdge[n]
  }

  /** The ids listed for a node are, as a set, the channels it is an end of. */
  ghost predicate Exact(g: Net) {
    forall n, id :: Indexed(g, n, id) <==> (id in g.channels && Touches(g.channels[id], n))
  }

  lemma UpsertIndexes(g: Net, c: Channel, n: NodeId, id: ChannelId)
    ensures Indexed(Upserted(g, c), n, id) <==>
            (id == c.id && Touches(c, n)) ||
            (Indexed(g, n, id) &&
             !(id == c.id && PeerReplaced(g, c) && (n == g.channels[c.id].peer || n == c.node)))
  {}

  /** An upsert keeps the index exact precisely when the channel's previous owner
      is still one of its ends, or was listed only as the replaced peer. */
  lemma UpsertKeepsIndexExactIff(g: Net, c: Channel)
    requires Exact(g)
    ensures Exact(Upserted(g, c)) <==>
            (c.id in g.channels ==> g.channels[c.id].node in {c.node, c.peer, g.channels[c.id].peer})
  {
    forall n, id
      ensures Indexed(Upserted(g, c), n, id) <==>
              (id == c.id && Touches(c, n)) ||
              (Indexed(g, n, id) &&
               !(id == c.id && PeerReplaced(g, c) && (n == g.channels[c.id].peer || n == c.node)))
    {
      UpsertIndexes(g, c, n, id);
    }
    if c.id in g.channels {
      var owner := g.channels[c.id].node;
      assert Indexed(g, owner, c.id);
      if owner !in {c.node, c.peer, g.channels[c.id].peer} {
        assert Indexed(Upserted(g, c), owner, c.id);
      }
    }
  }

  ghost predicate OwnersFixed(cs: seq<Channel>) {
    forall i, j | 0 <= i < |cs| && 0 <= j < |cs| :: cs[i].id == cs[j].id ==> cs[i].node == cs[j].node
  }

  /** An upsert stores its channel under its id, whatever was there, and leaves
      every other id as it was. */
  lemma UpsertReplacesOneRecord(g: Net, c: Channel, id: ChannelId)
    ensures id == c.id ==> id in Upserted(g, c).channels && Upserted(g, c).channels[id] == c
    ensures id != c.id ==> (id in Upserted(g, c).channels <==> id in g.channels)
    ensures id != c.id && id in g.channels ==> Upserted(g, c).channels[id] == g.channels[id]
  {}

  lemma {:induction false} DroppingCounts(ids: seq<ChannelId>, id: ChannelId, c: ChannelId)
    ensures multiset(Dropping(ids, id))[c] == if c == id then 0 else multiset(ids)[c]
  {
    if ids != [] {
      DroppingCounts(ids[1..], id, c);
      assert ids == [ids[0]] + ids[1..];
    }
  }

  // How often a node lists a channel.
  ghost function Listings(index: Index, n: NodeId, c: ChannelId): nat {
    if n in index then multiset(index[n])[c] else 0
  }

  lemma DropFromCounts(index: Index, from: NodeId, id: ChannelId, n: NodeId, c: ChannelId)
    ensures Listings(DropFrom(index, from, id), n, c) == if n == from && c == id then 0 else Listings(index, n, c)
  {
    if n in index {
      DroppingCounts(index[n], id, c);
    }
  }

  lemma PushToCounts(index: Index, to: NodeId, id: ChannelId, n: NodeId, c: ChannelId)
    ensures Listings(PushTo(index, to, id), n, c) == Listings(index, n, c) + if n == to && c == id then 1 else 0
  {}

  /** After an upsert each end of the channel lists it once more, from nothing at a
      replaced peer and at the owner then; every other listing is as before. */
  lemma UpsertCountsListings(g: Net, c: Channel, n: NodeId, id: ChannelId)
    ensures Listings(Upserted(g, c).peerEdge, n, id) ==
            if id != c.id then Listings(g.peerEdge, n, id)
            else
              (if id in g.channels && g.channels[id].peer != c.peer && (n == g.channels[id].peer || n == c.node) then 0
               else Listings(g.peerEdge, n, id)) +
              (if n == c.peer then 1 else 0) + (if n == c.node then 1 else 0)
  {
    var kept := g.peerEdge;
    if PeerReplaced(g, c) {
      DropFromCounts(g.peerEdge, g.channels[c.id].peer, c.id, n, id);
      DropFromCounts(DropFrom(g.peerEdge, g.channels[c.id].peer, c.id), c.node, c.id, n, id);
      kept := DropFrom(DropFrom(g.peerEdge, g.channels[c.id].peer, c.id), c.node, c.id);
    }
    PushToCounts(kept, c.peer, c.id, n, id);
    PushToCounts(PushTo(kept, c.peer, c.id), c.node, c.id, n, id);
  }

  ghost predicate LastWithId(cs: seq<Channel>, id: ChannelId, i: nat) {
    i < |cs| && cs[i].id == id && forall j | i < j < |cs| :: cs[j].id != id
  }

  /** After any upserts, an id holds the last channel upserted under it; an id that
      none was upserted under is as before. */
  lemma {:induction false} StoredChannelIsTheLastUpserted(g: Net, cs: seq<Channel>, id: ChannelId)
    ensures forall i: nat | LastWithId(cs, id, i) ::
              id in UpsertedAll(g, cs).channels && UpsertedAll(g, cs).channels[id] == cs[i]
    ensures (forall c | c in cs :: c.id != id) ==>
              (id in UpsertedAll(g, cs).channels <==> id in g.channels) &&
              (id in g.channels ==> UpsertedAll(g, cs).channels[id] == g.channels[id])
  {
    if cs != [] {
      var init, c := cs[..|cs| - 1], cs[|cs| - 1];
      StoredChannelIsTheLastUpserted(g, init, id);
      UpsertReplacesOneRecord(UpsertedAll(g, init), c, id);
      forall i: nat | LastWithId(cs, id, i)
        ensures if c.id == id then i == |init| else LastWithId(init, id, i)
      {
        LastWithIdInit(cs, id, i);
      }
      assert c in cs && forall x | x in init :: x in cs;
    }
  }

  lemma LastWithIdInit(cs: seq<Channel>, id: ChannelId, i: nat)
    requires LastWithId(cs, id, i)
    ensures if cs[|cs| - 1].id == id then i == |cs| - 1 else LastWithId(cs[..|cs| - 1], id, i)
  {}

  lemma {:induction false} HasALast(cs: seq<Channel>, id: ChannelId) returns (i: nat)
    requires exists c :: c in cs && c.id == id
    ensures LastWithId(cs, id, i)
  {
    var n := |cs| - 1;
    if cs[n].id == id {
      i := n;
    } else {
      assert cs == cs[..n] + [cs[n]];
      i := HasALast(cs[..n], id);
    }
  }

  // Each stored channel is one of the upserted ones.
  lemma StoredChannelsWereUpserted(cs: seq<Channel>, id: ChannelId)
    requires id in UpsertedAll(Net(map[], map[]), cs).channels
    ensures UpsertedAll(Net(map[], map[]), cs).channels[id] in cs
    ensures UpsertedAll(Net(map[], map[]), cs).channels[id].id == id
  {
    StoredChannelIsTheLastUpserted(Net(map[], map[]), cs, id);
    if exists c :: c in cs && c.id == id {
      var _ := HasALast(cs, id);
    }
  }

  lemma {:induction false} IndexIsExactOverRuns(cs: seq<Channel>)
    requires OwnersFixed(cs)
    ensures Exact(UpsertedAll(Net(map[], map[]), cs))
    ensures UpsertedAll(Net(map[], map[]), cs).Touching()
  {
    if cs != [] {
      var init, c := cs[..|cs| - 1], cs[|cs| - 1];
      IndexIsExactOverRuns(init);
      var g := UpsertedAll(Net(map[], map[]), init);
      if c.id in g.channels {
        StoredChannelsWereUpserted(init, c.id);
      }
      UpsertKeepsIndexExactIff(g, c);
    }
    ExactIsTouching(UpsertedAll(Net(map[], map[]), cs));
  }

  lemma ExactIsTouching(g: Net)
    requires Exact(g)
    ensures g.Touching()
  {
    forall n, c | g.Lists(n, c)
      ensures n == g.channels[c].node || n == g.channels[c].peer
    {
      assert Indexed(g, n, c);
    }
  }

  // ---- The search over the live graph, without mention of the index ----

  // A route crosses channels one of whose ends it has reached.
  predicate IsRoute(channels: map<ChannelId, Channel>, start: NodeId, w: seq<ChannelId>) {
    w == [] ||
    (var init, c := w[..|w| - 1], w[|w| - 1];
     && IsRoute(channels, start, init)
     && c in channels
     && Touches(channels[c], RouteEnd(channels, start, init)))
  }

  function RouteEnd(channels: map<ChannelId, Channel>, start: NodeId, w: seq<ChannelId>): NodeId
    decreases w, 0
  {
    if w == [] then start
    else
      var n := RouteEnd(channels, start, w[..|w| - 1]);
      var c := w[|w| - 1];
      if c !in channels then n
      else if channels[c].node == n then channels[c].peer
      else channels[c].node
  }

  lemma {:induction false} WalksAreRoutes(g: Net, start: NodeId, w: seq<ChannelId>)
    requires Exact(g)
    ensures g.IsWalk(start, w) <==> IsRoute(g.channels, start, w)
    ensures g.EndOf(start, w) == RouteEnd(g.channels, start, w)
  {
    if w != [] {
      WalksAreRoutes(g, start, w[..|w| - 1]);
      assert g.Lists(g.EndOf(start, w[..|w| - 1]), w[|w| - 1]) ==>
             Indexed(g, g.EndOf(start, w[..|w| - 1]), w[|w| - 1]);
    }
  }

  ghost predicate RouteTo(channels: map<ChannelId, Channel>, start: NodeId, w: seq<ChannelId>, end: NodeId) {
    IsRoute(channels, start, w) && RouteEnd(channels, start, w) == end
  }

  // A route is returned exactly when one of unsaturated cost exists, and none is cheaper.
  ghost predicate BestOverChannels(g: Net, source: NodeId, target: NodeId, amountMsat: u64, r: Option<Path>) {
    && (r.Some? <==> exists w :: RouteTo(g.channels, source, w, target) && g.WalkCost(w, amountMsat) < MAX_U64)
    && (r.Some? ==>
          var ids := HopIds(r.value.hops);
          && RouteTo(g.channels, source, ids, target)
          && forall w | RouteTo(g.channels, source, w, target) ::
               g.WalkCost(ids, amountMsat) <= g.WalkCost(w, amountMsat))
  }

  lemma AnswersAreBestOverChannels(g: Net, source: NodeId, target: NodeId, amountMsat: u64, r: Option<Path>)
    requires Exact(g) && Answers(g, source, target, amountMsat, r)
    ensures BestOverChannels(g, source, target, amountMsat, r)
  {
    forall w
      ensures RouteTo(g.channels, source, w, target) <==> g.Leads(source, w, target)
    {
      WalksAreRoutes(g, source, w);
    }
    if r.Some? {
      assert RouteTo(g.channels, source, HopIds(r.value.hops), target);
    }
  }

  /** After any upserts that fix each channel's owner, the search is complete
      and optimal over the channels themselves, whatever the index repeats. */
  lemma SearchIsOptimalOverTheChannels(cs: seq<Channel>, source: NodeId, target: NodeId, amountMsat: u64,
                                       r: Option<Path>)
    requires OwnersFixed(cs)
    requires Answers(UpsertedAll(Net(map[], map[]), cs), source, target, amountMsat, r)
    ensures BestOverChannels(UpsertedAll(Net(map[], map[]), cs), source, target, amountMsat, r)
  {
    IndexIsExactOverRuns(cs);
    AnswersAreBestOverChannels(UpsertedAll(Net(map[], map[]), cs), source, target, amountMsat, r);
  }

  // ---- Where the code and its promise part ----

  function Sample(id: ChannelId, node: NodeId, peer: NodeId, capacityMsat: u64, ratePpm: u64): Channel {
    Channel(id, node, peer, "", capacityMsat, FeePolicy(1000, ratePpm, 1, None, 40), ChannelStatus.Active,
            LiquidityProfile(0.0, 0, 0, 0, 0, 0, 0, UnknownImbalance), 0, None, None, None, false, true, None, None)
  }

  /** Over an exact index, the same condition says whether an upsert leaves the
      search its precondition. */
  lemma UpsertKeepsTouchingIff(g: Net, c: Channel)
    requires Exact(g)
    ensures Upserted(g, c).Touching() <==>
            (c.id in g.channels ==> g.channels[c.id].node in {c.node, c.peer, g.channels[c.id].peer})
  {
    UpsertKeepsIndexExactIff(g, c);
    if Exact(Upserted(g, c)) {
      ExactIsTouching(Upserted(g, c));
    } else {
      var owner := g.channels[c.id].node;
      assert Indexed(g, owner, c.id);
      UpsertIndexes(g, c, owner, c.id);
      assert Upserted(g, c).Lists(owner, c.id);
    }
  }

  lemma {:induction false} RelaxListReaches(g: Net, amountMsat: u64, f: Frontier, node: NodeId, cost: u64,
                                            ids: seq<ChannelId>, c: ChannelId)
    requires c in ids && c in g.channels
    ensures Label(RelaxList(g, amountMsat, f, node, cost, ids).dist, OtherEnd(g.channels[c], node)) <=
            SaturatingAdd(cost, ChannelCost(g.channels[c], amountMsat))
  {
    var init, last := ids[..|ids| - 1], ids[|ids| - 1];
    if c != last {
      assert ids == init + [last];
      RelaxListReaches(g, amountMsat, f, node, cost, init, c);
    }
  }

  /** What an upsert that breaks the index does to a search from the old owner:
      its first turn labels the new owner through a channel the old one is no end
      of, and if it keeps that label the walk-back goes on to another node. */
  lemma OldOwnerSearchLeavesTheChannels(g: Net, c: Channel, amountMsat: u64)
    requires Exact(g) && !Exact(Upserted(g, c)) && ChannelCost(c, amountMsat) < MAX_U64
    ensures c.id in g.channels
    ensures var g', owner := Upserted(g, c), g.channels[c.id].node;
            var f := Turn(g', amountMsat, Frontier(map[owner := 0], map[], [Distanced(owner, 0, None)]), 0);
            && g'.Lists(owner, c.id) && !Touches(c, owner)
            && c.node in f.dist && f.dist[c.node] <= ChannelCost(c, amountMsat)
            && (c.node in f.prev && f.prev[c.node] == c.id ==>
                  WalkBack(g', f.prev, c.node, 1) == Some(c.peer) && c.peer != owner)
  {
    UpsertKeepsIndexExactIff(g, c);
    var g', owner := Upserted(g, c), g.channels[c.id].node;
    assert Indexed(g, owner, c.id);
    UpsertIndexes(g, c, owner, c.id);
    var start := Frontier(map[owner := 0], map[], [Distanced(owner, 0, None)]);
    var f := Turn(g', amountMsat, start, 0);
    RelaxListReaches(g', amountMsat, start.(heap := Without(start.heap, 0)), owner, 0, g'.peerEdge[owner], c.id);
    assert WalkBack(g', f.prev, c.node, 0) == Some(c.node);
  }

  // The node the walk-back stands on after `k` steps, if it has not stopped before.
  function WalkBack(g: Net, prev: map<NodeId, ChannelId>, v: NodeId, k: nat): Option<NodeId> {
    if k == 0 then Some(v)
    else
      match WalkBack(g, prev, v, k - 1)
      case None => None
      case Some(n) => if n in prev && prev[n] in g.channels then Some(OtherEnd(g.channels[prev[n]], n)) else None
  }

  // Re-upserting channel "c" of node "a" as a channel of node "x" with the same peer.
  function Reassigned(): Net {
    Upserted(Upserted(Net(map[], map[]), Sample("c", "a", "b", 1, 0)), Sample("c", "x", "b", 1, 0))
  }

  // The search from "a" over that graph, turn by turn.
  ghost function SearchFromOldOwner(): Frontier {
    Frontier(map["a" := 0], map[], [Distanced("a", 0, None)])
  }

  lemma ReassignedLists()
    ensures var g := Reassigned();
            && g.channels == map["c" := Sample("c", "x", "b", 1, 0)]
            && "a" in g.peerEdge && g.peerEdge["a"] == ["c"] && "x" in g.peerEdge && g.peerEdge["x"] == ["c"]
    ensures "a" != "x" && "b" != "x" && "a" != "b"
  {
    assert "a"[0] != "x"[0] && "b"[0] != "x"[0] && "a"[0] != "b"[0];
  }

  lemma RelaxOne(g: Net, f: Frontier, node: NodeId, cost: u64, c: ChannelId)
    ensures RelaxList(g, 0, f, node, cost, [c]) == RelaxStep(g, 0, f, node, cost, c)
  {
    assert [c][..0] == [];
  }

  // One turn over a node that lists one channel, with an empty heap behind it.
  lemma TurnOverOne(g: Net, f: Frontier, top: Distanced, c: ChannelId, other: NodeId)
    requires f.heap == [top] && top.node in f.dist && f.dist[top.node] == top.cost
    requires top.node in g.peerEdge && g.peerEdge[top.node] == [c]
    requires c in g.channels && OtherEnd(g.channels[c], top.node) == other && other !in f.dist
    requires top.cost + ChannelCost(g.channels[c], 0) < MAX_U64
    ensures var cost := top.cost + ChannelCost(g.channels[c], 0);
            Turn(g, 0, f, 0) ==
            Frontier(f.dist[other := cost], f.prev[other := c], [Distanced(other, cost, Some(c))])
  {
    var cost := top.cost + ChannelCost(g.channels[c], 0);
    assert Without(f.heap, 0) == [];
    RelaxOne(g, f.(heap := []), top.node, top.cost, c);
    assert [] + [Distanced(other, cost, Some(c))] == [Distanced(other, cost, Some(c))];
  }

  // The channel of `x` and `b`, still listed for `a`, takes a search from `a` to `x` and then to `b`.
  lemma TwoTurns(g: Net, a: NodeId, x: NodeId, b: NodeId, c: ChannelId, fee: u64)
    requires a != x && a != b && x != b
    requires c in g.channels && g.channels[c].node == x && g.channels[c].peer == b
    requires a in g.peerEdge && g.peerEdge[a] == [c] && x in g.peerEdge && g.peerEdge[x] == [c]
    requires ChannelCost(g.channels[c], 0) == fee && 2 * fee < MAX_U64
    ensures var start := Frontier(map[a := 0], map[], [Distanced(a, 0, None)]);
            var once := Turn(g, 0, start, 0);
            && once == Frontier(map[a := 0, x := fee], map[x := c], [Distanced(x, fee, Some(c))])
            && Turn(g, 0, once, 0) ==
                 Frontier(map[a := 0, x := fee, b := 2 * fee], map[x := c, b := c], [Distanced(b, 2 * fee, Some(c))])
  {
    TurnOverOne(g, Frontier(map[a := 0], map[], [Distanced(a, 0, None)]), Distanced(a, 0, None), c, x);
    var once := Frontier(map[a := 0, x := fee], map[x := c], [Distanced(x, fee, Some(c))]);
    TurnOverOne(g, once, Distanced(x, fee, Some(c)), c, b);
  }

  lemma SearchReachesTheTarget()
    ensures var g, start := Reassigned(), SearchFromOldOwner();
            var once := Turn(g, 0, start, 0);
            && once == Frontier(map["a" := 0, "x" := 1000], map["x" := "c"], [Distanced("x", 1000, Some("c"))])
            && Turn(g, 0, once, 0) ==
                 Frontier(map["a" := 0, "x" := 1000, "b" := 2000], map["x" := "c", "b" := "c"],
                          [Distanced("b", 2000, Some("c"))])
  {
    ReassignedLists();
    TwoTurns(Reassigned(), "a", "x", "b", "c", 1000);
  }

  /** A channel re-upserted under another owner stays listed for the old one.
      Two turns of a search from there bring the target to the top of the heap,
      with predecessors between which the walk-back runs for ever. */
  lemma ReassignedOwnerDefeatsTheWalkBack()
    ensures var g := Reassigned();
            var once := Turn(g, 0, SearchFromOldOwner(), 0);
            && !g.Touching() && once.heap != []
            && var found := Turn(g, 0, once, 0);
            && found.heap == [Distanced("b", 2000, Some("c"))]
            && forall k: nat :: WalkBack(g, found.prev, "b", k) == Some(if k % 2 == 0 then "b" else "x")
  {
    var g := Reassigned();
    ReassignedLists();
    SearchReachesTheTarget();
    assert g.Lists("a", "c");
    forall k: nat
      ensures WalkBack(g, map["x" := "c", "b" := "c"], "b", k) == Some(if k % 2 == 0 then "b" else "x")
    {
      WalkBackAlternates(g, k);
    }
  }

  lemma {:induction false} WalkBackAlternates(g: Net, k: nat)
    requires "c" in g.channels && g.channels["c"].node == "x" && g.channels["c"].peer == "b"
    ensures WalkBack(g, map["x" := "c", "b" := "c"], "b", k) == Some(if k % 2 == 0 then "b" else "x")
  {
    assert "b"[0] != "x"[0];
    if k > 0 {
      WalkBackAlternates(g, k - 1);
    }
  }

  // Capacity summed over the listed ids, as `total_capacity_with_peer` does.
  function ListedCapacity(g: Net, ids: seq<ChannelId>): nat {
    if ids == [] then 0
    else ListedCapacity(g, ids[..|ids| - 1]) + CapacityOf(g, ids[|ids| - 1])
  }

  function CapacityOf(g: Net, id: ChannelId): nat {
    if id in g.channels then g.channels[id].capacityMsat else 0
  }

  function FirstOccurrences(ids: seq<ChannelId>): (r: seq<ChannelId>)
    ensures forall c :: c in r <==> c in ids
    ensures forall i, j | 0 <= i < j < |r| :: r[i] != r[j]
  {
    if ids == [] then []
    else
      var r := FirstOccurrences(ids[..|ids| - 1]);
      assert ids == ids[..|ids| - 1] + [ids[|ids| - 1]];
      if ids[|ids| - 1] in r then r else r + [ids[|ids| - 1]]
  }

  lemma ListedPush(g: Net, ids: seq<ChannelId>, id: ChannelId)
    ensures ListedCapacity(g, ids + [id]) == ListedCapacity(g, ids) + CapacityOf(g, id)
  {
    assert (ids + [id])[..|ids|] == ids;
  }

  // No channel of positive capacity is listed twice.
  ghost predicate RepeatsNoCapacity(g: Net, ids: seq<ChannelId>) {
    forall i, j | 0 <= i < j < |ids| && ids[i] == ids[j] :: CapacityOf(g, ids[i]) == 0
  }

  lemma RepeatsPush(g: Net, ids: seq<ChannelId>, id: ChannelId)
    ensures RepeatsNoCapacity(g, ids + [id]) <==>
            RepeatsNoCapacity(g, ids) && (id in ids ==> CapacityOf(g, id) == 0)
  {
    var more := ids + [id];
    assert forall i | 0 <= i < |ids| :: more[i] == ids[i];
    if RepeatsNoCapacity(g, more) && id in ids {
      var i :| 0 <= i < |ids| && ids[i] == id;
      assert more[i] == more[|ids|];
    }
  }

  lemma OccurrencesPush(g: Net, ids: seq<ChannelId>, id: ChannelId)
    ensures ListedCapacity(g, FirstOccurrences(ids + [id])) ==
            ListedCapacity(g, FirstOccurrences(ids)) + if id in ids then 0 else CapacityOf(g, id)
  {
    assert (ids + [id])[..|ids|] == ids;
    ListedPush(g, FirstOccurrences(ids), id);
  }

  /** The total counts a channel once per listing, so it is the capacity of the
      peer's channels exactly when none of positive capacity is listed twice. */
  lemma {:induction false} TotalCapacityCountsListings(g: Net, ids: seq<ChannelId>)
    ensures ListedCapacity(g, ids) >= ListedCapacity(g, FirstOccurrences(ids))
    ensures ListedCapacity(g, ids) == ListedCapacity(g, FirstOccurrences(ids)) <==> RepeatsNoCapacity(g, ids)
  {
    if ids != [] {
      var init, id := ids[..|ids| - 1], ids[|ids| - 1];
      TotalCapacityCountsListings(g, init);
      assert ids == init + [id];
      RepeatsPush(g, init, id);
      OccurrencesPush(g, init, id);
      ListedPush(g, init, id);
    }
  }

  // Re-upserting an unchanged channel is not idempotent on the index.
  lemma UpsertTwiceCountsTwice(c: Channel)
    requires c.node != c.peer && c.capacityMsat > 0
    ensures var once, twice := Upserted(Net(map[], map[]), c), Upserted(Upserted(Net(map[], map[]), c), c);
            && twice.channels == once.channels
            && ListedCapacity(once, once.peerEdge[c.peer]) == c.capacityMsat
            && ListedCapacity(twice, twice.peerEdge[c.peer]) == 2 * c.capacityMsat
  {
    var twice := Upserted(Upserted(Net(map[], map[]), c), c);
    assert twice.peerEdge[c.peer] == [c.id, c.id];
    assert twice.channels == map[c.id := c];
    var ids := [c.id, c.id];
    assert ids[..1] == [c.id] && [c.id][..0] == [];
    assert ListedCapacity(twice, [c.id]) == ListedCapacity(twice, []) + c.capacityMsat;
    assert ListedCapacity(twice, ids) == ListedCapacity(twice, [c.id]) + c.capacityMsat;
    var once := Upserted(Net(map[], map[]), c);
    assert once.peerEdge[c.peer] == [c.id];
    assert ListedCapacity(once, [c.id]) == ListedCapacity(once, []) + c.capacityMsat;
  }

  function PricedGraph(): Net { Upserted(Net(map[], map[]), Sample("c", "a", "b", 1, 500)) }

  // Every hop there costs 1500 at this amount.
  lemma {:induction false} PricedWalk(w: seq<ChannelId>)
    requires PricedGraph().IsWalk("a", w)
    ensures forall i | 0 <= i < |w| :: w[i] == "c"
    ensures w != [] ==> PricedGraph().WalkCost(w, 1_000_000) >= 1500
    ensures |w| >= 2 ==> PricedGraph().WalkCost(w, 1_000_000) >= 3000
  {
    if w != [] {
      var init := w[..|w| - 1];
      PricedWalk(init);
      assert PricedGraph().channels == map["c" := Sample("c", "a", "b", 1, 500)];
      if init == [] {
        assert PricedGraph().WalkCost(init, 1_000_000) == 0;
      }
    }
  }

  lemma DirectWalk()
    ensures PricedGraph().Leads("a", ["c"], "b") && "a" != "b"
    ensures PricedGraph().WalkCost(["c"], 1_000_000) == 1500 && PricedGraph().WalkCost(["c"], 0) == 1000
  {
    var g := PricedGraph();
    assert "a"[0] != "b"[0];
    assert ["c"][..0] == [];
    assert g.WalkCost([], 0) == 0 && g.WalkCost([], 1_000_000) == 0;
    assert g.IsWalk("a", []) && g.EndOf("a", []) == "a" && g.Lists("a", "c");
  }

  /** A search whose every answer costs 1500 at the amount and reports a total of 1000. */
  lemma ReportedTotalMissesProportionalFees(r: Option<Path>)
    requires Answers(PricedGraph(), "a", "b", 1_000_000, r)
    ensures r.Some? && r.value.totalCostMsat == 1000
    ensures PricedGraph().WalkCost(HopIds(r.value.hops), 1_000_000) == 1500
  {
    DirectWalk();
    assert r.Some?;
    var ids := HopIds(r.value.hops);
    PricedWalk(ids);
    assert ids != [] && |ids| < 2;
    assert ids == ["c"];
  }
}
