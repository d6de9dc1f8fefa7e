/** Snapshot pruning: `MemoryStorage::prune_channel_snapshots`
    (crates/rieko-storage/src/storage.rs) under the policy of
    crates/rieko-storage/src/retention.rs. */
module Retention {
  import opened Numbers
  import opened Ordering
  import opened Wrappers
  import opened Sequences
  import opened Domain
  import opened Findings

  datatype RetentionPolicy = RetentionPolicy(
    snapshotMaxAge: nat, closedChannelMaxAge: nat,
    maxSnapshotsPerChannel: Option<nat>, maxTotalSnapshots: Option<nat>)
  {
    function MaxAgeForStatus(status: ChannelStatus): nat {
      if status.IsClosed() then closedChannelMaxAge else snapshotMaxAge
    }
  }

  // Pruning groups by this key; a snapshot without a network or node is in a group of its own.
  datatype ChannelKey = ChannelKey(network: Option<BitcoinNetwork>, nodeId: Option<string>, channelId: ChannelId)

  function Key(s: ChannelSnapshot): ChannelKey {
    ChannelKey(s.state.network, s.state.nodeId, s.state.channelId)
  }

  predicate TooOld(s: ChannelSnapshot, policy: RetentionPolicy, now: int) {
    s.ts < now - FromStd(policy.MaxAgeForStatus(s.state.status))
  }

  // The snapshots of one channel, in their order.
  function Of(ss: seq<ChannelSnapshot>, k: ChannelKey): seq<ChannelSnapshot> {
    if ss == [] then []
    else Of(ss[..|ss| - 1], k) + (if Key(ss[|ss| - 1]) == k then [ss[|ss| - 1]] else [])
  }

  function Recent(ss: seq<ChannelSnapshot>, policy: RetentionPolicy, now: int): seq<ChannelSnapshot> {
    if ss == [] then []
    else
      Recent(ss[..|ss| - 1], policy, now) +
      (if TooOld(ss[|ss| - 1], policy, now) then [] else [ss[|ss| - 1]])
  }

  // `sort_by_key(|s| Reverse(s.ts))`, which is stable.
  function Inserted(ss: seq<ChannelSnapshot>, s: ChannelSnapshot): seq<ChannelSnapshot> {
    if ss == [] || ss[|ss| - 1].ts >= s.ts then ss + [s]
    else Inserted(ss[..|ss| - 1], s) + [ss[|ss| - 1]]
  }

  function ByNewest(ss: seq<ChannelSnapshot>): seq<ChannelSnapshot> {
    if ss == [] then [] else Inserted(ByNewest(ss[..|ss| - 1]), ss[|ss| - 1])
  }

  ghost predicate NewestFirst(ss: seq<ChannelSnapshot>) {
    forall i, j | 0 <= i < j < |ss| :: ss[i].ts >= ss[j].ts
  }

  // ---- What a pruning pass must achieve ----

  ghost predicate ChannelFull(after: seq<ChannelSnapshot>, s: ChannelSnapshot, policy: RetentionPolicy) {
    policy.maxSnapshotsPerChannel == Some(|Of(after, Key(s))|) && forall t | t in Of(after, Key(s)) :: t.ts >= s.ts
  }

  ghost predicate StoreFull(after: seq<ChannelSnapshot>, s: ChannelSnapshot, policy: RetentionPolicy) {
    policy.maxTotalSnapshots == Some(|after|) && forall t | t in after :: t.ts >= s.ts
  }

  ghost predicate WithinCaps(ss: seq<ChannelSnapshot>, policy: RetentionPolicy) {
    && (policy.maxSnapshotsPerChannel.Some? ==> forall k :: |Of(ss, k)| <= policy.maxSnapshotsPerChannel.value)
    && (policy.maxTotalSnapshots.Some? ==> |ss| <= policy.maxTotalSnapshots.value)
  }

  ghost predicate Dropped(s: ChannelSnapshot, before: seq<ChannelSnapshot>, after: seq<ChannelSnapshot>) {
    multiset(after)[s] < multiset(before)[s]
  }

  /** Nothing appears, nothing kept is too old or beyond a cap, and everything
      dropped is too old or displaced by a full quota at least as new. */
  ghost predicate Pruned(before: seq<ChannelSnapshot>, after: seq<ChannelSnapshot>, policy: RetentionPolicy, now: int) {
    && multiset(after) <= multiset(before)
    && (forall s | s in after :: !TooOld(s, policy, now))
    && WithinCaps(after, policy)
    && (forall s | Dropped(s, before, after) ::
          TooOld(s, policy, now) || ChannelFull(after, s, policy) || StoreFull(after, s, policy))
  }

  // ---- Sequences by channel ----

  lemma OfPush(ss: seq<ChannelSnapshot>, s: ChannelSnapshot, k: ChannelKey)
    ensures Of(ss + [s], k) == Of(ss, k) + (if Key(s) == k then [s] else [])
  {
    assert (ss + [s])[..|ss|] == ss;
  }

  lemma {:induction false} OfConcat(a: seq<ChannelSnapshot>, b: seq<ChannelSnapshot>, k: ChannelKey)
    ensures Of(a + b, k) == Of(a, k) + Of(b, k)
  {
    if b == [] {
      assert a + b == a;
    } else {
      var init, last := b[..|b| - 1], b[|b| - 1];
      assert a + b == a + init + [last];
      OfConcat(a, init, k);
      OfPush(a + init, last, k);
    }
  }

  lemma {:induction false} OfCounts(ss: seq<ChannelSnapshot>, k: ChannelKey, s: ChannelSnapshot)
    ensures multiset(Of(ss, k))[s] == if Key(s) == k then multiset(ss)[s] else 0
  {
    if ss != [] {
      assert ss == ss[..|ss| - 1] + [ss[|ss| - 1]];
      OfCounts(ss[..|ss| - 1], k, s);
    }
  }

  lemma OfMembers(ss: seq<ChannelSnapshot>, k: ChannelKey, s: ChannelSnapshot)
    ensures s in Of(ss, k) <==> s in ss && Key(s) == k
  {
    OfCounts(ss, k, s);
    assert s in multiset(Of(ss, k)) <==> s in Of(ss, k);
    assert s in multiset(ss) <==> s in ss;
  }

  lemma {:induction false} OfOneChannel(ss: seq<ChannelSnapshot>, k: ChannelKey, k': ChannelKey)
    requires forall i | 0 <= i < |ss| :: Key(ss[i]) == k
    ensures Of(ss, k') == if k' == k then ss else []
  {
    if ss != [] {
      OfOneChannel(ss[..|ss| - 1], k, k');
      assert ss == ss[..|ss| - 1] + [ss[|ss| - 1]];
    }
  }

  // ---- The sort ----

  ghost predicate AtLeast(ss: seq<ChannelSnapshot>, ts: int) {
    forall i | 0 <= i < |ss| :: ss[i].ts >= ts
  }

  lemma AtLeastMembers(ss: seq<ChannelSnapshot>, ts: int)
    ensures AtLeast(ss, ts) <==> forall s | s in ss :: s.ts >= ts
  {}

  lemma NewestFirstPush(ss: seq<ChannelSnapshot>, last: ChannelSnapshot)
    requires NewestFirst(ss) && AtLeast(ss, last.ts)
    ensures NewestFirst(ss + [last])
  {}

  lemma NewestFirstInit(ss: seq<ChannelSnapshot>)
    requires NewestFirst(ss) && ss != []
    ensures NewestFirst(ss[..|ss| - 1]) && AtLeast(ss[..|ss| - 1], ss[|ss| - 1].ts)
  {}

  lemma {:induction false} InsertedAtLeast(ss: seq<ChannelSnapshot>, s: ChannelSnapshot, ts: int)
    requires AtLeast(ss, ts) && s.ts >= ts
    ensures AtLeast(Inserted(ss, s), ts)
  {
    if !(ss == [] || ss[|ss| - 1].ts >= s.ts) {
      InsertedAtLeast(ss[..|ss| - 1], s, ts);
    }
  }

  lemma {:induction false} InsertedCounts(ss: seq<ChannelSnapshot>, s: ChannelSnapshot)
    ensures multiset(Inserted(ss, s)) == multiset(ss) + multiset{s}
  {
    if !(ss == [] || ss[|ss| - 1].ts >= s.ts) {
      InsertedCounts(ss[..|ss| - 1], s);
      assert ss == ss[..|ss| - 1] + [ss[|ss| - 1]];
    }
  }

  lemma {:induction false} InsertedSorts(ss: seq<ChannelSnapshot>, s: ChannelSnapshot)
    requires NewestFirst(ss)
    ensures NewestFirst(Inserted(ss, s))
  {
    if ss == [] {
    } else if ss[|ss| - 1].ts >= s.ts {
      NewestFirstInit(ss);
      NewestFirstPush(ss, s);
    } else {
      var init, last := ss[..|ss| - 1], ss[|ss| - 1];
      NewestFirstInit(ss);
      InsertedSorts(init, s);
      InsertedAtLeast(init, s, last.ts);
      NewestFirstPush(Inserted(init, s), last);
    }
  }

  lemma {:induction false} ByNewestSorts(ss: seq<ChannelSnapshot>)
    ensures NewestFirst(ByNewest(ss)) && multiset(ByNewest(ss)) == multiset(ss)
  {
    if ss != [] {
      var init, last := ss[..|ss| - 1], ss[|ss| - 1];
      ByNewestSorts(init);
      InsertedSorts(ByNewest(init), last);
      InsertedCounts(ByNewest(init), last);
      MultisetOfInit(ss);
    }
  }

  lemma {:induction false} ByNewestFixesSorted(ss: seq<ChannelSnapshot>)
    requires NewestFirst(ss)
    ensures ByNewest(ss) == ss
  {
    if ss != [] {
      var init, last := ss[..|ss| - 1], ss[|ss| - 1];
      NewestFirstInit(ss);
      ByNewestFixesSorted(init);
      assert Inserted(init, last) == init + [last];
    }
  }

  lemma {:induction false} OfInserted(ss: seq<ChannelSnapshot>, s: ChannelSnapshot, k: ChannelKey)
    requires NewestFirst(ss)
    ensures Of(Inserted(ss, s), k) == if Key(s) == k then Inserted(Of(ss, k), s) else Of(ss, k)
    decreases |ss|
  {
    if ss == [] || ss[|ss| - 1].ts >= s.ts {
      OfPush(ss, s, k);
      if Of(ss, k) != [] {
        var last := Of(ss, k)[|Of(ss, k)| - 1];
        OfMembers(ss, k, last);
        assert last.ts >= s.ts;
      }
    } else {
      var init, last := ss[..|ss| - 1], ss[|ss| - 1];
      OfInserted(init, s, k);
      OfPush(Inserted(init, s), last, k);
      if Key(s) == k && Key(last) == k {
        var o := Of(init, k);
        assert Of(ss, k) == o + [last] && (o + [last])[..|o|] == o;
      } else if Key(s) == k {
        assert Of(ss, k) == Of(init, k);
      }
    }
  }

  lemma ByNewestPush(ss: seq<ChannelSnapshot>, s: ChannelSnapshot)
    ensures ByNewest(ss + [s]) == Inserted(ByNewest(ss), s)
  {
    assert (ss + [s])[..|ss|] == ss;
  }

  // Stability: sorting everything sorts each channel.
  lemma {:induction false} OfByNewest(ss: seq<ChannelSnapshot>, k: ChannelKey)
    ensures Of(ByNewest(ss), k) == ByNewest(Of(ss, k))
  {
    if ss != [] {
      var init, last := ss[..|ss| - 1], ss[|ss| - 1];
      OfByNewest(init, k);
      ByNewestSorts(init);
      OfInserted(ByNewest(init), last, k);
      if Key(last) == k {
        ByNewestPush(Of(init, k), last);
      } else {
        assert Of(ss, k) == Of(init, k);
      }
    }
  }

  // ---- The steps of a pass ----

  method GroupedByChannel(ss: seq<ChannelSnapshot>) returns (groups: map<ChannelKey, seq<ChannelSnapshot>>)
    ensures forall k :: Of(ss, k) == if k in groups then groups[k] else []
  {
    groups := map[];
    for i := 0 to |ss|
      invariant forall k :: Of(ss[..i], k) == if k in groups then groups[k] else []
    {
      var k := Key(ss[i]);
      assert ss[..i + 1] == ss[..i] + [ss[i]];
      forall k' {
        OfPush(ss[..i], ss[i], k');
      }
      groups := groups[k := (if k in groups then groups[k] else []) + [ss[i]]];
    }
    assert ss[..|ss|] == ss;
  }

  lemma {:induction false} RecentMembers(ss: seq<ChannelSnapshot>, policy: RetentionPolicy, now: int,
                                         s: ChannelSnapshot)
    ensures multiset(Recent(ss, policy, now))[s] == if TooOld(s, policy, now) then 0 else multiset(ss)[s]
  {
    if ss != [] {
      assert ss == ss[..|ss| - 1] + [ss[|ss| - 1]];
      RecentMembers(ss[..|ss| - 1], policy, now, s);
    }
  }

  lemma {:induction false} RecentKeepsOrder(ss: seq<ChannelSnapshot>, policy: RetentionPolicy, now: int)
    requires NewestFirst(ss)
    ensures NewestFirst(Recent(ss, policy, now))
    ensures forall ts | AtLeast(ss, ts) :: AtLeast(Recent(ss, policy, now), ts)
  {
    if ss != [] {
      NewestFirstInit(ss);
      RecentKeepsOrder(ss[..|ss| - 1], policy, now);
      NewestFirstPush(Recent(ss[..|ss| - 1], policy, now), ss[|ss| - 1]);
    }
  }

  // What the first pass leaves of one channel.
  function RecentOfChannel(ss: seq<ChannelSnapshot>, k: ChannelKey, policy: RetentionPolicy, now: int)
    : seq<ChannelSnapshot>
  {
    Recent(ByNewest(Of(ss, k)), policy, now)
  }

  lemma RecentOfChannelCounts(ss: seq<ChannelSnapshot>, k: ChannelKey, policy: RetentionPolicy, now: int,
                              s: ChannelSnapshot)
    ensures multiset(RecentOfChannel(ss, k, policy, now))[s] ==
            if Key(s) == k && !TooOld(s, policy, now) then multiset(ss)[s] else 0
  {
    ByNewestSorts(Of(ss, k));
    RecentMembers(ByNewest(Of(ss, k)), policy, now, s);
    OfCounts(ss, k, s);
  }

  ghost predicate AllOf(ss: seq<ChannelSnapshot>, k: ChannelKey) {
    forall i | 0 <= i < |ss| :: Key(ss[i]) == k
  }

  lemma RecentOfChannelKeys(ss: seq<ChannelSnapshot>, k: ChannelKey, policy: RetentionPolicy, now: int)
    ensures AllOf(RecentOfChannel(ss, k, policy, now), k)
  {
    var recent := RecentOfChannel(ss, k, policy, now);
    forall i | 0 <= i < |recent|
      ensures Key(recent[i]) == k
    {
      RecentOfChannelCounts(ss, k, policy, now, recent[i]);
      assert recent[i] in multiset(recent);
    }
  }

  // What the cap of one channel leaves of it.
  function NewestOfChannel(ss: seq<ChannelSnapshot>, k: ChannelKey, cap: nat): seq<ChannelSnapshot> {
    First(ByNewest(Of(ss, k)), cap)
  }

  lemma NewestOfChannelKeys(ss: seq<ChannelSnapshot>, k: ChannelKey, cap: nat)
    ensures AllOf(NewestOfChannel(ss, k, cap), k)
  {
    var newest := ByNewest(Of(ss, k));
    forall i | 0 <= i < |newest|
      ensures Key(newest[i]) == k
    {
      ByNewestSorts(Of(ss, k));
      OfCounts(ss, k, newest[i]);
      assert newest[i] in multiset(newest);
    }
  }

  lemma NothingOfChannel(ss: seq<ChannelSnapshot>, k: ChannelKey, cap: nat)
    requires Of(ss, k) == []
    ensures NewestOfChannel(ss, k, cap) == []
  {}

  // Every channel visited has received what is wanted for it.
  ghost predicate Holds(kept: seq<ChannelSnapshot>, left: set<ChannelKey>, want: ChannelKey -> seq<ChannelSnapshot>) {
    forall k :: Of(kept, k) == if k in left then [] else want(k)
  }

  lemma VisitHolds(kept: seq<ChannelSnapshot>, left: set<ChannelKey>, want: ChannelKey -> seq<ChannelSnapshot>,
                   k: ChannelKey)
    requires Holds(kept, left, want) && k in left && AllOf(want(k), k)
    ensures Holds(kept + want(k), left - {k}, want)
  {
    forall k'
      ensures Of(kept + want(k), k') == if k' in left - {k} then [] else want(k')
    {
      OfConcat(kept, want(k), k');
      OfOneChannel(want(k), k, k');
    }
  }

  method RecentInOrder(ss: seq<ChannelSnapshot>, policy: RetentionPolicy, now: int) returns (kept: seq<ChannelSnapshot>)
    ensures kept == Recent(ss, policy, now)
  {
    var closedCutoff := now - FromStd(policy.closedChannelMaxAge);
    var activeCutoff := now - FromStd(policy.snapshotMaxAge);
    kept := [];
    for i := 0 to |ss|
      invariant kept == Recent(ss[..i], policy, now)
    {
      assert ss[..i + 1][..i] == ss[..i];
      var cutoff := if ss[i].state.status.IsClosed() then closedCutoff else activeCutoff;
      if ss[i].ts < cutoff {
        continue;
      }
      kept := kept + [ss[i]];
    }
    assert ss[..|ss|] == ss;
  }

  // ---- The order of the groups ----

  function NetworkRank(network: Option<BitcoinNetwork>): nat {
    match network
    case None => 0
    case Some(Mainnet) => 1
    case Some(Testnet) => 2
    case Some(Signet) => 3
    case Some(Regtest) => 4
  }

  predicate NodeLess(a: Option<string>, b: Option<string>) {
    b.Some? && (a.None? || StringLess(a.value, b.value))
  }

  // `Ord` of the key, in which the map holds its groups.
  predicate KeyLess(a: ChannelKey, b: ChannelKey) {
    NetworkRank(a.network) < NetworkRank(b.network) ||
    (a.network == b.network &&
     (NodeLess(a.nodeId, b.nodeId) || (a.nodeId == b.nodeId && StringLess(a.channelId, b.channelId))))
  }

  lemma NodeLessOrders(a: Option<string>, b: Option<string>, c: Option<string>)
    ensures !NodeLess(a, a) && (a == b || NodeLess(a, b) || NodeLess(b, a))
    ensures NodeLess(a, b) && NodeLess(b, c) ==> NodeLess(a, c)
  {
    if a.Some? {
      StringLessIrreflexive(a.value);
      if b.Some? {
        StringLessTotal(a.value, b.value);
        if c.Some? && StringLess(a.value, b.value) && StringLess(b.value, c.value) {
          StringLessTransitive(a.value, b.value, c.value);
        }
      }
    }
  }

  lemma KeyLessOrders(a: ChannelKey, b: ChannelKey, c: ChannelKey)
    ensures !KeyLess(a, a) && (a == b || KeyLess(a, b) || KeyLess(b, a))
    ensures KeyLess(a, b) && KeyLess(b, c) ==> KeyLess(a, c)
  {
    NodeLessOrders(a.nodeId, b.nodeId, c.nodeId);
    StringLessIrreflexive(a.channelId);
    StringLessTotal(a.channelId, b.channelId);
    if StringLess(a.channelId, b.channelId) && StringLess(b.channelId, c.channelId) {
      StringLessTransitive(a.channelId, b.channelId, c.channelId);
    }
  }

  ghost predicate Least(k: ChannelKey, keys: set<ChannelKey>) {
    k in keys && forall k' | k' in keys :: k' == k || KeyLess(k, k')
  }

  lemma {:induction false} LeastExists(keys: set<ChannelKey>)
    requires keys != {}
    ensures exists k :: Least(k, keys)
    decreases |keys|
  {
    var x :| x in keys;
    var rest := keys - {x};
    if rest == {} {
      forall k | k in keys
        ensures k == x
      {
        assert k == x || k in rest;
      }
      assert Least(x, keys);
    } else {
      LeastExists(rest);
      var y :| Least(y, rest);
      assert forall k | k in keys :: k == x || k in rest;
      KeyLessOrders(x, y, y);
      if KeyLess(x, y) {
        forall k | k in rest
          ensures KeyLess(x, k)
        {
          KeyLessOrders(x, y, k);
        }
        assert Least(x, keys);
      } else {
        assert Least(y, keys);
      }
    }
  }

  // The groups stand one after the other in the order of their keys.
  ghost predicate Grouped(ss: seq<ChannelSnapshot>) {
    forall i, j | 0 <= i < j < |ss| :: Key(ss[i]) == Key(ss[j]) || KeyLess(Key(ss[i]), Key(ss[j]))
  }

  ghost predicate BeforeAll(ss: seq<ChannelSnapshot>, keys: set<ChannelKey>) {
    forall i, k | 0 <= i < |ss| && k in keys :: KeyLess(Key(ss[i]), k)
  }

  lemma VisitGroups(kept: seq<ChannelSnapshot>, chunk: seq<ChannelSnapshot>, left: set<ChannelKey>, k: ChannelKey)
    requires Grouped(kept) && BeforeAll(kept, left) && Least(k, left) && AllOf(chunk, k)
    ensures Grouped(kept + chunk) && BeforeAll(kept + chunk, left - {k})
  {}

  lemma LastIsOfItsChannel(ss: seq<ChannelSnapshot>)
    requires ss != []
    ensures var o := Of(ss, Key(ss[|ss| - 1])); o != [] && o[|o| - 1] == ss[|ss| - 1] && ss[|ss| - 1] in o
  {}

  lemma OfInit(ss: seq<ChannelSnapshot>, k: ChannelKey)
    requires ss != []
    ensures Of(ss[..|ss| - 1], k) ==
            if Key(ss[|ss| - 1]) == k then Of(ss, k)[..|Of(ss, k)| - 1] else Of(ss, k)
  {}

  lemma SameLast(a: seq<ChannelSnapshot>, b: seq<ChannelSnapshot>)
    requires Grouped(a) && Grouped(b) && a != [] && b != []
    requires forall k :: Of(a, k) == Of(b, k)
    ensures a[|a| - 1] == b[|b| - 1]
  {
    var x, y := a[|a| - 1], b[|b| - 1];
    LastIsOfItsChannel(a);
    LastIsOfItsChannel(b);
    assert Of(a, Key(x)) == Of(b, Key(x)) && Of(a, Key(y)) == Of(b, Key(y));
    OfMembers(b, Key(x), x);
    OfMembers(a, Key(y), y);
    LastKeyIsGreatest(a, y);
    LastKeyIsGreatest(b, x);
    KeyLessOrders(Key(x), Key(y), Key(x));
  }

  // What is kept of each channel, and the order of the groups, leave one sequence.
  lemma {:induction false} GroupedUnique(a: seq<ChannelSnapshot>, b: seq<ChannelSnapshot>)
    requires Grouped(a) && Grouped(b) && forall k :: Of(a, k) == Of(b, k)
    ensures a == b
    decreases |a|
  {
    if a == [] {
      if b != [] {
        LastIsOfItsChannel(b);
      }
    } else if b == [] {
      LastIsOfItsChannel(a);
    } else {
      var inita, initb := a[..|a| - 1], b[..|b| - 1];
      SameLast(a, b);
      forall k: ChannelKey
        ensures Of(inita, k) == Of(initb, k)
      {
        OfInit(a, k);
        OfInit(b, k);
      }
      GroupedUnique(inita, initb);
      assert a == inita + [a[|a| - 1]] && b == initb + [b[|b| - 1]];
    }
  }

  lemma LastKeyIsGreatest(ss: seq<ChannelSnapshot>, s: ChannelSnapshot)
    requires Grouped(ss) && s in ss
    ensures Key(s) == Key(ss[|ss| - 1]) || KeyLess(Key(s), Key(ss[|ss| - 1]))
  {}

  method WithoutTooOld(ss: seq<ChannelSnapshot>, policy: RetentionPolicy, now: int) returns (kept: seq<ChannelSnapshot>)
    ensures forall k :: Of(kept, k) == RecentOfChannel(ss, k, policy, now)
    ensures Grouped(kept)
  {
    var groups := GroupedByChannel(ss);
    ghost var want := (k: ChannelKey) => RecentOfChannel(ss, k, policy, now);
    kept := [];
    var left := groups.Keys;
    assert Holds(kept, left, want);
    while left != {}
      invariant left <= groups.Keys && Holds(kept, left, want)
      invariant Grouped(kept) && BeforeAll(kept, left)
    {
      LeastExists(left);
      var k :| k in left && forall k' | k' in left :: k' == k || KeyLess(k, k');
      var chunk := RecentInOrder(ByNewest(groups[k]), policy, now);
      assert chunk == want(k);
      RecentOfChannelKeys(ss, k, policy, now);
      VisitHolds(kept, left, want, k);
      VisitGroups(kept, chunk, left, k);
      left := left - {k};
      kept := kept + chunk;
    }
    forall k
      ensures Of(kept, k) == RecentOfChannel(ss, k, policy, now)
    {
      assert Of(kept, k) == want(k);
    }
  }

  method Capped(kept: seq<ChannelSnapshot>, cap: nat) returns (capped: seq<ChannelSnapshot>)
    ensures forall k :: Of(capped, k) == NewestOfChannel(kept, k, cap)
    ensures Grouped(capped)
  {
    var groups := GroupedByChannel(kept);
    ghost var want := (k: ChannelKey) => NewestOfChannel(kept, k, cap);
    capped := [];
    var left := groups.Keys;
    forall k | k !in groups
      ensures want(k) == []
    {
      NothingOfChannel(kept, k, cap);
    }
    assert Holds(capped, left, want);
    while left != {}
      invariant left <= groups.Keys && Holds(capped, left, want)
      invariant Grouped(capped) && BeforeAll(capped, left)
    {
      LeastExists(left);
      var k :| k in left && forall k' | k' in left :: k' == k || KeyLess(k, k');
      var chunk := First(ByNewest(groups[k]), cap);
      assert chunk == want(k);
      NewestOfChannelKeys(kept, k, cap);
      VisitHolds(capped, left, want, k);
      VisitGroups(capped, chunk, left, k);
      left := left - {k};
      capped := capped + chunk;
    }
    forall k
      ensures Of(capped, k) == NewestOfChannel(kept, k, cap)
    {
      assert Of(capped, k) == want(k);
    }
  }

  lemma {:induction false} OfPrefix(ss: seq<ChannelSnapshot>, n: nat, k: ChannelKey)
    requires n <= |ss|
    ensures |Of(ss[..n], k)| <= |Of(ss, k)| && Of(ss[..n], k) == Of(ss, k)[..|Of(ss[..n], k)|]
    ensures |Of(ss[..n], k)| < |Of(ss, k)| ==> Of(ss, k)[|Of(ss[..n], k)|] in ss[n..]
  {
    assert ss == ss[..n] + ss[n..];
    OfConcat(ss[..n], ss[n..], k);
    if Of(ss[n..], k) != [] {
      OfMembers(ss[n..], k, Of(ss[n..], k)[0]);
    }
  }

  // ---- Each step keeps its part of the bargain ----

  lemma FirstDrops(ss: seq<ChannelSnapshot>, n: nat, s: ChannelSnapshot)
    requires NewestFirst(ss)
    ensures multiset(First(ss, n))[s] <= multiset(ss)[s]
    ensures multiset(First(ss, n))[s] < multiset(ss)[s] ==> |First(ss, n)| == n && AtLeast(First(ss, n), s.ts)
  {
    if |ss| > n {
      MultisetOfParts(ss, n, s);
      if s in multiset(ss[n..]) {
        var i := PositionAfter(ss, n, s);
      }
    }
  }

  ghost predicate EachNewestFirst(ss: seq<ChannelSnapshot>) {
    forall k :: NewestFirst(Of(ss, k))
  }

  lemma AgeStep(before: seq<ChannelSnapshot>, recent: seq<ChannelSnapshot>, policy: RetentionPolicy, now: int,
                s: ChannelSnapshot)
    requires Of(recent, Key(s)) == RecentOfChannel(before, Key(s), policy, now)
    ensures multiset(recent)[s] == if TooOld(s, policy, now) then 0 else multiset(before)[s]
  {
    OfCounts(recent, Key(s), s);
    RecentOfChannelCounts(before, Key(s), policy, now, s);
  }

  lemma AgePrunes(before: seq<ChannelSnapshot>, recent: seq<ChannelSnapshot>, policy: RetentionPolicy, now: int)
    requires forall k :: Of(recent, k) == RecentOfChannel(before, k, policy, now)
    requires policy.maxSnapshotsPerChannel.None? && policy.maxTotalSnapshots.None?
    ensures Pruned(before, recent, policy, now) && EachNewestFirst(recent)
  {
    forall s: ChannelSnapshot
      ensures multiset(recent)[s] == if TooOld(s, policy, now) then 0 else multiset(before)[s]
    {
      AgeStep(before, recent, policy, now, s);
    }
    forall s | s in recent
      ensures !TooOld(s, policy, now)
    {
      assert s in multiset(recent);
    }
    forall k
      ensures NewestFirst(Of(recent, k))
    {
      ByNewestSorts(Of(before, k));
      RecentKeepsOrder(ByNewest(Of(before, k)), policy, now);
    }
  }

  lemma {:induction false} RecentIgnoresCaps(ss: seq<ChannelSnapshot>, policy: RetentionPolicy, bare: RetentionPolicy,
                                             now: int)
    requires bare.snapshotMaxAge == policy.snapshotMaxAge
    requires bare.closedChannelMaxAge == policy.closedChannelMaxAge
    ensures Recent(ss, bare, now) == Recent(ss, policy, now)
  {
    if ss != [] {
      RecentIgnoresCaps(ss[..|ss| - 1], policy, bare, now);
    }
  }

  lemma AgeIgnoresCaps(before: seq<ChannelSnapshot>, recent: seq<ChannelSnapshot>, policy: RetentionPolicy, now: int)
    requires forall k :: Of(recent, k) == RecentOfChannel(before, k, policy, now)
    ensures var bare := policy.(maxSnapshotsPerChannel := None, maxTotalSnapshots := None);
            forall k :: Of(recent, k) == RecentOfChannel(before, k, bare, now)
  {
    var bare := policy.(maxSnapshotsPerChannel := None, maxTotalSnapshots := None);
    forall k
      ensures Of(recent, k) == RecentOfChannel(before, k, bare, now)
    {
      RecentIgnoresCaps(ByNewest(Of(before, k)), policy, bare, now);
    }
  }

  lemma CapOfChannel(recent: seq<ChannelSnapshot>, k: ChannelKey, cap: nat)
    requires NewestFirst(Of(recent, k))
    ensures NewestOfChannel(recent, k, cap) == First(Of(recent, k), cap)
    ensures NewestFirst(NewestOfChannel(recent, k, cap)) && |NewestOfChannel(recent, k, cap)| <= cap
  {
    ByNewestFixesSorted(Of(recent, k));
  }

  lemma CapStep(recent: seq<ChannelSnapshot>, capped: seq<ChannelSnapshot>, cap: nat, s: ChannelSnapshot)
    requires NewestFirst(Of(recent, Key(s)))
    requires Of(capped, Key(s)) == NewestOfChannel(recent, Key(s), cap)
    ensures multiset(capped)[s] <= multiset(recent)[s]
    ensures multiset(capped)[s] < multiset(recent)[s] ==>
              |Of(capped, Key(s))| == cap && forall t | t in Of(capped, Key(s)) :: t.ts >= s.ts
  {
    CapOfChannel(recent, Key(s), cap);
    OfCounts(recent, Key(s), s);
    OfCounts(capped, Key(s), s);
    FirstDrops(Of(recent, Key(s)), cap, s);
    AtLeastMembers(Of(capped, Key(s)), s.ts);
  }

  // Ages do not depend on the caps.
  lemma SubsetNotTooOld(all: seq<ChannelSnapshot>, some: seq<ChannelSnapshot>, bare: RetentionPolicy,
                        policy: RetentionPolicy, now: int)
    requires bare.snapshotMaxAge == policy.snapshotMaxAge && bare.closedChannelMaxAge == policy.closedChannelMaxAge
    requires forall s | s in all :: !TooOld(s, bare, now)
    requires forall s: ChannelSnapshot :: multiset(some)[s] <= multiset(all)[s]
    ensures forall s | s in some :: !TooOld(s, policy, now)
  {
    forall s | s in some
      ensures !TooOld(s, policy, now)
    {
      assert s in multiset(some);
      assert s in multiset(all);
      assert s in all && !TooOld(s, bare, now);
    }
  }

  lemma CapPrunes(before: seq<ChannelSnapshot>, recent: seq<ChannelSnapshot>, capped: seq<ChannelSnapshot>,
                  policy: RetentionPolicy, now: int, cap: nat)
    requires Pruned(before, recent, policy.(maxSnapshotsPerChannel := None), now) && EachNewestFirst(recent)
    requires policy.maxSnapshotsPerChannel == Some(cap) && policy.maxTotalSnapshots.None?
    requires forall k :: Of(capped, k) == NewestOfChannel(recent, k, cap)
    ensures Pruned(before, capped, policy, now) && EachNewestFirst(capped)
  {
    forall s: ChannelSnapshot
      ensures multiset(capped)[s] <= multiset(recent)[s] <= multiset(before)[s]
      ensures multiset(capped)[s] < multiset(recent)[s] ==> ChannelFull(capped, s, policy)
    {
      CapStep(recent, capped, cap, s);
    }
    SubsetNotTooOld(recent, capped, policy.(maxSnapshotsPerChannel := None), policy, now);
    forall k
      ensures NewestFirst(Of(capped, k)) && |Of(capped, k)| <= cap
    {
      CapOfChannel(recent, k, cap);
    }
    forall s | Dropped(s, before, capped)
      ensures TooOld(s, policy, now) || ChannelFull(capped, s, policy)
    {
      assert Dropped(s, before, recent) || multiset(capped)[s] < multiset(recent)[s];
    }
  }

  // The total cap takes a prefix of each channel.
  lemma TotalOfChannel(capped: seq<ChannelSnapshot>, k: ChannelKey, total: nat)
    requires NewestFirst(Of(capped, k))
    ensures var kept := First(ByNewest(capped), total);
            |Of(kept, k)| <= |Of(capped, k)| && Of(kept, k) == Of(capped, k)[..|Of(kept, k)|]
    ensures |Of(First(ByNewest(capped), total), k)| < |Of(capped, k)| ==>
              total < |ByNewest(capped)| && exists t :: t in Of(capped, k) && t in ByNewest(capped)[total..]
  {
    var all, o := ByNewest(capped), Of(capped, k);
    OfByNewest(capped, k);
    ByNewestFixesSorted(o);
    if |all| > total {
      OfPrefix(all, total, k);
      var n := |Of(all[..total], k)|;
      if n < |o| {
        assert o[n] in o && o[n] in all[total..];
      }
    }
  }

  lemma PastTheTotal(all: seq<ChannelSnapshot>, total: nat, t: ChannelSnapshot)
    requires NewestFirst(all) && total < |all| && t in all[total..]
    ensures AtLeast(all[..total], t.ts)
  {
    var i :| total <= i < |all| && all[i] == t;
  }

  lemma CutIsAtLeast(all: seq<ChannelSnapshot>, total: nat, t: ChannelSnapshot, ts: int)
    requires NewestFirst(all) && total < |all| && t in all[total..] && t.ts >= ts
    ensures |First(all, total)| == total && forall x | x in First(all, total) :: x.ts >= ts
  {
    PastTheTotal(all, total, t);
    AtLeastMembers(all[..total], t.ts);
  }

  lemma SameChannelSameQuota(capped: seq<ChannelSnapshot>, kept: seq<ChannelSnapshot>, policy: RetentionPolicy,
                             s: ChannelSnapshot)
    requires ChannelFull(capped, s, policy) && Of(kept, Key(s)) == Of(capped, Key(s))
    ensures ChannelFull(kept, s, policy)
  {}

  lemma DisplacedTwice(capped: seq<ChannelSnapshot>, policy: RetentionPolicy, total: nat, s: ChannelSnapshot)
    requires ChannelFull(capped, s, policy) && NewestFirst(Of(capped, Key(s)))
    requires policy.maxTotalSnapshots == Some(total)
    ensures var kept := First(ByNewest(capped), total); ChannelFull(kept, s, policy) || StoreFull(kept, s, policy)
  {
    var kept, o := First(ByNewest(capped), total), Of(capped, Key(s));
    TotalOfChannel(capped, Key(s), total);
    if |Of(kept, Key(s))| < |o| {
      var t :| t in o && t in ByNewest(capped)[total..];
      ByNewestSorts(capped);
      CutIsAtLeast(ByNewest(capped), total, t, s.ts);
    } else {
      assert Of(kept, Key(s)) == o;
      SameChannelSameQuota(capped, kept, policy, s);
    }
  }

  lemma TotalKeepsSome(capped: seq<ChannelSnapshot>, total: nat)
    ensures var kept := First(ByNewest(capped), total);
            NewestFirst(kept) && |kept| <= total && multiset(kept) <= multiset(capped)
  {
    var kept := First(ByNewest(capped), total);
    ByNewestSorts(capped);
    forall s: ChannelSnapshot
      ensures multiset(kept)[s] <= multiset(capped)[s]
    {
      FirstDrops(ByNewest(capped), total, s);
    }
  }

  lemma ChannelOfTotal(capped: seq<ChannelSnapshot>, k: ChannelKey, total: nat)
    requires NewestFirst(Of(capped, k))
    ensures var kept := First(ByNewest(capped), total);
            NewestFirst(Of(kept, k)) && |Of(kept, k)| <= |Of(capped, k)|
  {
    TotalOfChannel(capped, k, total);
  }

  lemma TotalPrunes(before: seq<ChannelSnapshot>, capped: seq<ChannelSnapshot>, policy: RetentionPolicy, now: int,
                    total: nat)
    requires Pruned(before, capped, policy.(maxTotalSnapshots := None), now) && EachNewestFirst(capped)
    requires policy.maxTotalSnapshots == Some(total)
    ensures var kept := First(ByNewest(capped), total);
            Pruned(before, kept, policy, now) && NewestFirst(kept) && EachNewestFirst(kept)
  {
    var kept := First(ByNewest(capped), total);
    TotalKeepsSome(capped, total);
    SubsetNotTooOld(capped, kept, policy.(maxTotalSnapshots := None), policy, now);
    forall k
      ensures NewestFirst(Of(kept, k)) && |Of(kept, k)| <= |Of(capped, k)|
    {
      ChannelOfTotal(capped, k, total);
    }
    forall s | Dropped(s, before, kept)
      ensures TooOld(s, policy, now) || ChannelFull(kept, s, policy) || StoreFull(kept, s, policy)
    {
      TotalExplains(before, capped, policy, now, total, s);
    }
  }

  lemma TotalExplains(before: seq<ChannelSnapshot>, capped: seq<ChannelSnapshot>, policy: RetentionPolicy, now: int,
                      total: nat, s: ChannelSnapshot)
    requires Pruned(before, capped, policy.(maxTotalSnapshots := None), now) && EachNewestFirst(capped)
    requires policy.maxTotalSnapshots == Some(total) && Dropped(s, before, First(ByNewest(capped), total))
    ensures var kept := First(ByNewest(capped), total);
            TooOld(s, policy, now) || ChannelFull(kept, s, policy) || StoreFull(kept, s, policy)
  {
    var uncapped, kept := policy.(maxTotalSnapshots := None), First(ByNewest(capped), total);
    ByNewestSorts(capped);
    FirstDrops(ByNewest(capped), total, s);
    AtLeastMembers(kept, s.ts);
    if multiset(kept)[s] == multiset(capped)[s] {
      assert Dropped(s, before, capped);
      if !TooOld(s, uncapped, now) {
        assert ChannelFull(capped, s, policy);
        DisplacedTwice(capped, policy, total, s);
      }
    }
  }

  // What both channel limits leave of one channel.
  function KeptOfChannel(ss: seq<ChannelSnapshot>, k: ChannelKey, policy: RetentionPolicy, now: int)
    : seq<ChannelSnapshot>
  {
    var recent := RecentOfChannel(ss, k, policy, now);
    if policy.maxSnapshotsPerChannel.Some? then First(recent, policy.maxSnapshotsPerChannel.value) else recent
  }

  ghost predicate ByChannel(ss: seq<ChannelSnapshot>, groups: seq<ChannelSnapshot>, policy: RetentionPolicy, now: int) {
    Grouped(groups) && forall k :: Of(groups, k) == KeptOfChannel(ss, k, policy, now)
  }

  function CutToTotal(groups: seq<ChannelSnapshot>, policy: RetentionPolicy): seq<ChannelSnapshot> {
    if policy.maxTotalSnapshots.Some? then First(ByNewest(groups), policy.maxTotalSnapshots.value) else groups
  }

  /** The very sequence a pass leaves, ties included. */
  ghost predicate PrunedExactly(before: seq<ChannelSnapshot>, after: seq<ChannelSnapshot>, policy: RetentionPolicy,
                                now: int)
  {
    exists groups :: ByChannel(before, groups, policy, now) && after == CutToTotal(groups, policy)
  }

  /** There is only one. */
  lemma PrunedExactlyIsOne(before: seq<ChannelSnapshot>, a: seq<ChannelSnapshot>, b: seq<ChannelSnapshot>,
                           policy: RetentionPolicy, now: int)
    requires PrunedExactly(before, a, policy, now) && PrunedExactly(before, b, policy, now)
    ensures a == b
  {
    var x :| ByChannel(before, x, policy, now) && a == CutToTotal(x, policy);
    var y :| ByChannel(before, y, policy, now) && b == CutToTotal(y, policy);
    GroupedUnique(x, y);
  }

  lemma CappedByChannel(ss: seq<ChannelSnapshot>, recent: seq<ChannelSnapshot>, capped: seq<ChannelSnapshot>,
                        policy: RetentionPolicy, now: int)
    requires policy.maxSnapshotsPerChannel.Some? && Grouped(capped) && EachNewestFirst(recent)
    requires forall k :: Of(recent, k) == RecentOfChannel(ss, k, policy, now)
    requires forall k :: Of(capped, k) == NewestOfChannel(recent, k, policy.maxSnapshotsPerChannel.value)
    ensures ByChannel(ss, capped, policy, now)
  {
    forall k
      ensures Of(capped, k) == KeptOfChannel(ss, k, policy, now)
    {
      CapOfChannel(recent, k, policy.maxSnapshotsPerChannel.value);
    }
  }

  /** One pass over the stored snapshots. */
  method Prune(snapshots: seq<ChannelSnapshot>, policy: RetentionPolicy, now: int)
    returns (kept: seq<ChannelSnapshot>)
    ensures Pruned(snapshots, kept, policy, now) && EachNewestFirst(kept)
    ensures policy.maxTotalSnapshots.Some? ==> NewestFirst(kept)
    ensures PrunedExactly(snapshots, kept, policy, now)
  {
    ghost var byAge := policy.(maxSnapshotsPerChannel := None, maxTotalSnapshots := None);
    ghost var byChannel := policy.(maxTotalSnapshots := None);
    kept := WithoutTooOld(snapshots, policy, now);
    AgeIgnoresCaps(snapshots, kept, policy, now);
    AgePrunes(snapshots, kept, byAge, now);
    if policy.maxSnapshotsPerChannel.Some? {
      ghost var recent := kept;
      kept := Capped(kept, policy.maxSnapshotsPerChannel.value);
      CapPrunes(snapshots, recent, kept, byChannel, now, policy.maxSnapshotsPerChannel.value);
      CappedByChannel(snapshots, recent, kept, policy, now);
    }
    ghost var groups := kept;
    assert ByChannel(snapshots, groups, policy, now);
    if policy.maxTotalSnapshots.Some? {
      TotalPrunes(snapshots, kept, policy, now, policy.maxTotalSnapshots.value);
      kept := First(ByNewest(kept), policy.maxTotalSnapshots.value);
    }
    assert kept == CutToTotal(groups, policy);
  }

  // ---- What the bargain implies ----

  lemma TooManyOf(before: seq<ChannelSnapshot>, after: seq<ChannelSnapshot>, s: ChannelSnapshot)
    requires multiset(after) <= multiset(before) && Dropped(s, before, after)
    ensures |after| < |before| && |Of(after, Key(s))| < |Of(before, Key(s))|
  {
    StrictlyLess(multiset(after), multiset(before), s);
    forall t: ChannelSnapshot
      ensures multiset(Of(after, Key(s)))[t] <= multiset(Of(before, Key(s)))[t]
    {
      OfCounts(after, Key(s), t);
      OfCounts(before, Key(s), t);
    }
    OfCounts(after, Key(s), s);
    OfCounts(before, Key(s), s);
    StrictlyLess(multiset(Of(after, Key(s))), multiset(Of(before, Key(s))), s);
  }

  lemma KeptNoMore(before: seq<ChannelSnapshot>, after: seq<ChannelSnapshot>)
    requires multiset(after) <= multiset(before)
    ensures |after| <= |before|
  {
    assert multiset(before) == multiset(after) + (multiset(before) - multiset(after));
    assert |multiset(after)| == |after| && |multiset(before)| == |before|;
  }

  lemma StrictlyLess(a: multiset<ChannelSnapshot>, b: multiset<ChannelSnapshot>, s: ChannelSnapshot)
    requires a <= b && a[s] < b[s]
    ensures |a| < |b|
  {
    assert b == a + (b - a) && s in b - a;
  }

  /** A second pass at the same time finds nothing to delete. */
  lemma SecondPruneDeletesNothing(before: seq<ChannelSnapshot>, once: seq<ChannelSnapshot>,
                                  twice: seq<ChannelSnapshot>, policy: RetentionPolicy, now: int)
    requires Pruned(before, once, policy, now) && Pruned(once, twice, policy, now)
    ensures multiset(twice) == multiset(once) && |twice| == |once|
  {
    forall s: ChannelSnapshot
      ensures multiset(twice)[s] == multiset(once)[s]
    {
      if Dropped(s, once, twice) {
        assert s in multiset(once);
        assert s in once;
        TooManyOf(once, twice, s);
        assert false;
      }
    }
    assert |multiset(twice)| == |twice| && |multiset(once)| == |once|;
  }

  // ---- The bargain leaves one result only ----

  // No two snapshots carry the same time.
  ghost predicate Distinct(ss: seq<ChannelSnapshot>) {
    forall i, j | 0 <= i < j < |ss| :: ss[i].ts != ss[j].ts
  }

  lemma {:induction false} DistinctCounts(ss: seq<ChannelSnapshot>, s: ChannelSnapshot)
    requires Distinct(ss)
    ensures multiset(ss)[s] <= 1
  {
    if ss != [] {
      var init, last := ss[..|ss| - 1], ss[|ss| - 1];
      assert ss == init + [last];
      DistinctCounts(init, s);
      assert s in init ==> s != last;
    }
  }

  lemma DistinctMembers(ss: seq<ChannelSnapshot>, s: ChannelSnapshot, t: ChannelSnapshot)
    requires Distinct(ss) && s in ss && t in ss && s != t
    ensures s.ts != t.ts
  {
    var i :| 0 <= i < |ss| && ss[i] == s;
    var j :| 0 <= j < |ss| && ss[j] == t;
    assert i < j || j < i;
  }

  // `b` holds `s`, which `a` lacks, and is no longer than `a`: it lacks some of `a`.
  lemma Pigeonhole(a: multiset<ChannelSnapshot>, b: multiset<ChannelSnapshot>, s: ChannelSnapshot)
    returns (t: ChannelSnapshot)
    requires s in b && s !in a && |b| <= |a| && forall x | x in a :: a[x] <= 1
    ensures t in a && t !in b
  {
    if forall x | x in a :: x in b {
      assert forall x | x in a :: a[x] <= b[x];
      assert a <= b;
      StrictlyLess(a, b, s);
      t := s;
    } else {
      t :| t in a && t !in b;
    }
  }

  lemma KeptMember(before: seq<ChannelSnapshot>, after: seq<ChannelSnapshot>, s: ChannelSnapshot)
    requires multiset(after) <= multiset(before) && Distinct(before)
    ensures s in after ==> s in before
    ensures multiset(after)[s] <= 1
    ensures s in before && s !in after ==> Dropped(s, before, after)
  {
    DistinctCounts(before, s);
    assert s in after ==> s in multiset(after) && s in multiset(before);
    assert s in before ==> s in multiset(before);
    assert s !in after ==> s !in multiset(after);
  }

  // Whatever is kept of a channel is newer than what was displaced from it.
  lemma DisplacedIsOlder(before: seq<ChannelSnapshot>, after: seq<ChannelSnapshot>, policy: RetentionPolicy, now: int,
                         d: ChannelSnapshot, x: ChannelSnapshot)
    requires Distinct(before) && Pruned(before, after, policy, now)
    requires d in before && d !in after && !TooOld(d, policy, now) && x in after && Key(x) == Key(d)
    ensures x.ts > d.ts
  {
    KeptMember(before, after, d);
    KeptMember(before, after, x);
    OfMembers(after, Key(d), x);
    DistinctMembers(before, x, d);
  }

  lemma NoSwapWithinChannel(before: seq<ChannelSnapshot>, b: seq<ChannelSnapshot>, c: seq<ChannelSnapshot>,
                            policy: RetentionPolicy, now: int, s: ChannelSnapshot)
    requires Distinct(before) && Pruned(before, b, policy, now) && Pruned(before, c, policy, now)
    requires s in b && |Of(b, Key(s))| <= |Of(c, Key(s))|
    ensures s in c
  {
    if s !in c {
      var k := Key(s);
      OfMembers(b, k, s);
      OfMembers(c, k, s);
      forall x | x in multiset(Of(c, k))
        ensures multiset(Of(c, k))[x] <= 1
      {
        OfCounts(c, k, x);
        KeptMember(before, c, x);
      }
      var y := Pigeonhole(multiset(Of(c, k)), multiset(Of(b, k)), s);
      OfMembers(b, k, y);
      OfMembers(c, k, y);
      KeptMember(before, b, s);
      KeptMember(before, c, y);
      DisplacedIsOlder(before, c, policy, now, s, y);
      DisplacedIsOlder(before, b, policy, now, y, s);
    }
  }

  lemma NoSwapAcrossChannels(before: seq<ChannelSnapshot>, b: seq<ChannelSnapshot>, c: seq<ChannelSnapshot>,
                             policy: RetentionPolicy, now: int, s: ChannelSnapshot)
    requires Distinct(before) && Pruned(before, b, policy, now) && Pruned(before, c, policy, now)
    requires s in b && StoreFull(c, s, policy)
    ensures s in c
  {
    if s !in c {
      forall x | x in multiset(c)
        ensures multiset(c)[x] <= 1
      {
        KeptMember(before, c, x);
      }
      var y := Pigeonhole(multiset(c), multiset(b), s);
      KeptMember(before, b, s);
      KeptMember(before, c, y);
      KeptMember(before, b, y);
      DistinctMembers(before, y, s);
      assert !StoreFull(b, y, policy);
      NoSwapWithinChannel(before, c, b, policy, now, y);
    }
  }

  lemma KeptByOneKeptByBoth(before: seq<ChannelSnapshot>, b: seq<ChannelSnapshot>, c: seq<ChannelSnapshot>,
                            policy: RetentionPolicy, now: int, s: ChannelSnapshot)
    requires Distinct(before) && Pruned(before, b, policy, now) && Pruned(before, c, policy, now) && s in b
    ensures s in c
  {
    if s !in c {
      KeptMember(before, b, s);
      KeptMember(before, c, s);
      if ChannelFull(c, s, policy) {
        NoSwapWithinChannel(before, b, c, policy, now, s);
      } else {
        NoSwapAcrossChannels(before, b, c, policy, now, s);
      }
    }
  }

  /** When no two snapshots share a time, the ages and caps leave exactly one set
      of snapshots to keep. */
  lemma PruningIsDetermined(before: seq<ChannelSnapshot>, b: seq<ChannelSnapshot>, c: seq<ChannelSnapshot>,
                            policy: RetentionPolicy, now: int)
    requires Distinct(before) && Pruned(before, b, policy, now) && Pruned(before, c, policy, now)
    ensures multiset(b) == multiset(c)
  {
    forall s: ChannelSnapshot
      ensures multiset(b)[s] == multiset(c)[s]
    {
      KeptMember(before, b, s);
      KeptMember(before, c, s);
      assert s in multiset(b) <==> s in b;
      assert s in multiset(c) <==> s in c;
      if s in b {
        KeptByOneKeptByBoth(before, b, c, policy, now, s);
      } else if s in c {
        KeptByOneKeptByBoth(before, c, b, policy, now, s);
      }
    }
  }

  // ---- What the readers make of the new order ----

  function Reversed(ss: seq<ChannelSnapshot>): (r: seq<ChannelSnapshot>)
    ensures |r| == |ss| && forall i | 0 <= i < |ss| :: r[i] == ss[|ss| - 1 - i]
  {
    if ss == [] then [] else [ss[|ss| - 1]] + Reversed(ss[..|ss| - 1])
  }

  // `recent_channel_snapshots_for_network` for a known node: newest first, on the
  // understanding that rows are held in the order they were observed.
  function RecentChannelSnapshots(ss: seq<ChannelSnapshot>, k: ChannelKey, limit: nat): seq<ChannelSnapshot> {
    First(Reversed(Of(ss, k)), limit)
  }

  // No limit cuts off a snapshot newer than one it returns.
  ghost predicate ReadsNewest(ss: seq<ChannelSnapshot>, k: ChannelKey) {
    forall limit: nat, i, j | 0 <= i < limit <= j < |Of(ss, k)| ::
      RecentChannelSnapshots(ss, k, limit)[i].ts >= Reversed(Of(ss, k))[j].ts
  }

  ghost predicate OldestFirst(ss: seq<ChannelSnapshot>) {
    forall i, j | 0 <= i < j < |ss| :: ss[i].ts <= ss[j].ts
  }

  lemma OldestFirstReadsNewest(ss: seq<ChannelSnapshot>, k: ChannelKey)
    requires OldestFirst(Of(ss, k))
    ensures ReadsNewest(ss, k)
  {
    var o, n := Of(ss, k), |Of(ss, k)|;
    forall limit: nat, i, j | 0 <= i < limit <= j < n
      ensures RecentChannelSnapshots(ss, k, limit)[i].ts >= Reversed(o)[j].ts
    {
      assert o[n - 1 - j].ts <= o[n - 1 - i].ts;
    }
  }

  lemma ReadsNewestOrders(ss: seq<ChannelSnapshot>, k: ChannelKey, i: nat, j: nat)
    requires ReadsNewest(ss, k) && i < j < |Of(ss, k)|
    ensures Of(ss, k)[i].ts <= Of(ss, k)[j].ts
  {
    var n := |Of(ss, k)|;
    assert RecentChannelSnapshots(ss, k, n - j)[n - 1 - j].ts >= Reversed(Of(ss, k))[n - 1 - i].ts;
  }

  /** A limited read returns the newest snapshots exactly when the channel's rows
      are held oldest first. */
  lemma ReadsNewestIff(ss: seq<ChannelSnapshot>, k: ChannelKey)
    ensures ReadsNewest(ss, k) <==> OldestFirst(Of(ss, k))
  {
    var o, n := Of(ss, k), |Of(ss, k)|;
    if ReadsNewest(ss, k) {
      forall i, j | 0 <= i < j < n
        ensures o[i].ts <= o[j].ts
      {
        ReadsNewestOrders(ss, k, i, j);
      }
    } else if OldestFirst(o) {
      OldestFirstReadsNewest(ss, k);
    }
  }

  /** Pruning leaves each channel newest first. From then on a limited read
      returns the newest snapshots only if all of them carry the same time. */
  lemma AfterPruningReadsNewestIff(ss: seq<ChannelSnapshot>, k: ChannelKey)
    requires EachNewestFirst(ss)
    ensures ReadsNewest(ss, k) <==> forall i, j | 0 <= i < j < |Of(ss, k)| :: Of(ss, k)[i].ts == Of(ss, k)[j].ts
  {
    ReadsNewestIff(ss, k);
    assert NewestFirst(Of(ss, k));
  }

  // ---- Ages and caps in the policy's own terms ----

  // What is left of a channel that closed, or is about to, is kept for its own time. An
  // age of more than 2^63 - 1 milliseconds is none.
  function AgeLimit(policy: RetentionPolicy, status: ChannelStatus): nat {
    var age := match status
      case Closing => policy.closedChannelMaxAge
      case Closed => policy.closedChannelMaxAge
      case WaitingClose => policy.closedChannelMaxAge
      case ForceClosing => policy.closedChannelMaxAge
      case _ => policy.snapshotMaxAge;
    if age <= 0x7FFF_FFFF_FFFF_FFFF * 1_000_000 then age else 0
  }

  lemma TooOldIff(s: ChannelSnapshot, policy: RetentionPolicy, now: int)
    ensures TooOld(s, policy, now) <==> now - s.ts > AgeLimit(policy, s.state.status)
  {}

  predicate SameChannel(a: ChannelSnapshot, b: ChannelSnapshot) {
    && a.state.network == b.state.network && a.state.nodeId == b.state.nodeId
    && a.state.channelId == b.state.channelId
  }

  // The positions at which snapshots of that channel stand.
  function OfChannelOf(ss: seq<ChannelSnapshot>, s: ChannelSnapshot): set<nat> {
    set i: nat | 0 <= i < |ss| && SameChannel(ss[i], s)
  }

  lemma {:induction false} OfCountsPositions(ss: seq<ChannelSnapshot>, s: ChannelSnapshot)
    ensures |Of(ss, Key(s))| == |OfChannelOf(ss, s)|
  {
    if ss != [] {
      var n: nat := |ss| - 1;
      OfCountsPositions(ss[..n], s);
      assert OfChannelOf(ss, s) == OfChannelOf(ss[..n], s) + (if SameChannel(ss[n], s) then {n} else {});
    }
  }

  /** What a pass keeps is within the age of its status and within both caps; what
      it drops is beyond that age, or displaced by as many snapshots at least as
      new as the cap of its channel or of the store allows. */
  lemma PrunedByAgesAndCaps(before: seq<ChannelSnapshot>, after: seq<ChannelSnapshot>, policy: RetentionPolicy,
                            now: int, s: ChannelSnapshot)
    requires Pruned(before, after, policy, now)
    ensures s in after ==> s in before && now - s.ts <= AgeLimit(policy, s.state.status)
    ensures policy.maxSnapshotsPerChannel.Some? ==> |OfChannelOf(after, s)| <= policy.maxSnapshotsPerChannel.value
    ensures policy.maxTotalSnapshots.Some? ==> |after| <= policy.maxTotalSnapshots.value
    ensures s in before && s !in after ==>
              || now - s.ts > AgeLimit(policy, s.state.status)
              || (policy.maxSnapshotsPerChannel == Some(|OfChannelOf(after, s)|) &&
                  forall t | t in after && SameChannel(t, s) :: t.ts >= s.ts)
              || (policy.maxTotalSnapshots == Some(|after|) && forall t | t in after :: t.ts >= s.ts)
  {
    TooOldIff(s, policy, now);
    OfCountsPositions(after, s);
    if s in after {
      assert s in multiset(after) && s in multiset(before);
    }
    if s in before && s !in after {
      assert s in multiset(before) && s !in multiset(after);
      assert Dropped(s, before, after);
      forall t | t in after && SameChannel(t, s)
        ensures t in Of(after, Key(s))
      {
        OfMembers(after, Key(s), t);
      }
    }
  }

  // ---- A store that a pass leaves misread ----

  const DEFAULT_POLICY := RetentionPolicy(2_592_000_000_000_000, 259_200_000_000_000, None, None)

  function Observed(ts: int): ChannelSnapshot {
    ChannelSnapshot(SnapshotState(None, None, "c", 0.0, 0, 0, 0, ChannelStatus.Active, 0, 0), None, ts)
  }

  const TWO_ROWS: seq<ChannelSnapshot> := [Observed(1), Observed(2)]

  lemma TwoRowsOfOneChannel()
    ensures Of(TWO_ROWS, Key(Observed(1))) == TWO_ROWS && ByNewest(TWO_ROWS) == [Observed(2), Observed(1)]
  {
    OfOneChannel(TWO_ROWS, Key(Observed(1)), Key(Observed(1)));
    assert TWO_ROWS[..1] == [Observed(1)] && [Observed(1)][..0] == [];
    assert ByNewest([Observed(1)]) == [Observed(1)];
    assert Inserted([Observed(1)], Observed(2)) == Inserted([], Observed(2)) + [Observed(1)];
  }

  lemma {:induction false} AllRecent(ss: seq<ChannelSnapshot>, policy: RetentionPolicy, now: int)
    requires forall i | 0 <= i < |ss| :: !TooOld(ss[i], policy, now)
    ensures Recent(ss, policy, now) == ss
  {
    if ss != [] {
      var n := |ss| - 1;
      AllRecent(ss[..n], policy, now);
      assert ss == ss[..n] + [ss[n]];
    }
  }

  lemma NewestFirstRowsRecent()
    ensures Recent([Observed(2), Observed(1)], DEFAULT_POLICY, 2) == [Observed(2), Observed(1)]
  {
    AllRecent([Observed(2), Observed(1)], DEFAULT_POLICY, 2);
  }

  lemma FirstOfReversed(ss: seq<ChannelSnapshot>)
    requires |ss| == 2
    ensures First(Reversed(ss), 1) == [ss[1]]
  {}

  lemma TwoRowsAfter(after: seq<ChannelSnapshot>)
    requires PrunedExactly(TWO_ROWS, after, DEFAULT_POLICY, 2)
    ensures Of(after, Key(Observed(1))) == [Observed(2), Observed(1)]
  {
    var k, newest := Key(Observed(1)), [Observed(2), Observed(1)];
    TwoRowsOfOneChannel();
    NewestFirstRowsRecent();
    var groups :| ByChannel(TWO_ROWS, groups, DEFAULT_POLICY, 2) && after == CutToTotal(groups, DEFAULT_POLICY);
    assert Of(after, k) == KeptOfChannel(TWO_ROWS, k, DEFAULT_POLICY, 2);
  }

  /** Two rows in time order read back newest first; once a pass with the default
      policy has kept them both, a read of one returns the older. */
  lemma PruningMisreadsTwoRows(after: seq<ChannelSnapshot>)
    requires PrunedExactly(TWO_ROWS, after, DEFAULT_POLICY, 2)
    ensures RecentChannelSnapshots(TWO_ROWS, Key(Observed(1)), 1) == [Observed(2)]
    ensures RecentChannelSnapshots(after, Key(Observed(1)), 1) == [Observed(1)]
  {
    TwoRowsOfOneChannel();
    TwoRowsAfter(after);
    FirstOfReversed(TWO_ROWS);
    FirstOfReversed([Observed(2), Observed(1)]);
  }
}
