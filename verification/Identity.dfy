/** The byte preimages of crates/rieko-findings/src/identity.rs and the parsers
    that recover every field from them. Texts are their UTF-8 bytes. */
module Identity {
  import opened Wrappers
  import opened Sequences
  import opened Numbers
  import opened Domain

  type byte = x: int | 0 <= x < 256
  type bytes = seq<byte>

  // ---- Big-endian integers ----

  function BigEndian(n: nat, width: nat): (b: bytes)
    ensures |b| == width
  {
    if width == 0 then [] else BigEndian(n / 256, width - 1) + [n % 256]
  }

  function FromBigEndian(b: bytes): nat {
    if b == [] then 0 else 256 * FromBigEndian(b[..|b| - 1]) + b[|b| - 1]
  }

  function Power256(width: nat): nat {
    if width == 0 then 1 else 256 * Power256(width - 1)
  }

  lemma {:induction false} BigEndianRoundTrip(n: nat, width: nat)
    requires n < Power256(width)
    ensures FromBigEndian(BigEndian(n, width)) == n
  {
    if width > 0 {
      var b := BigEndian(n, width);
      assert b[..|b| - 1] == BigEndian(n / 256, width - 1);
      BigEndianRoundTrip(n / 256, width - 1);
    }
  }

  const LENGTH_LIMIT: nat := 0x1_0000_0000_0000_0000

  lemma Power256Of8()
    ensures Power256(8) == LENGTH_LIMIT && Power256(4) == 0x1_0000_0000 && Power256(1) == 256
  {
    assert Power256(2) == 65536 && Power256(4) == 65536 * 65536;
    assert Power256(6) == 65536 * Power256(4) && Power256(8) == 65536 * Power256(6);
  }

  // ---- Frames: what `field` and `optional_field` feed to the hasher ----

  // A `&[u8]` is never longer than `u64::MAX`.
  type Text = b: bytes | |b| < 0x1_0000_0000_0000_0000

  datatype Item = Plain(text: Text) | Maybe(value: Option<Text>)
  datatype Shape = PlainShape | MaybeShape

  function Field(b: Text): bytes { BigEndian(|b|, 8) + b }

  function OptionalField(v: Option<Text>): bytes {
    match v
    case Some(b) => [1] + Field(b)
    case None => [0]
  }

  function EncodeItem(item: Item): bytes {
    match item
    case Plain(b) => Field(b)
    case Maybe(v) => OptionalField(v)
  }

  function Encode(items: seq<Item>): bytes {
    if items == [] then [] else EncodeItem(items[0]) + Encode(items[1..])
  }

  function ShapeOf(items: seq<Item>): seq<Shape> {
    seq(|items|, i requires 0 <= i < |items| => if items[i].Plain? then PlainShape else MaybeShape)
  }

  // ---- The inverse parser ----

  function ParseField(s: bytes): Option<(Text, bytes)> {
    if |s| < 8 then None
    else
      var n := FromBigEndian(s[..8]);
      if n > |s| - 8 || n >= LENGTH_LIMIT then None else Some((s[8..8 + n], s[8 + n..]))
  }

  function ParseItem(shape: Shape, s: bytes): Option<(Item, bytes)> {
    match shape
    case PlainShape =>
      (match ParseField(s)
       case None => None
       case Some((b, rest)) => Some((Plain(b), rest)))
    case MaybeShape =>
      if s == [] then None
      else if s[0] == 0 then Some((Maybe(None), s[1..]))
      else if s[0] == 1 then
        (match ParseField(s[1..])
         case None => None
         case Some((b, rest)) => Some((Maybe(Some(b)), rest)))
      else None
  }

  function Parse(shapes: seq<Shape>, s: bytes): Option<(seq<Item>, bytes)> {
    if shapes == [] then Some(([], s))
    else
      match ParseItem(shapes[0], s)
      case None => None
      case Some((item, rest)) =>
        match Parse(shapes[1..], rest)
        case None => None
        case Some((items, left)) => Some(([item] + items, left))
  }

  lemma FieldRoundTrip(b: Text, rest: bytes)
    ensures ParseField(Field(b) + rest) == Some((b, rest))
  {
    var s := Field(b) + rest;
    assert s[..8] == BigEndian(|b|, 8);
    Power256Of8();
    BigEndianRoundTrip(|b|, 8);
    assert s[8..8 + |b|] == b && s[8 + |b|..] == rest;
  }

  lemma ItemRoundTrip(item: Item, rest: bytes)
    ensures ParseItem(if item.Plain? then PlainShape else MaybeShape, EncodeItem(item) + rest) == Some((item, rest))
  {
    match item
    case Plain(b) => FieldRoundTrip(b, rest);
    case Maybe(Some(b)) =>
      FieldRoundTrip(b, rest);
      assert (EncodeItem(item) + rest)[1..] == Field(b) + rest;
    case Maybe(None) =>
      assert (EncodeItem(item) + rest)[1..] == rest;
  }

  lemma ShapeOfTail(items: seq<Item>)
    requires items != []
    ensures ShapeOf(items)[0] == (if items[0].Plain? then PlainShape else MaybeShape)
    ensures ShapeOf(items)[1..] == ShapeOf(items[1..])
  {}

  lemma ParseCons(shapes: seq<Shape>, items: seq<Item>, s: bytes, mid: bytes, rest: bytes)
    requires shapes != [] && items != []
    requires ParseItem(shapes[0], s) == Some((items[0], mid)) && Parse(shapes[1..], mid) == Some((items[1..], rest))
    ensures Parse(shapes, s) == Some((items, rest))
  {
    assert [items[0]] + items[1..] == items;
  }

  /** Parsing an encoding recovers every item and leaves what follows it. */
  lemma {:induction false} EncodeRoundTrip(items: seq<Item>, rest: bytes)
    ensures Parse(ShapeOf(items), Encode(items) + rest) == Some((items, rest))
  {
    if items == [] {
      assert Encode(items) + rest == rest;
    } else {
      Associates(EncodeItem(items[0]), Encode(items[1..]), rest);
      ItemRoundTrip(items[0], Encode(items[1..]) + rest);
      EncodeRoundTrip(items[1..], rest);
      ShapeOfTail(items);
      ParseCons(ShapeOf(items), items, Encode(items) + rest, Encode(items[1..]) + rest, rest);
    }
  }

  lemma EncodingIsInjective(a: seq<Item>, b: seq<Item>)
    requires ShapeOf(a) == ShapeOf(b) && Encode(a) == Encode(b)
    ensures a == b
  {
    EncodeRoundTrip(a, []);
    EncodeRoundTrip(b, []);
    assert Encode(a) + [] == Encode(b) + [];
  }

  // ---- The hasher ----

  // `items` records what has been fed, frame by frame.
  class Hasher {
    var fed: bytes
    ghost var items: seq<Item>

    ghost predicate Valid()
      reads this
    {
      fed == Encode(items)
    }

    constructor ()
      ensures Valid() && items == []
    {
      fed, items := [], [];
    }

    method Update(b: bytes)
      modifies `fed
      ensures fed == old(fed) + b
    {
      fed := fed + b;
    }

    method Frame(b: Text)
      modifies `fed
      ensures fed == old(fed) + Field(b)
    {
      Update(BigEndian(|b|, 8));
      Update(b);
    }

    method WriteField(b: Text)
      requires Valid()
      modifies this
      ensures Valid() && items == old(items) + [Plain(b)]
    {
      Frame(b);
      EncodePush(items, Plain(b));
      items := items + [Plain(b)];
    }

    method WriteOptionalField(v: Option<Text>)
      requires Valid()
      modifies this
      ensures Valid() && items == old(items) + [Maybe(v)]
    {
      match v {
        case Some(b) =>
          Associates(fed, [1], Field(b));
          Update([1]);
          Frame(b);
        case None =>
          Update([0]);
      }
      EncodePush(items, Maybe(v));
      items := items + [Maybe(v)];
    }
  }

  lemma {:induction false} EncodePush(items: seq<Item>, item: Item)
    ensures Encode(items + [item]) == Encode(items) + EncodeItem(item)
  {
    if items == [] {
      assert ([] + [item])[1..] == [];
    } else {
      assert (items + [item])[1..] == items[1..] + [item];
      EncodePush(items[1..], item);
    }
  }

  // ---- The identities ----

  function AsciiByte(c: char): byte
    requires c as int < 128
  {
    c as int
  }

  // ASCII texts, whose UTF-8 bytes are their character codes.
  function Ascii(s: string): bytes
    requires forall c | c in s :: c as int < 128
  {
    seq<byte>(|s|, i requires 0 <= i < |s| => assert s[i] in s; AsciiByte(s[i]))
  }

  const FINDING_TAG: Text := Ascii("rieko-finding-v2")
  const SNAPSHOT_TAG: Text := Ascii("rieko-channel-snapshot-state-v3")

  function NetworkName(n: BitcoinNetwork): Text {
    match n
    case Mainnet => Ascii("mainnet")
    case Testnet => Ascii("testnet")
    case Signet => Ascii("signet")
    case Regtest => Ascii("regtest")
  }

  function NetworkItem(n: Option<BitcoinNetwork>): Item {
    Maybe(if n.None? then None else Some(NetworkName(n.value)))
  }

  lemma NetworkNamesDiffer(a: Option<BitcoinNetwork>, b: Option<BitcoinNetwork>)
    requires NetworkItem(a) == NetworkItem(b)
    ensures a == b
  {
    if a.Some? && b.Some? {
      var x, y := NetworkName(a.value), NetworkName(b.value);
      assert |NetworkName(Mainnet)| == 7 && NetworkName(Mainnet)[0] == 'm' as int;
      assert |NetworkName(Testnet)| == 7 && NetworkName(Testnet)[0] == 't' as int;
      assert |NetworkName(Signet)| == 6;
      assert |NetworkName(Regtest)| == 7 && NetworkName(Regtest)[0] == 'r' as int;
      assert x == y;
    }
  }

  datatype FindingFields = FindingFields(
    detector: Text, detectorVersion: Text, network: Option<BitcoinNetwork>, node: Option<Text>, channel: Option<Text>)

  function FindingItems(f: FindingFields): seq<Item> {
    [Plain(FINDING_TAG), Plain(f.detector), Plain(f.detectorVersion), NetworkItem(f.network), Maybe(f.node),
     Maybe(f.channel)]
  }

  method FindingPreimage(f: FindingFields) returns (b: bytes)
    ensures b == Encode(FindingItems(f))
  {
    var m := new Hasher();
    m.WriteField(FINDING_TAG);
    m.WriteField(f.detector);
    m.WriteField(f.detectorVersion);
    m.WriteOptionalField(if f.network.None? then None else Some(NetworkName(f.network.value)));
    m.WriteOptionalField(f.node);
    m.WriteOptionalField(f.channel);
    assert m.items == FindingItems(f);
    b := m.fed;
  }

  /** Two findings share a preimage only if they agree on detector, version,
      network, node and channel. */
  lemma FindingPreimageDeterminesTheFinding(a: FindingFields, b: FindingFields)
    requires Encode(FindingItems(a)) == Encode(FindingItems(b))
    ensures a == b
  {
    EncodingIsInjective(FindingItems(a), FindingItems(b));
    assert forall i | 0 <= i < 6 :: FindingItems(a)[i] == FindingItems(b)[i];
    NetworkNamesDiffer(a.network, b.network);
  }

  function StatusTag(s: ChannelStatus): byte {
    match s
    case Opening => 0
    case Active => 1
    case Inactive => 2
    case Closing => 3
    case Closed => 4
    case PendingOpen => 5
    case WaitingClose => 6
    case ForceClosing => 7
    case Unknown => 8
  }

  // The f64 ratio enters as the eight bytes of its bit pattern.
  datatype SnapshotFields = SnapshotFields(
    nodeId: Option<Text>, network: Option<BitcoinNetwork>, channelId: Text, localRatioBits: u64,
    localBalanceMsat: u64, remoteBalanceMsat: u64, capacityMsat: u64, status: ChannelStatus,
    spendableOutboundMsat: u64, spendableInboundMsat: u64)

  function Number(n: u64): Item { Plain(BigEndian(n, 8)) }

  function SnapshotItems(s: SnapshotFields): seq<Item> {
    [Plain(SNAPSHOT_TAG), Maybe(s.nodeId), NetworkItem(s.network), Plain(s.channelId), Number(s.localRatioBits),
     Number(s.localBalanceMsat), Number(s.remoteBalanceMsat), Number(s.capacityMsat), Plain([StatusTag(s.status)]),
     Number(s.spendableOutboundMsat), Number(s.spendableInboundMsat)]
  }

  lemma NumbersDiffer(a: u64, b: u64)
    requires Number(a) == Number(b)
    ensures a == b
  {
    Power256Of8();
    BigEndianRoundTrip(a, 8);
    BigEndianRoundTrip(b, 8);
  }

  lemma StatusTagsDiffer(a: ChannelStatus, b: ChannelStatus)
    requires Plain([StatusTag(a)]) == Plain([StatusTag(b)])
    ensures a == b
  {
    assert [StatusTag(a)][0] == [StatusTag(b)][0];
  }

  lemma SameShapes(a: SnapshotFields, b: SnapshotFields)
    ensures ShapeOf(SnapshotItems(a)) == ShapeOf(SnapshotItems(b))
  {}

  lemma SameItems(a: SnapshotFields, b: SnapshotFields)
    requires SnapshotItems(a) == SnapshotItems(b)
    ensures a.nodeId == b.nodeId && NetworkItem(a.network) == NetworkItem(b.network) && a.channelId == b.channelId
    ensures Number(a.localRatioBits) == Number(b.localRatioBits)
    ensures Number(a.localBalanceMsat) == Number(b.localBalanceMsat)
    ensures Number(a.remoteBalanceMsat) == Number(b.remoteBalanceMsat)
    ensures Number(a.capacityMsat) == Number(b.capacityMsat)
    ensures Plain([StatusTag(a.status)]) == Plain([StatusTag(b.status)])
    ensures Number(a.spendableOutboundMsat) == Number(b.spendableOutboundMsat)
    ensures Number(a.spendableInboundMsat) == Number(b.spendableInboundMsat)
  {
    var x, y := SnapshotItems(a), SnapshotItems(b);
    assert x[1] == y[1] && x[2] == y[2] && x[3] == y[3] && x[4] == y[4] && x[5] == y[5] && x[6] == y[6];
    assert x[7] == y[7] && x[8] == y[8] && x[9] == y[9] && x[10] == y[10];
  }

  /** Two snapshots share a state preimage only if they agree on every field the
      digest covers, that is on all but the observation time. */
  lemma SnapshotPreimageDeterminesTheState(a: SnapshotFields, b: SnapshotFields)
    requires Encode(SnapshotItems(a)) == Encode(SnapshotItems(b))
    ensures a == b
  {
    SameShapes(a, b);
    EncodingIsInjective(SnapshotItems(a), SnapshotItems(b));
    SameItems(a, b);
    SameState(a, b);
  }

  lemma SameState(a: SnapshotFields, b: SnapshotFields)
    requires a.nodeId == b.nodeId && NetworkItem(a.network) == NetworkItem(b.network) && a.channelId == b.channelId
    requires Number(a.localRatioBits) == Number(b.localRatioBits)
    requires Number(a.localBalanceMsat) == Number(b.localBalanceMsat)
    requires Number(a.remoteBalanceMsat) == Number(b.remoteBalanceMsat)
    requires Number(a.capacityMsat) == Number(b.capacityMsat)
    requires Plain([StatusTag(a.status)]) == Plain([StatusTag(b.status)])
    requires Number(a.spendableOutboundMsat) == Number(b.spendableOutboundMsat)
    requires Number(a.spendableInboundMsat) == Number(b.spendableInboundMsat)
    ensures a == b
  {
    NetworkNamesDiffer(a.network, b.network);
    NumbersDiffer(a.localRatioBits, b.localRatioBits);
    NumbersDiffer(a.localBalanceMsat, b.localBalanceMsat);
    NumbersDiffer(a.remoteBalanceMsat, b.remoteBalanceMsat);
    NumbersDiffer(a.capacityMsat, b.capacityMsat);
    NumbersDiffer(a.spendableOutboundMsat, b.spendableOutboundMsat);
    NumbersDiffer(a.spendableInboundMsat, b.spendableInboundMsat);
    StatusTagsDiffer(a.status, b.status);
  }

  /** No finding and no snapshot state have the same preimage. */
  lemma PreimageFamiliesAreDisjoint(f: FindingFields, s: SnapshotFields)
    ensures Encode(FindingItems(f)) != Encode(SnapshotItems(s))
  {
    var x, y := Encode(FindingItems(f)), Encode(SnapshotItems(s));
    FieldRoundTrip(FINDING_TAG, Encode(FindingItems(f)[1..]));
    FieldRoundTrip(SNAPSHOT_TAG, Encode(SnapshotItems(s)[1..]));
    assert ParseField(x).value.0 == FINDING_TAG && ParseField(y).value.0 == SNAPSHOT_TAG;
    assert |FINDING_TAG| == 16 && |SNAPSHOT_TAG| == 31;
  }
}
