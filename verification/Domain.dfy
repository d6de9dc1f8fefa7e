/** Channels and their derived liquidity view (crates/rieko-domain). */
module Domain {
  import opened Numbers
  import opened Wrappers

  type NodeId = string
  type ChannelId = string

  datatype BitcoinNetwork = Mainnet | Testnet | Signet | Regtest

  datatype ChannelStatus =
    | Opening | Active | Inactive | Closing | Closed
    | PendingOpen | WaitingClose | ForceClosing | Unknown
  {
    predicate IsOpen() { Active? || Opening? || PendingOpen? }
    predicate IsClosed() { Closed? || Closing? || WaitingClose? || ForceClosing? }
  }

  datatype FeePolicy = FeePolicy(
    baseFeeMsat: u64, feeRatePpm: u64, minHtlcMsat: u64, maxHtlcMsat: Option<u64>, cltvDelta: nat)

  datatype LiquidityImbalance =
    Balanced | OutboundDrained | InboundDrained | SeverelyDrained | UnknownImbalance

  datatype LiquidityProfile = LiquidityProfile(
    localRatio: real,
    localBalanceMsat: u64,
    remoteBalanceMsat: u64,
    inboundCapacityMsat: u64,
    outboundCapacityMsat: u64,
    spendableOutboundMsat: u64,
    spendableInboundMsat: u64,
    imbalance: LiquidityImbalance)

  datatype Channel = Channel(
    id: ChannelId,
    node: NodeId,
    peer: NodeId,
    channelPoint: string,
    capacityMsat: u64,
    feePolicy: FeePolicy,
    status: ChannelStatus,
    liquidity: LiquidityProfile,
    lastSeen: int,
    openingHeight: Option<nat>,
    localReserveMsat: Option<u64>,
    remoteReserveMsat: Option<u64>,
    isPrivate: bool,
    isInitiator: bool,
    totalSentMsat: Option<u64>,
    totalReceivedMsat: Option<u64>)

  // ---- Telemetry (crates/rieko-domain/src/events.rs), down to what its consumers read ----

  datatype PaymentStatus = InFlight | Succeeded | Failed
  datatype Invoice = Invoice(id: string, storeId: Option<string>, timestamp: int)

  datatype NodeEvent =
    | InvoiceSettled(invoice: Invoice)
    | InvoiceExpired(invoice: Invoice)
    | InvoicePaymentReceived(invoice: Invoice)
    | PaymentAttempt(status: PaymentStatus)
    | PaymentMetric(status: PaymentStatus)
    | ForwardRouted
    | ChannelStateChanged
    | PeerStatusChanged
    | SnapshotUpdated
  {
    predicate IsInvoice() { InvoiceSettled? || InvoiceExpired? || InvoicePaymentReceived? }
  }
}
