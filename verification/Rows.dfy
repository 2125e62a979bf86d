/** The database rows the sale engine reads and writes, one datatype a table.
    Identifiers stand for uuids and are only compared for equality; clock
    readings are milliseconds; amounts are paise. */
module Rows {

  datatype Option<+T> = None | Some(value: T)
  datatype Result<+T, +E> = Success(value: T) | Failure(error: E)

  type UserId = int
  type BankId = int
  type VehicleId = int
  type LotId = int
  type OrderId = int
  type PaymentId = int
  type Time = int

  datatype Role = Buyer | BankStaff | Admin | SuperAdmin
  datatype User = User(id: UserId, role: Role, bankId: Option<BankId>)

  datatype SaleType = Auction | BuyNow | LotSale | Hybrid
  datatype VehicleStatus = Draft | PendingApproval | Live | OnHold | Sold | Withdrawn | CancelledListing
  datatype LotStatus = DraftLot | Open | Private | Closed | Awarded | CancelledLot
  datatype OrderStatus =
    Held | PaymentPending | Paid | ReadyForPickup | PickupInProgress | Collected | Expired | RefundedOrder
        | CancelledOrder
  datatype PaymentStatus = Initiated | Authorized | Captured | Failed | Refunded | PartialRefund

  /** The four bidding columns that a vehicle row and a lot row share. */
  datatype AuctionState = AuctionState(
    currentBid: int, currentBidder: Option<UserId>, bidCount: int, endAt: Option<Time>)

  datatype Vehicle = Vehicle(
    bankId: BankId,
    saleType: SaleType,
    reservePrice: int,
    buyNowPrice: Option<int>,
    startingBid: Option<int>,
    auction: AuctionState,
    autoExtendCount: int,
    status: VehicleStatus,
    heldBy: Option<UserId>,
    heldUntil: Option<Time>,
    lockVersion: int,
    lotId: Option<LotId>,
    soldTo: Option<UserId>,
    soldAt: Option<Time>,
    soldPrice: Option<int>)

  datatype Lot = Lot(
    lotNumber: int,
    bankId: BankId,
    vehicleCount: int,
    reservePrice: int,
    auction: AuctionState,
    isPrivate: bool,
    status: LotStatus)

  /** A bid row names a vehicle or a lot. */
  datatype Target = OnVehicle(vehicle: VehicleId) | OnLot(lot: LotId)
  datatype Bid = Bid(target: Target, bidder: UserId, amount: int, isWinning: bool)

  /** "RPX-middle-last": order number and pickup pass in one. */
  datatype Pass = Pass(middle: int, last: int)

  /** An ideal hash: it matches exactly the code it was made from. */
  datatype OtpHash = OtpHash(otp: int)

  datatype Order = Order(
    buyer: UserId,
    bankId: BankId,
    vehicleId: Option<VehicleId>,
    saleType: SaleType,
    base: int,
    fee: int,
    gst: int,
    total: int,
    pass: Pass,
    status: OrderStatus,
    heldUntil: Option<Time>,
    paidAt: Option<Time>,
    collectedAt: Option<Time>,
    expiredAt: Option<Time>,
    otpHash: Option<OtpHash>,
    otpExpiresAt: Option<Time>,
    verifiedBy: Option<UserId>)

  datatype Payment = Payment(
    orderId: OrderId,
    amount: int,
    rzOrderId: Option<string>,
    rzPaymentId: Option<string>,
    status: PaymentStatus,
    capturedAt: Option<Time>,
    refundedAt: Option<Time>,
    refundAmount: Option<int>)

  datatype InvoiceNumber = InvoiceNumber(year: int, block: int)
  datatype Invoice = Invoice(orderId: OrderId, number: InvoiceNumber)

  datatype Bank = Bank(vehiclesSold: int, totalRecovered: int)

  /** A Redis counter and the moment its key lapses. */
  datatype Counter = Counter(count: int, expiresAt: Time)
  datatype GateKey = HoldGate(user: UserId) | BidGate(user: UserId)

  type Vehicles = map<VehicleId, Vehicle>
  type Lots = map<LotId, Lot>
  type Orders = map<OrderId, Order>
  type Payments = map<PaymentId, Payment>
  type Events = map<string, bool>
  type Counters = map<GateKey, Counter>

  /** The tables a settlement writes besides the vehicle's; invoices in the order they were issued. */
  datatype Sales = Sales(orders: Orders, payments: Payments, invoices: seq<Invoice>, banks: map<BankId, Bank>)

  /** All tables; bids in the order they were inserted. */
  datatype Db = Db(
    vehicles: Vehicles,
    lots: Lots,
    bids: seq<Bid>,
    sales: Sales,
    events: Events,
    approvals: set<(LotId, UserId)>,
    counters: Counters)

  datatype Config = Config(
    holdMs: int,
    vehicleIncrement: int,
    lotIncrement: int,
    snipeWindow: int,
    snipeExtension: int,
    holdThreshold: int,
    bidThreshold: int)

  datatype Error =
    BadRequest | Forbidden | NotFound | Conflict | Gone | TooManyAttempts | GatewayDown | UniqueViolation
        | RecordMissing

  datatype Reply =
    | BidPlaced(amount: int, endAt: Option<Time>)
    | HoldPlaced(until: Time)
    | Swept(count: int)
    | Updated
    | CheckedOut(orderId: OrderId, total: int)
    | AlreadyPaid
    | Settled
    | OtpIssued(expiresAt: Time)
    | HandedOver
    | EventProcessed
    | EventDeduplicated
    | EventFailed
    | LotCreated
    | BidderApproved

  datatype Outcome = Ok(reply: Reply) | Err(error: Error)

  /** What a call leaves in the tables it writes, and its answer. */
  datatype Write<+T> = Write(rows: T, out: Outcome)

  /** What a call leaves in the whole database, and its answer. */
  datatype Step = Step(db: Db, out: Outcome)

  /** JavaScript truthiness of an optional string. */
  predicate Truthy(s: Option<string>) {
    s.Some? && s.value != ""
  }
}
