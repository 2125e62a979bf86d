/** The services behind one database and one Redis. Every call they answer, one at a time, is
    exactly one step of the L1 machine, so all that is proved about its runs holds of them. */
module Server {
  import opened Rows
  import opened Storage
  import opened Machine
  import opened VehiclesModule
  import opened BidsModule
  import opened OrdersModule
  import opened PickupModule
  import opened PaymentsWebhook
  import opened LotsModule
  import AttemptGate
  import BidsSpec
  import VehiclesSpec
  import OrdersSpec
  import PickupSpec
  import WebhookSpec
  import LotsSpec
  import UniqueColumns

  class AppModule {
    const cfg: Config
    const prisma: PrismaService
    const redis: RedisService
    const vehicles: VehiclesService
    const bids: BidsService
    const orders: OrdersService
    const pickup: PickupService
    const webhooks: PaymentsWebhookController
    const lots: LotsService

    /** All services share the two stores and the configuration. */
    ghost predicate Wired() {
      && vehicles.prisma == bids.prisma == orders.prisma == pickup.prisma == webhooks.prisma == lots.prisma == prisma
      && vehicles.redis == bids.redis == redis
      && vehicles.cfg == bids.cfg == orders.cfg == cfg
    }

    constructor (cfg: Config, prisma: PrismaService, redis: RedisService)
      ensures Wired() && this.cfg == cfg && this.prisma == prisma && this.redis == redis
    {
      this.cfg, this.prisma, this.redis := cfg, prisma, redis;
      vehicles := new VehiclesService(prisma, redis, cfg);
      bids := new BidsService(prisma, redis, cfg);
      orders := new OrdersService(prisma, cfg);
      pickup := new PickupService(prisma);
      webhooks := new PaymentsWebhookController(prisma);
      lots := new LotsService(prisma);
    }

    /** The service that answers a call. */
    method Dispatch(e: Event) returns (out: Outcome)
      requires Wired() && prisma.Valid()
      modifies prisma, redis
      ensures Step(Snapshot(prisma, redis), out) == Apply(cfg, old(Snapshot(prisma, redis)), e)
    {
      hide UniqueColumns.RowsValid;
      hide AttemptGate.Attempt, BidsSpec.BidOnVehicle, BidsSpec.BidOnLot;
      hide VehiclesSpec.Hold, VehiclesSpec.ReleaseExpiredHolds, VehiclesSpec.UpdatePrices;
      hide OrdersSpec.StartCheckout, OrdersSpec.VerifyPayment, OrdersSpec.ExpireOverdueOrders;
      hide PickupSpec.Scan, PickupSpec.Complete, WebhookSpec.Webhook, LotsSpec.CreateLot, LotsSpec.ApproveBidder;
      match e.action
      case BidOnVehicle(user, id, amount) =>
        out := bids.BidOnVehicle(user, id, amount, e.now);
      case BidOnLot(user, id, amount) =>
        out := bids.BidOnLot(user, id, amount, e.now);
      case Hold(user, id) =>
        out := vehicles.Hold(user, id, e.now);
      case ReleaseExpiredHolds =>
        out := vehicles.ReleaseExpiredHolds(e.now);
      case UpdatePrices(user, id, reserve, buyNow) =>
        out := vehicles.UpdatePrices(user, id, reserve, buyNow);
      case StartCheckout(user, id, ids, feeBp, gstBp) =>
        out := orders.StartCheckout(user, id, ids, feeBp, gstBp, e.now);
      case VerifyPayment(user, id, rzPayment, signatureOk, year) =>
        out := orders.VerifyPayment(user, id, rzPayment, signatureOk, year, e.now);
      case ExpireOverdueOrders =>
        out := orders.ExpireOverdueOrders(e.now);
      case Scan(user, pass, otp) =>
        out := pickup.Scan(user, pass, otp, e.now);
      case Complete(user, id, otp) =>
        out := pickup.Complete(user, id, otp, e.now);
      case Webhook(delivery) =>
        out := webhooks.Webhook(delivery, e.now);
      case CreateLot(user, request) =>
        out := lots.Create(user, request);
      case ApproveBidder(user, id, bidder) =>
        out := lots.ApproveBidder(user, id, bidder);
    }

    /** Any call from any valid state is one step of the machine and leaves the state valid. */
    method Handle(e: Event) returns (out: Outcome)
      requires Wired() && prisma.Valid()
      modifies prisma, redis
      ensures Step(Snapshot(prisma, redis), out) == Apply(cfg, old(Snapshot(prisma, redis)), e)
      ensures prisma.Valid()
    {
      hide UniqueColumns.RowsValid, Apply;
      UniqueColumns.StepKeepsRows(cfg, Snapshot(prisma, redis), e);
      out := Dispatch(e);
    }

    /** Any calls, one after the other, are a run of the machine: the same tables and the same answers. */
    method Run(es: seq<Event>) returns (outs: seq<Outcome>)
      requires Wired() && prisma.Valid()
      modifies prisma, redis
      ensures Snapshot(prisma, redis) == StateAt(cfg, old(Snapshot(prisma, redis)), es, |es|)
      ensures |outs| == |es|
      ensures forall k :: 0 <= k < |es| ==> outs[k] == OutcomeAt(cfg, old(Snapshot(prisma, redis)), es, k)
      ensures prisma.Valid()
    {
      hide UniqueColumns.RowsValid, Apply;
      outs := [];
      for k := 0 to |es|
        invariant prisma.Valid() && |outs| == k
        invariant Snapshot(prisma, redis) == StateAt(cfg, old(Snapshot(prisma, redis)), es, k)
        invariant forall j :: 0 <= j < k ==> outs[j] == OutcomeAt(cfg, old(Snapshot(prisma, redis)), es, j)
      {
        var out := Handle(es[k]);
        outs := outs + [out];
      }
    }
  }
}
