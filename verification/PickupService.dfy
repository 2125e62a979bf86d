/** src/modules/pickup.service.ts, writing the order rows in place. */
module PickupModule {
  import opened Rows
  import opened Storage
  import PickupSpec
  import SalesTheory

  class PickupService {
    const prisma: PrismaService

    constructor (prisma: PrismaService)
      ensures this.prisma == prisma
    {
      this.prisma := prisma;
    }

    /** The pass column is unique, so the row found is the only one. */
    lemma PassIsUnique(pass: Pass, id: OrderId)
      requires prisma.Valid() && PickupSpec.HasPass(prisma.orders, id, pass)
      ensures PickupSpec.FindByPass(prisma.orders, pass) == Some(id)
    {
      hide SalesTheory.PaymentRowsOk, SalesTheory.NothingPendingOnceSettled, SalesTheory.InvoicesMatch;
    }

    /** `otp` is the code the call draws. */
    method Scan(user: User, pass: Pass, otp: int, now: Time) returns (out: Outcome)
      requires prisma.Valid()
      modifies prisma`orders
      ensures var w := PickupSpec.Scan(old(prisma.orders), user, pass, otp, now);
              out == w.out && prisma.orders == w.rows
    {
      if user.bankId.None? {
        return Err(Forbidden);
      }
      var rows := prisma.orders;
      if forall id | id in rows :: rows[id].pass != pass {
        return Err(NotFound);
      }
      var id :| id in rows && rows[id].pass == pass;
      PassIsUnique(pass, id);
      var order := rows[id];
      if order.bankId != user.bankId.value {
        return Err(Forbidden);
      }
      if order.status == Collected {
        return Err(BadRequest);
      }
      if order.status != ReadyForPickup && order.status != PickupInProgress {
        return Err(BadRequest);
      }
      var otpExpiresAt := now + 10 * 60 * 1000;
      prisma.orders := prisma.orders[id := order.(
        status := PickupInProgress, otpHash := Some(OtpHash(otp)), otpExpiresAt := Some(otpExpiresAt))];
      return Ok(OtpIssued(otpExpiresAt));
    }

    method Complete(user: User, id: OrderId, otp: int, now: Time) returns (out: Outcome)
      modifies prisma`orders
      ensures var w := PickupSpec.Complete(old(prisma.orders), user, id, otp, now);
              out == w.out && prisma.orders == w.rows
    {
      if user.bankId.None? {
        return Err(Forbidden);
      }
      if id !in prisma.orders {
        return Err(NotFound);
      }
      var order := prisma.orders[id];
      if order.bankId != user.bankId.value {
        return Err(Forbidden);
      }
      if order.status != PickupInProgress {
        return Err(BadRequest);
      }
      if order.otpHash.None? {
        return Err(BadRequest);
      }
      if order.otpExpiresAt.None? || order.otpExpiresAt.value < now {
        return Err(Gone);
      }
      var matches := order.otpHash.value.otp == otp;
      if !matches {
        return Err(BadRequest);
      }
      prisma.orders := prisma.orders[id := order.(
        status := Collected, collectedAt := Some(now), verifiedBy := Some(user.id), otpHash := None,
            otpExpiresAt := None)];
      return Ok(HandedOver);
    }
  }
}
