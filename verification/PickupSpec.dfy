/** What one call of scan or complete does (src/modules/pickup.service.ts). */
module PickupSpec {
  import opened Rows

  const OTP_LIFETIME_MS: int := 600000

  predicate HasPass(orders: Orders, id: OrderId, pass: Pass) {
    id in orders && orders[id].pass == pass
  }

  ghost function FindByPass(orders: Orders, pass: Pass): Option<OrderId> {
    if exists id :: HasPass(orders, id, pass) then
      var id :| HasPass(orders, id, pass);
      Some(id)
    else None
  }

  function ScannedRow(o: Order, otp: int, now: Time): Order {
    o.(status := PickupInProgress, otpHash := Some(OtpHash(otp)), otpExpiresAt := Some(now + OTP_LIFETIME_MS))
  }

  /** The guards of a scan on the row it reads. */
  ghost function ReadForScan(orders: Orders, user: User, pass: Pass): Result<OrderId, Error> {
    if user.bankId.None? then Failure(Forbidden)
    else match FindByPass(orders, pass)
      case None => Failure(NotFound)
      case Some(id) =>
        var order := orders[id];
        if order.bankId != user.bankId.value then Failure(Forbidden)
        else if order.status != ReadyForPickup && order.status != PickupInProgress then Failure(BadRequest)
        else Success(id)
  }

  /** `otp` is the code the call draws. */
  ghost function Scan(orders: Orders, user: User, pass: Pass, otp: int, now: Time): Write<Orders> {
    match ReadForScan(orders, user, pass)
    case Failure(e) => Write(orders, Err(e))
    case Success(id) => Write(orders[id := ScannedRow(orders[id], otp, now)], Ok(OtpIssued(now + OTP_LIFETIME_MS)))
  }

  function CollectedRow(o: Order, user: UserId, now: Time): Order {
    o.(status := Collected, collectedAt := Some(now), verifiedBy := Some(user), otpHash := None, otpExpiresAt := None)
  }

  /** The guards of a completion on the row it reads. */
  function CompleteRefusal(orders: Orders, user: User, id: OrderId, otp: int, now: Time): Option<Error> {
    if user.bankId.None? then Some(Forbidden)
    else if id !in orders then Some(NotFound)
    else
      var order := orders[id];
      if order.bankId != user.bankId.value then Some(Forbidden)
      else if order.status != PickupInProgress then Some(BadRequest)
      else if order.otpHash.None? then Some(BadRequest)
      else if order.otpExpiresAt.None? || order.otpExpiresAt.value < now then Some(Gone)
      else if order.otpHash.value != OtpHash(otp) then Some(BadRequest)
      else None
  }

  function Complete(orders: Orders, user: User, id: OrderId, otp: int, now: Time): Write<Orders> {
    match CompleteRefusal(orders, user, id, otp, now)
    case Some(e) => Write(orders, Err(e))
    case None => Write(orders[id := CollectedRow(orders[id], user.id, now)], Ok(HandedOver))
  }
}
