/** The bank counters against the invoiced orders they summarise, and where the money goes. */
module Accounts {
  import opened Rows
  import opened OrdersSpec
  import opened SalesTheory

  datatype Column = One | Base | Fee | Gst | Total

  function Value(o: Order, c: Column): int {
    match c
    case One => 1
    case Base => o.base
    case Fee => o.fee
    case Gst => o.gst
    case Total => o.total
  }

  /** An invoiced vehicle order of one of the banks. */
  predicate CountsFor(orders: Orders, i: Invoice, bs: set<BankId>) {
    i.orderId in orders && orders[i.orderId].bankId in bs && orders[i.orderId].vehicleId.Some?
  }

  /** A column summed over the invoiced vehicle orders of some banks. */
  function Sum(orders: Orders, invoices: seq<Invoice>, bs: set<BankId>, c: Column): int {
    if invoices == [] then 0
    else
      var last := invoices[|invoices| - 1];
      Sum(orders, invoices[..|invoices| - 1], bs, c) + if CountsFor(orders, last, bs)
          then Value(orders[last.orderId], c) else 0
  }

  /** What the payment row of an order says was to be paid. */
  ghost function Billed(payments: Payments, o: OrderId): int {
    if exists p :: PaysFor(payments, p, o) then
      var p :| PaysFor(payments, p, o);
      payments[p].amount
    else 0
  }

  ghost function SumBilled(orders: Orders, payments: Payments, invoices: seq<Invoice>, bs: set<BankId>): int {
    if invoices == [] then 0
    else
      var last := invoices[|invoices| - 1];
      SumBilled(orders, payments, invoices[..|invoices| - 1], bs)
        + if CountsFor(orders, last, bs) then Billed(payments, last.orderId) else 0
  }

  function Counter(b: Bank, c: Column): int {
    if c == One then b.vehiclesSold else b.totalRecovered
  }

  predicate Follows(s: Sales, t: Sales, b: BankId, c: Column)
    requires b in s.banks && b in t.banks
  {
    Counter(t.banks[b], c) - Counter(s.banks[b], c)
        == Sum(t.orders, t.invoices, {b}, c) - Sum(s.orders, s.invoices, {b}, c)
  }

  /** From s to t each bank's counters move by exactly what was invoiced for it. */
  ghost predicate CountersFollow(s: Sales, t: Sales) {
    && t.banks.Keys == s.banks.Keys
    && (forall b :: b in s.banks ==> Follows(s, t, b, One) && Follows(s, t, b, Base))
  }

  lemma {:induction false} SumStable(a: Orders, b: Orders, invoices: seq<Invoice>, bs: set<BankId>, c: Column)
    requires OrdersEvolve(a, b)
    requires forall i :: 0 <= i < |invoices| ==> invoices[i].orderId in a
    ensures Sum(a, invoices, bs, c) == Sum(b, invoices, bs, c)
  {
    if invoices != [] {
      SumStable(a, b, invoices[..|invoices| - 1], bs, c);
    }
  }

  lemma CountersFollowQuietStep(s: Sales, t: Sales)
    requires SalesInv(s) && Evolves(s, t) && t.invoices == s.invoices && t.banks == s.banks
    ensures CountersFollow(s, t)
  {
    forall b | b in s.banks ensures Follows(s, t, b, One) && Follows(s, t, b, Base) {
      SumStable(s.orders, t.orders, s.invoices, {b}, One);
      SumStable(s.orders, t.orders, s.invoices, {b}, Base);
    }
  }

  lemma SumAfterSettling(s: Sales, ticket: Ticket, rzPayment: string, year: int, now: Time, b: BankId, c: Column)
    requires SalesInv(s) && ticket.PayDue? && TicketOk(s, ticket)
    requires ticket.order.vehicleId.Some? ==> ticket.order.bankId in s.banks
    ensures var t := SettledSales(s, ticket, rzPayment, year, now);
            Sum(t.orders, t.invoices, {b}, c) == Sum(s.orders, s.invoices, {b}, c)
              + if ticket.order.bankId == b && ticket.order.vehicleId.Some? then Value(ticket.order, c) else 0
  {
    var t := SettledSales(s, ticket, rzPayment, year, now);
    assert t.invoices[..|t.invoices| - 1] == s.invoices;
    SumStable(s.orders, t.orders, s.invoices, {b}, c);
  }

  lemma CountersFollowSettlement(s: Sales, ticket: Ticket, rzPayment: string, year: int, now: Time)
    requires SalesInv(s) && ticket.PayDue? && TicketOk(s, ticket)
    requires ticket.order.vehicleId.Some? ==> ticket.order.bankId in s.banks
    ensures CountersFollow(s, SettledSales(s, ticket, rzPayment, year, now))
  {
    var t := SettledSales(s, ticket, rzPayment, year, now);
    forall b | b in s.banks ensures Follows(s, t, b, One) && Follows(s, t, b, Base) {
      SumAfterSettling(s, ticket, rzPayment, year, now, b, One);
      SumAfterSettling(s, ticket, rzPayment, year, now, b, Base);
    }
  }

  lemma CountersFollowPayment(s: Sales, vehicles: Vehicles, ticket: Ticket, user: UserId, rzPayment: string,
                              signatureOk: bool, year: int, now: Time)
    requires SalesInv(s) && TicketOk(s, ticket)
    ensures CountersFollow(s, FinishPayment(s, vehicles, ticket, user, rzPayment, signatureOk, year, now).rows.0)
  {
    hide SettledSales, CountersFollow, SalesInv;
    var t := FinishPayment(s, vehicles, ticket, user, rzPayment, signatureOk, year, now).rows.0;
    if ticket.PayDue? && signatureOk && CanSettle(s, vehicles, ticket, rzPayment, year) {
      CountersFollowSettlement(s, ticket, rzPayment, year, now);
    } else {
      FinishKeeps(s, vehicles, ticket, user, rzPayment, signatureOk, year, now);
      CountersFollowQuietStep(s, t);
    }
  }

  lemma CountersFollowTransitive(a: Sales, b: Sales, c: Sales)
    requires CountersFollow(a, b) && CountersFollow(b, c)
    ensures CountersFollow(a, c)
  {
  }

  // ---- all banks together ---------------------------------------------------------------------

  lemma NotEmpty(bs: set<BankId>)
    requires bs != {}
    ensures exists b :: b in bs
  {
    assert (forall b :: b !in bs) ==> bs == {};
  }

  ghost function OneOf(bs: set<BankId>): (b: BankId)
    requires bs != {}
    ensures b in bs
  {
    assert exists b :: b in bs by { NotEmpty(bs); }
    var b :| b in bs;
    b
  }

  /** A counter summed over some banks. */
  ghost function CounterSum(banks: map<BankId, Bank>, bs: set<BankId>, c: Column): int
    requires bs <= banks.Keys
  {
    if bs == {} then 0
    else
      var b := OneOf(bs);
      Counter(banks[b], c) + CounterSum(banks, bs - {b}, c)
  }

  lemma {:induction false} SumSplits(orders: Orders, invoices: seq<Invoice>, b: BankId, bs: set<BankId>, c: Column)
    requires b in bs
    ensures Sum(orders, invoices, bs, c) == Sum(orders, invoices, {b}, c) + Sum(orders, invoices, bs - {b}, c)
  {
    if invoices != [] {
      SumSplits(orders, invoices[..|invoices| - 1], b, bs, c);
    }
  }

  lemma {:induction false} SumOfNone(orders: Orders, invoices: seq<Invoice>, c: Column)
    ensures Sum(orders, invoices, {}, c) == 0
  {
    if invoices != [] {
      SumOfNone(orders, invoices[..|invoices| - 1], c);
    }
  }

  lemma {:induction false} CountersFollowTogether(s: Sales, t: Sales, bs: set<BankId>, c: Column)
    requires CountersFollow(s, t) && bs <= s.banks.Keys && (c == One || c == Base)
    ensures bs <= t.banks.Keys
    ensures CounterSum(t.banks, bs, c) - CounterSum(s.banks, bs, c)
         == Sum(t.orders, t.invoices, bs, c) - Sum(s.orders, s.invoices, bs, c)
    decreases bs
  {
    if bs == {} {
      SumOfNone(s.orders, s.invoices, c);
      SumOfNone(t.orders, t.invoices, c);
    } else {
      var b := OneOf(bs);
      CountersFollowTogether(s, t, bs - {b}, c);
      SumSplits(s.orders, s.invoices, b, bs, c);
      SumSplits(t.orders, t.invoices, b, bs, c);
      assert Follows(s, t, b, One) && Follows(s, t, b, Base);
    }
  }

  // ---- conservation ---------------------------------------------------------------------------

  lemma {:induction false} TotalsSplit(orders: Orders, invoices: seq<Invoice>, bs: set<BankId>)
    requires OrderRowsOk(orders)
    ensures Sum(orders, invoices, bs, Total)
         == Sum(orders, invoices, bs, Base) + Sum(orders, invoices, bs, Fee) + Sum(orders, invoices, bs, Gst)
  {
    if invoices != [] {
      TotalsSplit(orders, invoices[..|invoices| - 1], bs);
    }
  }

  lemma {:induction false} BilledInFull(orders: Orders, payments: Payments, invoices: seq<Invoice>, bs: set<BankId>)
    requires PaymentRowsOk(orders, payments)
    ensures SumBilled(orders, payments, invoices, bs) == Sum(orders, invoices, bs, Total)
  {
    if invoices != [] {
      BilledInFull(orders, payments, invoices[..|invoices| - 1], bs);
    }
  }

  /** Between any two states: every paisa billed on the orders invoiced in between, for any set of banks, is recovered
      by those banks, a fee or GST; and their sold counters count those orders. */
  ghost predicate Conserved(s: Sales, t: Sales, bs: set<BankId>)
    requires bs <= s.banks.Keys && bs <= t.banks.Keys
  {
    && SumBilled(t.orders, t.payments, t.invoices, bs) - SumBilled(s.orders, s.payments, s.invoices, bs)
       == (CounterSum(t.banks, bs, Base) - CounterSum(s.banks, bs, Base))
          + (Sum(t.orders, t.invoices, bs, Fee) - Sum(s.orders, s.invoices, bs, Fee))
          + (Sum(t.orders, t.invoices, bs, Gst) - Sum(s.orders, s.invoices, bs, Gst))
    && CounterSum(t.banks, bs, One) - CounterSum(s.banks, bs, One)
       == Sum(t.orders, t.invoices, bs, One) - Sum(s.orders, s.invoices, bs, One)
    && CounterSum(t.banks, bs, Base) - CounterSum(s.banks, bs, Base)
       == Sum(t.orders, t.invoices, bs, Base) - Sum(s.orders, s.invoices, bs, Base)
  }

  lemma MoneyConserved(s: Sales, t: Sales, bs: set<BankId>)
    requires CountersFollow(s, t) && SalesInv(s) && SalesInv(t) && bs <= s.banks.Keys
    ensures bs <= t.banks.Keys && Conserved(s, t, bs)
  {
    CountersFollowTogether(s, t, bs, One);
    CountersFollowTogether(s, t, bs, Base);
    BilledInFull(s.orders, s.payments, s.invoices, bs);
    BilledInFull(t.orders, t.payments, t.invoices, bs);
    TotalsSplit(s.orders, s.invoices, bs);
    TotalsSplit(t.orders, t.invoices, bs);
  }
}
