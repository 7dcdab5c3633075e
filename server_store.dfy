/**
 * The tables of server/index.js as mutable state, and its handlers as
 * methods that read and write them step by step, with the loops the code has.
 * Every method is proved to leave the tables exactly as the matching function
 * of `Server` says, so what `ServerProperties` proves about those functions
 * holds of the handlers. Each handler body runs inside one `db.transaction`:
 * a method that fails returns before writing anything.
 */
module Store {
  import opened Common
  import Text
  import Cart
  import opened Server
  import ServerProperties

  class Tables {
    var menu: map<string, MenuItem>
    var orders: map<string, Order>
    var payments: map<string, Payment>

    function State(): Db
      reads this
    {
      Db(menu, orders, payments)
    }

    ghost predicate Valid()
      reads this
    {
      WellFormed(State())
    }

    /** A freshly seeded database: the menu, no orders, no payments. */
    constructor (seed: map<string, MenuItem>)
      requires forall k | k in seed :: seed[k].id == k
      ensures State() == Db(seed, map[], map[]) && Valid()
    {
      menu := seed;
      orders := map[];
      payments := map[];
    }

    /**
     * The first pass of `deductStockForOrder`: the error of the first line whose
     * item is missing, whose quantity is not positive, or whose item holds
     * less than that line's quantity.
     */
    method FirstBadLine(lines: seq<Cart.Line>) returns (err: Option<Error>)
      ensures err == CheckLines(menu, lines)
    {
      var i := 0;
      while i < |lines|
        invariant 0 <= i <= |lines|
        invariant CheckLines(menu, lines[..i]) == None
      {
        var l := lines[i];
        assert lines[..i + 1][..i] == lines[..i];
        if l.itemId !in menu || l.qty <= 0 {
          ServerProperties.CheckLinesPrefixError(menu, lines, i + 1);
          return Some(InvalidItemInOrder);
        }
        if menu[l.itemId].stock < l.qty {
          ServerProperties.CheckLinesPrefixError(menu, lines, i + 1);
          return Some(InsufficientStockToCompletePickup);
        }
        i := i + 1;
      }
      assert lines[..|lines|] == lines;
      return None;
    }

    /**
     * `deductStockForOrder`: the first pass refuses the whole order at its first
     * bad line; the second re-reads each line's stock and writes it back less
     * the line's quantity.
     */
    method DeductStockForOrder(lines: seq<Cart.Line>) returns (err: Option<Error>)
      modifies this
      ensures orders == old(orders) && payments == old(payments)
      ensures err == CheckLines(old(menu), lines)
      ensures err.None? ==> DeductStock(old(menu), lines) == Ok(menu)
      ensures err.Some? ==> DeductStock(old(menu), lines) == Err(err.value) && menu == old(menu)
    {
      err := FirstBadLine(lines);
      if err.Some? {
        return;
      }
      ghost var start := menu;
      var i := 0;
      while i < |lines|
        invariant 0 <= i <= |lines|
        invariant menu == ApplyLines(start, lines[..i])
        invariant orders == old(orders) && payments == old(payments)
      {
        var l := lines[i];
        assert lines[..i + 1][..i] == lines[..i];
        menu := menu[l.itemId := menu[l.itemId].(stock := menu[l.itemId].stock - l.qty)];
        i := i + 1;
      }
      assert lines[..|lines|] == lines;
    }

    /**
     * The loop of `POST /api/orders`: entry by entry, the item's snapshot pushed
     * and the running total and preparation time accumulated, or the error of
     * the first bad entry.
     */
    method SnapshotEntries(entries: seq<CartEntry>) returns (r: Result<seq<Cart.Line>, Error>, total: int, eta: int)
      ensures r == ValidateEntries(menu, entries)
      ensures r.Ok? ==> total == Cart.Total(r.value) && eta == RawEta(menu, entries)
    {
      var lines: seq<Cart.Line> := [];
      total := 0;
      eta := 0;
      var i := 0;
      while i < |entries|
        invariant 0 <= i <= |entries|
        invariant ValidateEntries(menu, entries[..i]) == Ok(lines)
        invariant total == Cart.Total(lines)
        invariant eta == RawEta(menu, entries[..i])
      {
        var e := entries[i];
        assert entries[..i + 1][..i] == entries[..i];
        if e.itemId !in menu || e.qty <= 0 {
          ServerProperties.ValidateEntriesPrefixError(menu, entries, i + 1);
          return Err(InvalidItemInCart), total, eta;
        }
        var item := menu[e.itemId];
        if !item.available || item.stock < e.qty {
          ServerProperties.ValidateEntriesPrefixError(menu, entries, i + 1);
          return Err(InsufficientStockFor(item.name)), total, eta;
        }
        assert (lines + [Cart.Line(item.id, item.name, item.price, e.qty)])[..|lines|] == lines;
        lines := lines + [Cart.Line(item.id, item.name, item.price, e.qty)];
        total := total + item.price * e.qty;
        eta := eta + item.prepTime * e.qty;
        i := i + 1;
      }
      assert entries[..|entries|] == entries;
      return Ok(lines), total, eta;
    }

    /**
     * `POST /api/orders`: the role, a non-empty cart and a known payment method;
     * then the entries; then the payment gate; then the insert.
     * The order id and pickup token are drawn fresh by the caller.
     */
    method PlaceOrder(user: User, entries: seq<CartEntry>, paymentMethod: string, paymentId: string, drawn: Fresh)
      returns (r: Result<Order, Error>)
      requires Valid()
      requires drawn.orderId !in orders && drawn.pickupToken !in Tokens(orders)
      modifies this
      ensures (r, State()) == Server.PlaceOrder(old(State()), user, entries, paymentMethod, paymentId, drawn)
      ensures Valid()
    {
      if user.role != Student {
        return Err(Forbidden);
      }
      if entries == [] {
        return Err(CartEmpty);
      }
      var selected := SelectedMethod(paymentMethod);
      if selected !in PaymentLabels {
        return Err(InvalidPaymentMethod);
      }
      var count := |orders|;
      var validated, total, eta := SnapshotEntries(entries);
      if validated.Err? {
        return Err(validated.error);
      }
      var lines := validated.value;
      var gate := CheckPayment(payments, user, selected, paymentId, total);
      if gate.Some? {
        return Err(gate.value);
      }
      assert AdmitOrder(old(State()), user, entries, paymentMethod, paymentId) == Ok(lines);
      var order := Order(
        drawn.orderId, Text.OrderNumber(count), user.id, user.name, lines, total,
        Pending, drawn.now, Max(5, eta), selected, PaymentLabels[selected],
        if paymentId == [] then None else Some(paymentId),
        drawn.pickupToken, drawn.now, None);
      assert order == NewOrder(old(State()), user, entries, lines, paymentMethod, paymentId, drawn);
      ServerProperties.InsertOrderKeepsTokensUnique(State(), order);
      orders := orders[drawn.orderId := order];
      return Ok(order);
    }

    /** The transaction both completion paths run: deduct, then stamp the order Completed. */
    method CompleteOrder(id: string, now: string) returns (r: Result<Order, Error>)
      requires Valid() && id in orders
      modifies this
      ensures (r, State()) == Server.CompleteOrder(old(State()), id, now)
      ensures Valid()
    {
      ServerProperties.CompleteOrderKeepsWellFormed(State(), id, now);
      var err := DeductStockForOrder(orders[id].items);
      if err.Some? {
        return Err(err.value);
      }
      var o := orders[id].(status := Completed, pickupTokenRedeemedAt := Some(now));
      orders := orders[id := o];
      return Ok(o);
    }

    /** `PATCH /api/orders/:id/status`. */
    method UpdateStatus(user: User, id: string, statusText: string, now: string) returns (r: Result<Order, Error>)
      requires Valid()
      modifies this
      ensures (r, State()) == Server.UpdateStatus(old(State()), user, id, statusText, now)
      ensures Valid()
    {
      if user.role != Admin && user.role != Vendor {
        return Err(Forbidden);
      }
      var status := ParseStatus(statusText);
      if status.None? {
        return Err(InvalidStatus);
      }
      if user.role == Vendor && status.value == Completed {
        return Err(UsePickupVerification);
      }
      if id !in orders {
        return Err(NotFound);
      }
      if status.value == Completed && orders[id].status != Completed {
        r := CompleteOrder(id, now);
        return;
      }
      var o := orders[id].(status := status.value);
      ServerProperties.ReplaceOrderKeepsWellFormed(State(), o);
      orders := orders[id := o];
      return Ok(o);
    }

    /** `POST /api/orders/:id/redeem`. */
    method Redeem(user: User, id: string, token: string, now: string) returns (r: Result<Order, Error>)
      requires Valid()
      modifies this
      ensures (r, State()) == Server.Redeem(old(State()), user, id, token, now)
      ensures Valid()
    {
      if user.role != Vendor {
        return Err(Forbidden);
      }
      if token == [] {
        return Err(MissingToken);
      }
      if id !in orders {
        return Err(NotFound);
      }
      var order := orders[id];
      if order.status == Completed {
        return Err(AlreadyPickedUp);
      }
      if order.status != Ready {
        return Err(NotReadyForPickup);
      }
      if order.pickupToken == [] || order.pickupToken != token {
        return Err(InvalidPickupToken);
      }
      r := CompleteOrder(id, now);
    }

    /** `POST /api/orders/redeem-by-token`: the order is looked up by its token. */
    method RedeemByToken(user: User, token: string, now: string) returns (r: Result<Order, Error>)
      requires Valid()
      modifies this
      ensures (r, State()) == Server.RedeemByToken(old(State()), user, token, now)
      ensures Valid()
    {
      if user.role != Vendor {
        return Err(Forbidden);
      }
      if token == [] {
        return Err(MissingToken);
      }
      ServerProperties.RedeemByTokenOutcomes(State(), user, token, now);
      if token !in Tokens(orders) {
        return Err(InvalidPickupToken);
      }
      var id :| id in orders && orders[id].pickupToken == token;
      var order := orders[id];
      if order.status == Completed {
        return Err(AlreadyPickedUp);
      }
      if order.status != Ready {
        return Err(NotReadyForPickup);
      }
      r := CompleteOrder(id, now);
    }

    /** `POST /api/payments/create-order`, the payment id drawn by the caller. */
    method CreatePayment(user: User, amount: int, paymentId: string, now: string) returns (r: Result<Payment, Error>)
      requires Valid() && paymentId !in payments
      modifies this
      ensures (r, State()) == Server.CreatePayment(old(State()), user, amount, paymentId, now)
      ensures Valid()
    {
      if user.role != Student {
        return Err(Forbidden);
      }
      if amount <= 0 {
        return Err(InvalidAmount);
      }
      var p := Payment(paymentId, user.id, amount, "INR", "razorpay_simulated", Created, now, None);
      payments := payments[paymentId := p];
      return Ok(p);
    }

    /** `POST /api/payments/confirm`. */
    method ConfirmPayment(user: User, paymentId: string, now: string) returns (r: Result<Payment, Error>)
      requires Valid()
      modifies this
      ensures (r, State()) == Server.ConfirmPayment(old(State()), user, paymentId, now)
      ensures Valid()
    {
      if user.role != Student {
        return Err(Forbidden);
      }
      if paymentId == [] {
        return Err(MissingPaymentId);
      }
      if paymentId !in payments || payments[paymentId].userId != user.id {
        return Err(PaymentNotFound);
      }
      var p := payments[paymentId].(status := Paid, paidAt := Some(now));
      payments := payments[paymentId := p];
      return Ok(p);
    }

    /** `PATCH /api/menu/:id/stock`. */
    method PatchStock(user: User, id: string, stock: Option<int>, available: Option<bool>)
      returns (r: Result<MenuItem, Error>)
      requires Valid()
      modifies this
      ensures (r, State()) == Server.PatchStock(old(State()), user, id, stock, available)
      ensures Valid()
    {
      if user.role != Admin && user.role != Vendor {
        return Err(Forbidden);
      }
      if id !in menu {
        return Err(NotFound);
      }
      var item := menu[id];
      var updated := item.(stock := if stock.Some? then stock.value else item.stock,
                           available := if available.Some? then available.value else item.available);
      menu := menu[id := updated];
      return Ok(updated);
    }
  }
}
