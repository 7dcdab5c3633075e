/** What the engine of server/index.js guarantees, proved about the functions of `Server`. */
module ServerProperties {
  import opened Common
  import Text
  import Cart
  import opened Server

  // ================================================================ stock deduction

  /** The second pass takes from each item exactly the quantities its lines ask for. */
  lemma {:induction false} ApplyLinesEffect(menu: map<string, MenuItem>, lines: seq<Cart.Line>, k: string)
    requires forall i | 0 <= i < |lines| :: lines[i].itemId in menu
    requires k in menu
    ensures ApplyLines(menu, lines)[k] == menu[k].(stock := menu[k].stock - QtyOf(lines, k))
  {
    if lines != [] {
      ApplyLinesEffect(menu, lines[..|lines| - 1], k);
    }
  }

  lemma {:induction false} QtyOfAbsent(lines: seq<Cart.Line>, k: string)
    requires forall i | 0 <= i < |lines| :: lines[i].itemId != k
    ensures QtyOf(lines, k) == 0
  {
    if lines != [] {
      QtyOfAbsent(lines[..|lines| - 1], k);
    }
  }

  /** With one line per item, the quantity asked of a line's item is that line's quantity. */
  lemma {:induction false} QtyOfDistinct(lines: seq<Cart.Line>, i: nat)
    requires i < |lines| && Cart.DistinctItems(lines)
    ensures QtyOf(lines, lines[i].itemId) == lines[i].qty
  {
    var pre := lines[..|lines| - 1];
    if i == |lines| - 1 {
      QtyOfAbsent(pre, lines[i].itemId);
    } else {
      QtyOfDistinct(pre, i);
    }
  }

  /**
   * `deductStockForOrder` is all-or-nothing: it fails, changing nothing, exactly
   * when some line names a missing item, asks for no units, or asks for more
   * than the item's stock; otherwise every item loses exactly the quantity the
   * order's lines ask of it, and items the order does not name keep their row.
   */
  lemma DeductStockAllOrNothing(menu: map<string, MenuItem>, lines: seq<Cart.Line>)
    ensures DeductStock(menu, lines).Err? <==> exists i | 0 <= i < |lines| :: !LineDeductible(menu, lines[i])
    ensures DeductStock(menu, lines).Ok? ==> DeductStock(menu, lines).value.Keys == menu.Keys
    ensures DeductStock(menu, lines).Ok? ==> forall k | k in menu ::
      DeductStock(menu, lines).value[k] == menu[k].(stock := menu[k].stock - QtyOf(lines, k))
    ensures DeductStock(menu, lines).Ok? ==> forall k | k in menu && (forall i | 0 <= i < |lines| :: lines[i].itemId != k) ::
      DeductStock(menu, lines).value[k] == menu[k]
  {
    if DeductStock(menu, lines).Ok? {
      forall k | k in menu
        ensures DeductStock(menu, lines).value[k] == menu[k].(stock := menu[k].stock - QtyOf(lines, k))
      {
        ApplyLinesEffect(menu, lines, k);
      }
      forall k | k in menu && (forall i | 0 <= i < |lines| :: lines[i].itemId != k)
        ensures DeductStock(menu, lines).value[k] == menu[k]
      {
        ApplyLinesEffect(menu, lines, k);
        QtyOfAbsent(lines, k);
      }
    }
  }

  /** With one line per item (what every client cart produces), no deducted stock goes below zero. */
  lemma DeductStockDistinctNonNegative(menu: map<string, MenuItem>, lines: seq<Cart.Line>)
    requires Cart.DistinctItems(lines)
    requires DeductStock(menu, lines).Ok?
    ensures forall i | 0 <= i < |lines| ::
      DeductStock(menu, lines).value[lines[i].itemId].stock == menu[lines[i].itemId].stock - lines[i].qty >= 0
  {
    forall i | 0 <= i < |lines|
      ensures DeductStock(menu, lines).value[lines[i].itemId].stock == menu[lines[i].itemId].stock - lines[i].qty >= 0
    {
      assert LineDeductible(menu, lines[i]);
      ApplyLinesEffect(menu, lines, lines[i].itemId);
      QtyOfDistinct(lines, i);
    }
  }

  /**
   * The as-written check looks at each line alone: an order holding an item
   * of stock 3 on two lines of 2 units passes, and the item is left at -1.
   * The corrected deduction refuses it.
   */
  lemma DuplicateLinesDriveStockNegative(item: MenuItem)
    requires item.stock == 3
    ensures var menu := map[item.id := item];
            var lines := [Snapshot(item, 2), Snapshot(item, 2)];
            && DeductStock(menu, lines) == Ok(map[item.id := item.(stock := -1)])
            && DeductStockChecked(menu, lines) == Err(InsufficientStockToCompletePickup)
  {
    var menu := map[item.id := item];
    var l := Snapshot(item, 2);
    var lines := [l, l];
    assert lines[..1] == [l] && [l][..0] == [];
    assert QtyOf([l], item.id) == 2;
    assert QtyOf(lines, item.id) == 4;
    assert LineDeductible(menu, lines[0]) && LineDeductible(menu, lines[1]);
    ApplyLinesEffect(menu, lines, item.id);
    var m := ApplyLines(menu, lines);
    assert m.Keys == {item.id};
    assert m == map[item.id := item.(stock := -1)];
    assert CheckLinesAgainst(menu, [l], lines) == Some(InsufficientStockToCompletePickup);
    assert CheckLinesAgainst(menu, lines, lines) == Some(InsufficientStockToCompletePickup);
  }

  /** The corrected deduction never takes a named item's stock below zero. */
  lemma DeductStockCheckedNeverNegative(menu: map<string, MenuItem>, lines: seq<Cart.Line>)
    requires DeductStockChecked(menu, lines).Ok?
    ensures DeductStockChecked(menu, lines).value.Keys == menu.Keys
    ensures forall i | 0 <= i < |lines| ::
      DeductStockChecked(menu, lines).value[lines[i].itemId].stock
        == menu[lines[i].itemId].stock - QtyOf(lines, lines[i].itemId) >= 0
  {
    forall i | 0 <= i < |lines|
      ensures DeductStockChecked(menu, lines).value[lines[i].itemId].stock
        == menu[lines[i].itemId].stock - QtyOf(lines, lines[i].itemId) >= 0
    {
      ApplyLinesEffect(menu, lines, lines[i].itemId);
    }
  }

  lemma {:induction false} CheckAgainstDistinct(menu: map<string, MenuItem>, n: nat, all: seq<Cart.Line>)
    requires n <= |all| && Cart.DistinctItems(all)
    ensures CheckLinesAgainst(menu, all[..n], all) == CheckLines(menu, all[..n])
  {
    if n > 0 {
      assert all[..n][..n - 1] == all[..n - 1];
      CheckAgainstDistinct(menu, n - 1, all);
      QtyOfDistinct(all, n - 1);
    }
  }

  /** On orders with one line per item the corrected deduction is the one the code performs. */
  lemma DeductStockCheckedAgrees(menu: map<string, MenuItem>, lines: seq<Cart.Line>)
    requires Cart.DistinctItems(lines)
    ensures DeductStockChecked(menu, lines) == DeductStock(menu, lines)
  {
    CheckAgainstDistinct(menu, |lines|, lines);
    assert lines[..|lines|] == lines;
  }

  /**
   * The corrected deduction is all-or-nothing too: it fails exactly when some
   * line names a missing item, asks for no units, or names an item whose stock
   * is below what the whole order asks of it; otherwise every item loses
   * exactly that quantity, so no stock goes below zero, and items the order
   * does not name keep their row.
   */
  lemma DeductStockCheckedAllOrNothing(menu: map<string, MenuItem>, lines: seq<Cart.Line>)
    ensures DeductStockChecked(menu, lines).Err? <==> exists i | 0 <= i < |lines| ::
      !(lines[i].itemId in menu && lines[i].qty > 0 && menu[lines[i].itemId].stock >= QtyOf(lines, lines[i].itemId))
    ensures DeductStockChecked(menu, lines).Ok? ==> DeductStockChecked(menu, lines).value.Keys == menu.Keys
    ensures DeductStockChecked(menu, lines).Ok? ==> forall k | k in menu ::
      DeductStockChecked(menu, lines).value[k] == menu[k].(stock := menu[k].stock - QtyOf(lines, k))
    ensures DeductStockChecked(menu, lines).Ok? ==> forall k | k in menu && menu[k].stock >= 0 ::
      DeductStockChecked(menu, lines).value[k].stock >= 0
    ensures DeductStockChecked(menu, lines).Ok? ==> forall k | k in menu && (forall i | 0 <= i < |lines| :: lines[i].itemId != k) ::
      DeductStockChecked(menu, lines).value[k] == menu[k]
  {
    if DeductStockChecked(menu, lines).Ok? {
      forall k | k in menu
        ensures DeductStockChecked(menu, lines).value[k] == menu[k].(stock := menu[k].stock - QtyOf(lines, k))
      {
        ApplyLinesEffect(menu, lines, k);
      }
      forall k | k in menu && menu[k].stock >= 0
        ensures DeductStockChecked(menu, lines).value[k].stock >= 0
      {
        ApplyLinesEffect(menu, lines, k);
        if i :| 0 <= i < |lines| && lines[i].itemId == k {
          assert menu[lines[i].itemId].stock >= QtyOf(lines, lines[i].itemId);
        } else {
          QtyOfAbsent(lines, k);
        }
      }
      forall k | k in menu && (forall i | 0 <= i < |lines| :: lines[i].itemId != k)
        ensures DeductStockChecked(menu, lines).value[k] == menu[k]
      {
        ApplyLinesEffect(menu, lines, k);
        QtyOfAbsent(lines, k);
      }
    }
  }

  /** Once a prefix of the lines fails the first pass, the whole pass fails with that error. */
  lemma {:induction false} CheckLinesPrefixError(menu: map<string, MenuItem>, lines: seq<Cart.Line>, n: nat)
    requires n <= |lines| && CheckLines(menu, lines[..n]).Some?
    ensures CheckLines(menu, lines) == CheckLines(menu, lines[..n])
    decreases |lines| - n
  {
    if n < |lines| {
      assert lines[..n + 1][..n] == lines[..n];
      CheckLinesPrefixError(menu, lines, n + 1);
    } else {
      assert lines[..n] == lines;
    }
  }

  // ================================================================ placing an order

  /** `Σ price × qty` over the posted entries, with prices read from the menu. */
  function MenuTotal(menu: map<string, MenuItem>, entries: seq<CartEntry>): int
    requires forall i | 0 <= i < |entries| :: entries[i].itemId in menu
  {
    if entries == [] then 0
    else MenuTotal(menu, entries[..|entries| - 1])
         + menu[entries[|entries| - 1].itemId].price * entries[|entries| - 1].qty
  }

  lemma {:induction false} SnapshotTotal(menu: map<string, MenuItem>, entries: seq<CartEntry>)
    requires ValidateEntries(menu, entries).Ok?
    ensures Cart.Total(ValidateEntries(menu, entries).value) == MenuTotal(menu, entries)
  {
    if entries != [] {
      SnapshotTotal(menu, entries[..|entries| - 1]);
    }
  }

  /** Once a prefix of the entries fails validation, the whole cart fails with that error. */
  lemma {:induction false} ValidateEntriesPrefixError(menu: map<string, MenuItem>, entries: seq<CartEntry>, n: nat)
    requires n <= |entries| && ValidateEntries(menu, entries[..n]).Err?
    ensures ValidateEntries(menu, entries) == ValidateEntries(menu, entries[..n])
    decreases |entries| - n
  {
    if n < |entries| {
      assert entries[..n + 1][..n] == entries[..n];
      ValidateEntriesPrefixError(menu, entries, n + 1);
    } else {
      assert entries[..n] == entries;
    }
  }

  /**
   * Placement succeeds exactly when a student posts a non-empty cart, names an
   * accepted payment method (none means pay on pickup), every entry is an
   * available item with a positive quantity within its stock, and, for the
   * online method, the payment gate passes.
   */
  lemma PlaceOrderSucceedsIff(db: Db, user: User, entries: seq<CartEntry>, paymentMethod: string,
                              paymentId: string, drawn: Fresh)
    ensures PlaceOrder(db, user, entries, paymentMethod, paymentId, drawn).0.Ok? <==>
      && user.role == Student
      && entries != []
      && SelectedMethod(paymentMethod) in PaymentLabels
      && (forall i | 0 <= i < |entries| :: EntryOrderable(db.menu, entries[i]))
      && CheckPayment(db.payments, user, SelectedMethod(paymentMethod), paymentId,
                      MenuTotal(db.menu, entries)).None?
  {
    if ValidateEntries(db.menu, entries).Ok? {
      SnapshotTotal(db.menu, entries);
    }
  }

  /** The failures the endpoint answers, each leaving every table as it was. */
  lemma PlaceOrderRejects(db: Db, user: User, entries: seq<CartEntry>, paymentMethod: string,
                          paymentId: string, drawn: Fresh)
    requires user.role == Student
    ensures var res := PlaceOrder(db, user, entries, paymentMethod, paymentId, drawn);
      && (entries == [] ==> res == (Err(CartEmpty), db))
      && (entries != [] && SelectedMethod(paymentMethod) !in PaymentLabels ==> res == (Err(InvalidPaymentMethod), db))
      && ((entries != [] && SelectedMethod(paymentMethod) in PaymentLabels
           && (entries[0].itemId !in db.menu || entries[0].qty <= 0))
            ==> res == (Err(InvalidItemInCart), db))
      && ((entries != [] && SelectedMethod(paymentMethod) in PaymentLabels
           && entries[0].itemId in db.menu && entries[0].qty > 0 && !EntryOrderable(db.menu, entries[0]))
            ==> res == (Err(InsufficientStockFor(db.menu[entries[0].itemId].name)), db))
  {
    if entries != [] && !EntryOrderable(db.menu, entries[0]) {
      FirstEntryDecides(db.menu, entries, |entries|);
      assert entries[..|entries|] == entries;
    }
  }

  /** The placement loop stops at the first bad entry, whatever follows it. */
  lemma {:induction false} FirstEntryDecides(menu: map<string, MenuItem>, entries: seq<CartEntry>, n: nat)
    requires 1 <= n <= |entries| && !EntryOrderable(menu, entries[0])
    ensures ValidateEntries(menu, entries[..n]) ==
      if entries[0].itemId !in menu || entries[0].qty <= 0 then Err(InvalidItemInCart)
      else Err(InsufficientStockFor(menu[entries[0].itemId].name))
  {
    if n == 1 {
      assert entries[..1][..0] == [];
    } else {
      assert entries[..n][..n - 1] == entries[..n - 1];
      FirstEntryDecides(menu, entries, n - 1);
    }
    if n == |entries| {
      assert entries[..n] == entries;
    }
  }

  /**
   * A placed order is Pending, numbered `count + 1` padded to four digits,
   * holds a snapshot of each entry's item at this instant, costs
   * `Σ price × qty`, is ready in `max(5, Σ prepTime × qty)` minutes, carries the
   * drawn pickup token, not yet redeemed, and no item's stock has moved.
   */
  lemma PlaceOrderStores(db: Db, user: User, entries: seq<CartEntry>, paymentMethod: string,
                         paymentId: string, drawn: Fresh)
    requires PlaceOrder(db, user, entries, paymentMethod, paymentId, drawn).0.Ok?
    ensures var res := PlaceOrder(db, user, entries, paymentMethod, paymentId, drawn);
      var o := res.0.value;
      && (forall i | 0 <= i < |entries| :: entries[i].itemId in db.menu)
      && res.1 == db.(orders := db.orders[drawn.orderId := o])
      && o.id == drawn.orderId && o.userId == user.id && o.customerName == user.name
      && o.status == Pending
      && o.orderNumber == Text.OrderNumber(|db.orders|)
      && |o.items| == |entries|
      && (forall i | 0 <= i < |entries| :: o.items[i] == Snapshot(db.menu[entries[i].itemId], entries[i].qty))
      && o.total == MenuTotal(db.menu, entries)
      && o.etaMinutes == Max(5, RawEta(db.menu, entries)) && o.etaMinutes >= 5
      && o.pickupToken == drawn.pickupToken && o.pickupTokenIssuedAt == o.createdAt
      && o.pickupTokenRedeemedAt == None
      && o.paymentMethodLabel == PaymentLabels[o.paymentMethod]
  {
    SnapshotTotal(db.menu, entries);
  }

  /** An order paid online was admitted only against the caller's own paid payment of exactly its total. */
  lemma PlaceOrderOnlinePayment(db: Db, user: User, entries: seq<CartEntry>, paymentMethod: string,
                                paymentId: string, drawn: Fresh)
    requires PlaceOrder(db, user, entries, paymentMethod, paymentId, drawn).0.Ok?
    requires SelectedMethod(paymentMethod) == "razorpay_simulated"
    ensures var o := PlaceOrder(db, user, entries, paymentMethod, paymentId, drawn).0.value;
      && paymentId != [] && o.paymentId == Some(paymentId)
      && paymentId in db.payments
      && db.payments[paymentId].userId == user.id
      && db.payments[paymentId].status == Paid
      && db.payments[paymentId].amount == o.total
  {
  }

  /**
   * A paid payment is not consumed: right after an order is admitted against
   * it, the same cart with the same payment is admitted again.
   */
  lemma PaidPaymentAdmitsAgain(db: Db, user: User, entries: seq<CartEntry>, paymentId: string,
                               first: Fresh, second: Fresh)
    requires PlaceOrder(db, user, entries, "razorpay_simulated", paymentId, first).0.Ok?
    ensures var db1 := PlaceOrder(db, user, entries, "razorpay_simulated", paymentId, first).1;
      PlaceOrder(db1, user, entries, "razorpay_simulated", paymentId, second).0.Ok?
  {
  }

  /**
   * mobile/App.js posts `razorpay_simulated` with `paymentId: null`: the server
   * refuses every such placement, whatever the cart.
   */
  lemma OnlineMethodWithoutPaymentRejected(db: Db, user: User, entries: seq<CartEntry>, drawn: Fresh)
    ensures PlaceOrder(db, user, entries, "razorpay_simulated", [], drawn).0.Err?
    ensures user.role == Student && entries != [] && ValidateEntries(db.menu, entries).Ok? ==>
      PlaceOrder(db, user, entries, "razorpay_simulated", [], drawn).0 == Err(PaymentRequired)
  {
  }

  /** Adding an order under a fresh id with a fresh token keeps ids and tokens unique. */
  lemma InsertOrderKeepsTokensUnique(db: Db, o: Order)
    requires WellFormed(db)
    requires o.id !in db.orders && o.pickupToken !in Tokens(db.orders)
    ensures WellFormed(db.(orders := db.orders[o.id := o]))
    ensures Tokens(db.orders[o.id := o]) == Tokens(db.orders) + {o.pickupToken}
  {
    var orders := db.orders[o.id := o];
    forall b | b in db.orders ensures db.orders[b].pickupToken != o.pickupToken {
      assert db.orders[b].pickupToken in Tokens(db.orders);
    }
    forall t | t in Tokens(db.orders) ensures t in Tokens(orders) {
      var k :| k in db.orders && db.orders[k].pickupToken == t;
      assert orders[k].pickupToken == t;
    }
    assert orders[o.id].pickupToken == o.pickupToken;
  }

  /** Placement keeps every row under its own id and gives the new order a token no other order has. */
  lemma PlaceOrderKeepsWellFormed(db: Db, user: User, entries: seq<CartEntry>, paymentMethod: string,
                                  paymentId: string, drawn: Fresh)
    requires WellFormed(db)
    requires drawn.orderId !in db.orders && drawn.pickupToken !in Tokens(db.orders)
    ensures var res := PlaceOrder(db, user, entries, paymentMethod, paymentId, drawn);
      && WellFormed(res.1)
      && Tokens(res.1.orders) == Tokens(db.orders) + (if res.0.Ok? then {drawn.pickupToken} else {})
  {
    var res := PlaceOrder(db, user, entries, paymentMethod, paymentId, drawn);
    if res.0.Ok? {
      PlaceOrderStores(db, user, entries, paymentMethod, paymentId, drawn);
      InsertOrderKeepsTokensUnique(db, res.0.value);
    }
  }

  /**
   * Each placement inserts one order under a fresh id, so the count it numbers
   * from grows and the next order gets a different number.
   */
  lemma OrderNumbersDiffer(orders: map<string, Order>, id: string, o: Order)
    requires id !in orders
    ensures Text.OrderNumber(|orders|) != Text.OrderNumber(|orders[id := o]|)
  {
    assert orders[id := o].Keys == orders.Keys + {id};
    assert |orders[id := o]| == |orders| + 1;
    if Text.OrderNumber(|orders|) == Text.OrderNumber(|orders[id := o]|) {
      Text.OrderNumberInjective(|orders|, |orders[id := o]|);
    }
  }

  // ================================================================ status updates

  /** The status path refuses unknown values, a vendor completing, and unknown ids, changing nothing. */
  lemma UpdateStatusRejects(db: Db, user: User, id: string, statusText: string, now: string)
    requires user.role == Admin || user.role == Vendor
    ensures var res := UpdateStatus(db, user, id, statusText, now);
      && (ParseStatus(statusText).None? ==> res == (Err(InvalidStatus), db))
      && (user.role == Vendor && statusText == "Completed" ==> res == (Err(UsePickupVerification), db))
      && ((ParseStatus(statusText).Some? && id !in db.orders && !(user.role == Vendor && statusText == "Completed"))
            ==> res == (Err(NotFound), db))
  {
  }

  /**
   * Moving an order that is not Completed into Completed deducts its stock
   * and stamps it in one step: on success the menu is the deduction's result
   * and the order is Completed with the redemption time; otherwise nothing changes.
   */
  lemma UpdateStatusCompletes(db: Db, user: User, id: string, now: string)
    requires user.role == Admin && id in db.orders && db.orders[id].status != Completed
    ensures var res := UpdateStatus(db, user, id, "Completed", now);
      match DeductStock(db.menu, db.orders[id].items)
      case Err(e) => res == (Err(e), db)
      case Ok(m) =>
        && res.0 == Ok(db.orders[id].(status := Completed, pickupTokenRedeemedAt := Some(now)))
        && res.1 == Db(m, db.orders[id := res.0.value], db.payments)
  {
  }

  /** Setting Completed on an order that already is Completed deducts nothing and changes nothing. */
  lemma UpdateStatusOnCompletedOrder(db: Db, user: User, id: string, now: string)
    requires user.role == Admin && id in db.orders && db.orders[id].status == Completed
    ensures UpdateStatus(db, user, id, "Completed", now) == (Ok(db.orders[id]), db)
  {
    assert db.orders[id := db.orders[id]] == db.orders;
  }

  /** Any other target just overwrites the status: no stock moves, nothing else of the order changes. */
  lemma UpdateStatusOverwrites(db: Db, user: User, id: string, statusText: string, now: string)
    requires user.role == Admin || user.role == Vendor
    requires id in db.orders
    requires ParseStatus(statusText).Some? && ParseStatus(statusText).value != Completed
    ensures var res := UpdateStatus(db, user, id, statusText, now);
      && res.0 == Ok(db.orders[id].(status := ParseStatus(statusText).value))
      && res.1 == db.(orders := db.orders[id := res.0.value])
  {
  }

  /**
   * Completed is not final on the status path: an admin may reopen a completed
   * order and complete it again, and the second completion deducts its stock
   * a second time.
   */
  lemma ReopenedOrderDeductsAgain(db: Db, admin: User, id: string, t1: string, t2: string)
    requires admin.role == Admin && id in db.orders && db.orders[id].status == Completed
    requires DeductStock(db.menu, db.orders[id].items).Ok?
    ensures var db1 := UpdateStatus(db, admin, id, "Pending", t1).1;
      var res := UpdateStatus(db1, admin, id, "Completed", t2);
      && db1.menu == db.menu
      && res.0.Ok? && res.0.value.status == Completed
      && res.1.menu == DeductStock(db.menu, db.orders[id].items).value
  {
    var db1 := UpdateStatus(db, admin, id, "Pending", t1).1;
    assert db1.orders[id].items == db.orders[id].items;
  }

  // ================================================================ pickup tokens

  /**
   * Redeeming by token: an unknown token is invalid; the order holding it must
   * not be Completed and must be Ready; then it is completed exactly as the
   * status path would complete it.
   */
  lemma RedeemByTokenOutcomes(db: Db, vendor: User, token: string, now: string)
    requires WellFormed(db) && vendor.role == Vendor && token != []
    ensures token !in Tokens(db.orders) ==> RedeemByToken(db, vendor, token, now) == (Err(InvalidPickupToken), db)
    ensures forall k | k in db.orders && db.orders[k].pickupToken == token ::
      RedeemByToken(db, vendor, token, now) ==
        if db.orders[k].status == Completed then (Err(AlreadyPickedUp), db)
        else if db.orders[k].status != Ready then (Err(NotReadyForPickup), db)
        else CompleteOrder(db, k, now)
  {
    forall k | k in db.orders && db.orders[k].pickupToken == token
      ensures RedeemByToken(db, vendor, token, now) ==
        if db.orders[k].status == Completed then (Err(AlreadyPickedUp), db)
        else if db.orders[k].status != Ready then (Err(NotReadyForPickup), db)
        else CompleteOrder(db, k, now)
    {
      var found := OrderWithToken(db.orders, token);
      assert found.Some? && found.value == k;
    }
  }

  /** Rewriting an order in place under its own id, token kept, keeps the tables well formed. */
  lemma ReplaceOrderKeepsWellFormed(db: Db, o: Order)
    requires WellFormed(db) && o.id in db.orders && o.pickupToken == db.orders[o.id].pickupToken
    ensures WellFormed(db.(orders := db.orders[o.id := o]))
    ensures Tokens(db.orders[o.id := o]) == Tokens(db.orders)
  {
    var orders := db.orders[o.id := o];
    forall t | t in Tokens(db.orders) ensures t in Tokens(orders) {
      var k :| k in db.orders && db.orders[k].pickupToken == t;
      assert orders[k].pickupToken == t;
    }
    forall a, b | a in orders && b in orders && orders[a].pickupToken == orders[b].pickupToken
      ensures a == b
    {
      assert db.orders[a].pickupToken == db.orders[b].pickupToken;
    }
  }

  /** Completing an order keeps its token, so the set of issued tokens does not change. */
  lemma CompleteOrderKeepsWellFormed(db: Db, id: string, now: string)
    requires WellFormed(db) && id in db.orders
    ensures WellFormed(CompleteOrder(db, id, now).1)
    ensures Tokens(CompleteOrder(db, id, now).1.orders) == Tokens(db.orders)
  {
    var res := CompleteOrder(db, id, now);
    if res.0.Ok? {
      DeductStockAllOrNothing(db.menu, db.orders[id].items);
      var m := DeductStock(db.menu, db.orders[id].items).value;
      assert WellFormed(db.(menu := m));
      ReplaceOrderKeepsWellFormed(db.(menu := m), res.0.value);
    }
  }

  /** The corrected completion changes no item set and takes no stock below zero that was not already. */
  lemma CompleteOrderCheckedNeverNegative(db: Db, id: string, now: string)
    requires id in db.orders
    ensures var res := CompleteOrderChecked(db, id, now);
      && res.1.menu.Keys == db.menu.Keys
      && forall k | k in db.menu && db.menu[k].stock >= 0 :: res.1.menu[k].stock >= 0
  {
    DeductStockCheckedAllOrNothing(db.menu, db.orders[id].items);
  }

  /** On an order with one line per item, the corrected completion is the one the code performs. */
  lemma CompleteOrderCheckedAgrees(db: Db, id: string, now: string)
    requires id in db.orders && Cart.DistinctItems(db.orders[id].items)
    ensures CompleteOrderChecked(db, id, now) == CompleteOrder(db, id, now)
  {
    DeductStockCheckedAgrees(db.menu, db.orders[id].items);
  }

  /**
   * The duplicate-line order at the endpoint: a vendor scanning the token of
   * a Ready order that holds an item of stock 3 on two lines of 2 units
   * completes it and leaves the item at -1. The corrected completion refuses
   * the same order and changes nothing.
   */
  lemma DuplicateLinesRedeemNegative(vendor: User, item: MenuItem, o: Order, now: string)
    requires vendor.role == Vendor && item.stock == 3
    requires o.status == Ready && o.pickupToken != []
    requires o.items == [Snapshot(item, 2), Snapshot(item, 2)]
    ensures var db := Db(map[item.id := item], map[o.id := o], map[]);
      var done := o.(status := Completed, pickupTokenRedeemedAt := Some(now));
      && RedeemByToken(db, vendor, o.pickupToken, now)
           == (Ok(done), Db(map[item.id := item.(stock := -1)], map[o.id := done], map[]))
      && CompleteOrderChecked(db, o.id, now) == (Err(InsufficientStockToCompletePickup), db)
  {
    var db := Db(map[item.id := item], map[o.id := o], map[]);
    assert WellFormed(db);
    RedeemByTokenOutcomes(db, vendor, o.pickupToken, now);
    assert o.id in db.orders && db.orders[o.id].pickupToken == o.pickupToken;
    DuplicateLinesDriveStockNegative(item);
    assert map[o.id := o][o.id := o.(status := Completed, pickupTokenRedeemedAt := Some(now))]
        == map[o.id := o.(status := Completed, pickupTokenRedeemedAt := Some(now))];
  }

  /**
   * A pickup token works once: after a successful redemption the same token
   * is answered "already picked up", and nothing is deducted again.
   */
  lemma RedemptionIsSingleUse(db: Db, vendor: User, token: string, t1: string, t2: string)
    requires WellFormed(db) && vendor.role == Vendor
    requires RedeemByToken(db, vendor, token, t1).0.Ok?
    ensures var db1 := RedeemByToken(db, vendor, token, t1).1;
      RedeemByToken(db1, vendor, token, t2) == (Err(AlreadyPickedUp), db1)
  {
    var k := OrderWithToken(db.orders, token).value;
    var db1 := RedeemByToken(db, vendor, token, t1).1;
    CompleteOrderKeepsWellFormed(db, k, t1);
    assert db1.orders[k].pickupToken == token && db1.orders[k].status == Completed;
    RedeemByTokenOutcomes(db1, vendor, token, t2);
  }

  /** Redeeming by order id demands the order's own token; with it, it is redemption by token. */
  lemma RedeemByIdMatchesToken(db: Db, vendor: User, id: string, token: string, now: string)
    requires WellFormed(db) && vendor.role == Vendor && token != [] && id in db.orders
    ensures db.orders[id].status == Ready && db.orders[id].pickupToken != token ==>
      Redeem(db, vendor, id, token, now) == (Err(InvalidPickupToken), db)
    ensures db.orders[id].pickupToken == token ==>
      Redeem(db, vendor, id, token, now) == RedeemByToken(db, vendor, token, now)
  {
    RedeemByTokenOutcomes(db, vendor, token, now);
  }

  // ================================================================ payments

  /** Creating a payment under a fresh id: refused for a non-positive amount; otherwise a `created` intent of the caller. */
  lemma CreatePaymentOutcome(db: Db, user: User, amount: int, paymentId: string, now: string)
    requires paymentId !in db.payments
    ensures var res := CreatePayment(db, user, amount, paymentId, now);
      && (res.0.Ok? <==> user.role == Student && amount > 0)
      && (user.role == Student && amount <= 0 ==> res == (Err(InvalidAmount), db))
      && (res.0.Ok? ==>
            && res.0.value == Payment(paymentId, user.id, amount, "INR", "razorpay_simulated", Created, now, None)
            && res.1.payments == db.payments[paymentId := res.0.value])
  {
  }

  /**
   * Confirming a payment: refused when it is missing or belongs to someone
   * else; otherwise it becomes paid at `now`, with its amount and owner unchanged.
   */
  lemma ConfirmPaymentOutcome(db: Db, user: User, paymentId: string, now: string)
    requires user.role == Student && paymentId != []
    ensures var res := ConfirmPayment(db, user, paymentId, now);
      && (res.0.Err? <==> paymentId !in db.payments || db.payments[paymentId].userId != user.id)
      && (res.0.Err? ==> res == (Err(PaymentNotFound), db))
      && (res.0.Ok? ==>
            && res.0.value.status == Paid && res.0.value.paidAt == Some(now)
            && res.0.value.amount == db.payments[paymentId].amount
            && res.0.value.userId == user.id
            && res.1.payments == db.payments[paymentId := res.0.value])
  {
  }

  /** Creating a payment and confirming it leaves the caller's payment paid, for the amount asked. */
  lemma CreateConfirmPays(db: Db, user: User, amount: int, paymentId: string, t1: string, t2: string,
                          created: Db, confirmed: Db)
    requires user.role == Student && amount > 0 && paymentId != [] && paymentId !in db.payments
    requires created == CreatePayment(db, user, amount, paymentId, t1).1
    requires confirmed == ConfirmPayment(created, user, paymentId, t2).1
    ensures confirmed.menu == db.menu && paymentId in confirmed.payments
    ensures confirmed.payments[paymentId] == Payment(paymentId, user.id, amount, "INR", "razorpay_simulated", Paid, t1, Some(t2))
  {
  }

  /**
   * The online flow ends here: with a confirmed payment of the cart's total,
   * a student's order of available items is admitted.
   */
  lemma PaidPaymentPasses(db: Db, user: User, entries: seq<CartEntry>, paymentId: string, drawn: Fresh,
                          paid: Payment)
    requires user.role == Student && entries != [] && paymentId != []
    requires forall i | 0 <= i < |entries| :: entries[i].itemId in db.menu && EntryOrderable(db.menu, entries[i])
    requires paymentId in db.payments && db.payments[paymentId] == paid
    requires paid.userId == user.id && paid.status == Paid && paid.amount == MenuTotal(db.menu, entries)
    ensures PlaceOrder(db, user, entries, "razorpay_simulated", paymentId, drawn).0.Ok?
  {
    PlaceOrderSucceedsIff(db, user, entries, "razorpay_simulated", paymentId, drawn);
  }

  // ================================================================ across operations

  /**
   * Only the operations' intended roles can succeed: students place orders
   * and handle payments; admins and vendors change statuses, but only admins
   * complete through it; vendors redeem tokens.
   */
  lemma AccessPolicy(db: Db, user: User, entries: seq<CartEntry>, pm: string, pid: string, drawn: Fresh,
                     id: string, text: string, token: string, amount: int, now: string)
    ensures PlaceOrder(db, user, entries, pm, pid, drawn).0.Ok? ==> user.role == Student
    ensures pid !in db.payments ==> CreatePayment(db, user, amount, pid, now).0.Ok? ==> user.role == Student
    ensures ConfirmPayment(db, user, pid, now).0.Ok? ==> user.role == Student
    ensures UpdateStatus(db, user, id, text, now).0.Ok? ==> user.role != Student
    ensures UpdateStatus(db, user, id, text, now).0.Ok? && text == "Completed" ==> user.role == Admin
    ensures Redeem(db, user, id, token, now).0.Ok? ==> user.role == Vendor
    ensures RedeemByToken(db, user, token, now).0.Ok? ==> user.role == Vendor
  {
  }

  /**
   * Once placed, an order's lines, total, ETA, number and pickup token never
   * change: no other operation recomputes them, whatever happens to the menu.
   * First the staff's edits, then the two redemption paths.
   */
  lemma StaffEditsKeepOrderFacts(db: Db, user: User, id: string, text: string,
                                 stock: Option<int>, available: Option<bool>, now: string, k: string)
    requires k in db.orders
    ensures SameFacts(db.orders[k], UpdateStatus(db, user, id, text, now).1.orders, k)
    ensures SameFacts(db.orders[k], PatchStock(db, user, id, stock, available).1.orders, k)
  {
  }

  lemma RedemptionKeepsOrderFacts(db: Db, user: User, id: string, token: string, now: string, k: string)
    requires k in db.orders
    ensures SameFacts(db.orders[k], Redeem(db, user, id, token, now).1.orders, k)
    ensures SameFacts(db.orders[k], RedeemByToken(db, user, token, now).1.orders, k)
  {
  }

  ghost predicate SameFacts(o: Order, orders: map<string, Order>, k: string) {
    && k in orders
    && orders[k].items == o.items && orders[k].total == o.total
    && orders[k].etaMinutes == o.etaMinutes && orders[k].orderNumber == o.orderNumber
    && orders[k].pickupToken == o.pickupToken
  }

  /** Stock is not kept non-negative by the menu endpoints: a stock patch may set any number. */
  lemma PatchStockSetsAnyStock(db: Db, user: User, id: string, stock: int)
    requires user.role == Vendor && id in db.menu
    ensures var res := PatchStock(db, user, id, Some(stock), None);
      && res.0.Ok? && res.1.menu[id].stock == stock
      && res.1.menu[id].available == db.menu[id].available
  {
  }

  // ================================================================ requests and listings

  /** The header a client sends, `Bearer <token>`, yields the token. */
  lemma GetAuthTokenOfBearer(scheme: string, token: string)
    requires ' ' !in scheme && ' ' !in token && scheme != []
    ensures GetAuthToken(Some(scheme + " " + token)) == Some(token)
  {
    var parts := [scheme, token];
    assert Text.Join(parts, ' ') == scheme + " " + token by {
      assert Text.Join(parts[1..], ' ') == token;
    }
    Text.SplitJoin(parts, ' ');
  }

  /** Conversely, a token is only ever the second of exactly two space-separated words. */
  lemma GetAuthTokenShape(header: Option<string>)
    requires GetAuthToken(header).Some?
    ensures exists scheme :: ' ' !in scheme && header == Some(scheme + " " + GetAuthToken(header).value)
  {
    var parts := Text.Split(header.value, ' ');
    Text.JoinSplit(header.value, ' ');
    assert Text.Join(parts[1..], ' ') == parts[1];
    assert header.value == parts[0] + " " + parts[1];
  }

  /**
   * Listing: staff see every row in the given order and never a pickup token;
   * anyone else sees exactly their own rows, and students with their tokens.
   */
  lemma FetchOrdersForUserScope(user: User, rows: seq<Order>)
    ensures var r := FetchOrdersForUser(user, rows);
      && (forall i | 0 <= i < |r| :: r[i].pickupToken.Some? <==> user.role == Student)
      && (user.role == Admin || user.role == Vendor ==>
            |r| == |rows| && forall i | 0 <= i < |rows| :: r[i].id == rows[i].id && r[i].status == rows[i].status)
      && (user.role == Student ==> forall i | 0 <= i < |r| :: r[i].userId == user.id)
      && (user.role == Student ==> forall i | 0 <= i < |rows| && rows[i].userId == user.id ::
            ViewOf(rows[i], true) in r)
  {
    if user.role == Student {
      OwnRowsOnly(user, rows);
    }
  }

  lemma OwnRowsOnly(user: User, rows: seq<Order>)
    requires user.role == Student
    ensures forall i | 0 <= i < |FetchOrdersForUser(user, rows)| :: FetchOrdersForUser(user, rows)[i].userId == user.id
    ensures forall i | 0 <= i < |rows| && rows[i].userId == user.id :: ViewOf(rows[i], true) in FetchOrdersForUser(user, rows)
  {
    var own := Filter(rows, (o: Order) => o.userId == user.id);
    var r := FetchOrdersForUser(user, rows);
    assert r == Views(own, true);
    forall i | 0 <= i < |r| ensures r[i].userId == user.id {
      assert r[i] == ViewOf(own[i], true);
    }
    forall i | 0 <= i < |rows| && rows[i].userId == user.id ensures ViewOf(rows[i], true) in r {
      var j :| 0 <= j < |own| && own[j] == rows[i];
      assert r[j] == ViewOf(rows[i], true);
    }
  }

  // ================================================================ a whole flow

  /*
   * An item at 40 rupees, 8 minutes and 25 in stock; a student orders 2 of it
   * to pay on pickup: the order costs 80, is ready in 16 minutes and leaves the
   * stock at 25. Staff mark it Ready, a vendor redeems its token: the stock is
   * 23. A second scan is refused as already picked up.
   */

  predicate FlowItem(item: MenuItem) {
    item.price == 40 && item.prepTime == 8 && item.stock == 25 && item.available
  }

  /** The first order ever placed is number 0001. */
  lemma FirstOrderNumber()
    ensures Text.OrderNumber(0) == "0001"
  {
    assert Text.NatToString(1) == "1";
  }

  lemma FlowPlace(student: User, item: MenuItem, drawn: Fresh)
    requires student.role == Student && FlowItem(item)
    ensures var db := Db(map[item.id := item], map[], map[]);
      var res := PlaceOrder(db, student, [CartEntry(item.id, 2)], "", "", drawn);
      && res.0.Ok? && res.0.value.total == 80 && res.0.value.etaMinutes == 16
      && res.0.value.status == Pending && res.0.value.items == [Snapshot(item, 2)]
      && res.1 == Db(db.menu, map[drawn.orderId := res.0.value], map[])
  {
    var db := Db(map[item.id := item], map[], map[]);
    var entries := [CartEntry(item.id, 2)];
    FlowEntries(item);
    PlaceOrderStores(db, student, entries, "", "", drawn);
  }

  lemma FlowEntries(item: MenuItem)
    requires FlowItem(item)
    ensures var menu := map[item.id := item];
      var entries := [CartEntry(item.id, 2)];
      && ValidateEntries(menu, entries) == Ok([Snapshot(item, 2)])
      && MenuTotal(menu, entries) == 80 && RawEta(menu, entries) == 16
  {
    var menu := map[item.id := item];
    var entries := [CartEntry(item.id, 2)];
    assert entries[..0] == [];
    assert EntryOrderable(menu, entries[0]);
    assert ValidateEntries(menu, []) == Ok([]);
    assert [] + [Snapshot(menu[item.id], 2)] == [Snapshot(item, 2)];
  }

  lemma FlowReady(admin: User, item: MenuItem, o: Order, t1: string)
    requires admin.role == Admin && o.status == Pending
    ensures UpdateStatus(Db(map[item.id := item], map[o.id := o], map[]), admin, o.id, "Ready", t1)
         == (Ok(o.(status := Ready)), Db(map[item.id := item], map[o.id := o.(status := Ready)], map[]))
  {
    assert ParseStatus("Ready") == Some(Ready);
    assert map[o.id := o][o.id := o.(status := Ready)] == map[o.id := o.(status := Ready)];
  }

  lemma FlowRedeem(vendor: User, item: MenuItem, o: Order, t2: string)
    requires vendor.role == Vendor && FlowItem(item) && o.status == Ready && o.pickupToken != []
    requires o.items == [Snapshot(item, 2)]
    ensures var done := o.(status := Completed, pickupTokenRedeemedAt := Some(t2));
      RedeemByToken(Db(map[item.id := item], map[o.id := o], map[]), vendor, o.pickupToken, t2)
        == (Ok(done), Db(map[item.id := item.(stock := 23)], map[o.id := done], map[]))
  {
    var db := Db(map[item.id := item], map[o.id := o], map[]);
    assert WellFormed(db);
    RedeemByTokenOutcomes(db, vendor, o.pickupToken, t2);
    assert o.id in db.orders && db.orders[o.id].pickupToken == o.pickupToken;
    assert o.items[..0] == [];
    assert DeductStock(db.menu, o.items) == Ok(map[item.id := item.(stock := 23)]) by {
      assert CheckLines(db.menu, o.items[..0]) == None;
      assert LineDeductible(db.menu, o.items[0]);
      assert CheckLines(db.menu, o.items) == None;
      ApplyLinesEffect(db.menu, o.items, item.id);
      assert QtyOf(o.items, item.id) == 2;
      var m := ApplyLines(db.menu, o.items);
      assert m.Keys == {item.id};
      assert m[item.id] == item.(stock := 23);
      assert m == map[item.id := item.(stock := 23)];
    }
    assert map[o.id := o][o.id := o.(status := Completed, pickupTokenRedeemedAt := Some(t2))]
        == map[o.id := o.(status := Completed, pickupTokenRedeemedAt := Some(t2))];
  }

  lemma FlowSecondScan(vendor: User, item: MenuItem, o: Order, t3: string)
    requires vendor.role == Vendor && o.status == Completed && o.pickupToken != []
    ensures var db := Db(map[item.id := item], map[o.id := o], map[]);
      RedeemByToken(db, vendor, o.pickupToken, t3) == (Err(AlreadyPickedUp), db)
  {
    var db := Db(map[item.id := item], map[o.id := o], map[]);
    assert WellFormed(db);
    RedeemByTokenOutcomes(db, vendor, o.pickupToken, t3);
    assert o.id in db.orders && db.orders[o.id].pickupToken == o.pickupToken;
  }
}
