/**
 * The order, stock and pickup-token engine of server/index.js, as values.
 *
 * The SQLite database is the value `Db`: the `menu`, `orders` (with their
 * `order_items` embedded) and `payments` tables, each keyed by id. Every
 * endpoint is a function from a `Db` and its inputs to a result and the next
 * `Db`; the class in server_store.dfy runs the same steps imperatively and is
 * proved to agree with these functions. A `db.transaction` that throws
 * rolls back, so every failing operation returns `db` itself.
 *
 * Identity is an input (`requireAuth` is not modelled); ids, pickup tokens and
 * timestamps, which the server draws from `crypto.randomUUID` and the clock,
 * are inputs too. The empty string stands for a missing or falsy JSON string.
 */
module Server {
  import opened Common
  import Text
  import Cart

  // ---------------------------------------------------------------- entities

  datatype Role = Admin | Vendor | Student

  /** What `requireAuth` resolves a session to. */
  datatype User = User(id: string, name: string, role: Role)

  datatype MenuItem = MenuItem(id: string, name: string, category: string, price: int,
                               prepTime: int, stock: int, available: bool)

  /** A `menu` row as SQLite stores it: `available` is an INTEGER column. */
  datatype MenuRow = MenuRow(id: string, name: string, category: string, price: int,
                             prepTime: int, stock: int, available: int)

  datatype Status = Pending | Preparing | Ready | Completed

  datatype Order = Order(
    id: string,
    orderNumber: string,
    userId: string,
    customerName: string,
    items: seq<Cart.Line>,
    total: int,
    status: Status,
    createdAt: string,
    etaMinutes: int,
    paymentMethod: string,
    paymentMethodLabel: string,
    paymentId: Option<string>,
    pickupToken: string,
    pickupTokenIssuedAt: string,
    pickupTokenRedeemedAt: Option<string>)

  datatype PaymentStatus = Created | Paid

  datatype Payment = Payment(id: string, userId: string, amount: int, currency: string,
                             provider: string, status: PaymentStatus, createdAt: string,
                             paidAt: Option<string>)

  /** The messages the endpoints answer with, one variant per distinct message. */
  datatype Error =
    | Forbidden                          // requireRole
    | CartEmpty
    | InvalidPaymentMethod
    | InvalidItemInCart
    | InsufficientStockFor(name: string)
    | PaymentRequired
    | PaymentNotFound
    | PaymentNotConfirmed
    | PaymentAmountMismatch
    | InvalidStatus
    | UsePickupVerification             // a vendor asking for Completed
    | NotFound
    | InvalidItemInOrder
    | InsufficientStockToCompletePickup
    | AlreadyPickedUp
    | NotReadyForPickup
    | InvalidPickupToken
    | MissingToken
    | InvalidAmount
    | MissingPaymentId

  /** The three tables the engine reads and writes. */
  datatype Db = Db(menu: map<string, MenuItem>, orders: map<string, Order>,
                   payments: map<string, Payment>)

  /** One element of the `items` array a client posts: `{itemId, qty}`. */
  datatype CartEntry = CartEntry(itemId: string, qty: int)

  /** The values the server draws from `createToken()` and `new Date()` for one new order. */
  datatype Fresh = Fresh(orderId: string, pickupToken: string, now: string)

  /** The pickup tokens issued so far. */
  function Tokens(orders: map<string, Order>): set<string> {
    set k | k in orders :: orders[k].pickupToken
  }

  /**
   * What the tables always satisfy: every row is stored under its own id, and
   * no two orders share a pickup token, so a token names at most one order.
   */
  ghost predicate WellFormed(db: Db) {
    && (forall k | k in db.menu :: db.menu[k].id == k)
    && (forall k | k in db.orders :: db.orders[k].id == k)
    && (forall k | k in db.payments :: db.payments[k].id == k)
    && (forall a, b | a in db.orders && b in db.orders
          && db.orders[a].pickupToken == db.orders[b].pickupToken :: a == b)
  }

  // ---------------------------------------------------------------- pure helpers

  /** `getAuthToken`: the second word of an `Authorization` header made of exactly two words. */
  function GetAuthToken(header: Option<string>): (token: Option<string>)
    ensures token.Some? ==> ' ' !in token.value
  {
    if header.None? || header.value == [] then None
    else
      var parts := Text.Split(header.value, ' ');
      if |parts| != 2 then None else Some(parts[1])
  }

  /** `requireRole(...roles)`: `Forbidden` unless the caller's role is listed. */
  function RequireRole(user: User, roles: set<Role>): (r: Option<Error>)
    ensures r.None? <==> user.role in roles
    ensures r.Some? ==> r.value == Forbidden
  {
    if user.role in roles then None else Some(Forbidden)
  }

  /** `mapMenuRow`: the row with `available` read as a boolean. */
  function MapMenuRow(row: MenuRow): (item: MenuItem)
    ensures item.available <==> row.available != 0
    ensures row.available == 0 || row.available == 1 ==>
      MenuRow(item.id, item.name, item.category, item.price, item.prepTime, item.stock,
              if item.available then 1 else 0) == row
  {
    MenuItem(row.id, row.name, row.category, row.price, row.prepTime, row.stock, row.available != 0)
  }

  /** How the endpoints write an item back: `available ? 1 : 0`. */
  function MenuItemRow(item: MenuItem): (row: MenuRow)
    ensures row.available == 0 || row.available == 1
    ensures MapMenuRow(row) == item
  {
    MenuRow(item.id, item.name, item.category, item.price, item.prepTime, item.stock,
            if item.available then 1 else 0)
  }

  function StatusName(s: Status): string {
    match s
    case Pending => "Pending"
    case Preparing => "Preparing"
    case Ready => "Ready"
    case Completed => "Completed"
  }

  /** The check `["Pending", "Preparing", "Ready", "Completed"].includes(status)`. */
  function ParseStatus(text: string): (r: Option<Status>)
    ensures r.Some? ==> StatusName(r.value) == text
    ensures r.None? ==> forall s: Status :: StatusName(s) != text
  {
    if text == "Pending" then Some(Pending)
    else if text == "Preparing" then Some(Preparing)
    else if text == "Ready" then Some(Ready)
    else if text == "Completed" then Some(Completed)
    else None
  }

  // ---------------------------------------------------------------- stock deduction

  /** What the first pass of `deductStockForOrder` demands of one line. */
  predicate LineDeductible(menu: map<string, MenuItem>, l: Cart.Line) {
    l.itemId in menu && l.qty > 0 && menu[l.itemId].stock >= l.qty
  }

  function CheckLine(menu: map<string, MenuItem>, l: Cart.Line): (r: Option<Error>)
    ensures r.None? <==> LineDeductible(menu, l)
  {
    if l.itemId !in menu || l.qty <= 0 then Some(InvalidItemInOrder)
    else if menu[l.itemId].stock < l.qty then Some(InsufficientStockToCompletePickup)
    else None
  }

  /**
   * The first pass of `deductStockForOrder`: each line against the stock as it
   * stands, in order; the first line that fails decides the error.
   */
  function CheckLines(menu: map<string, MenuItem>, lines: seq<Cart.Line>): (r: Option<Error>)
    ensures r.None? <==> forall i | 0 <= i < |lines| :: LineDeductible(menu, lines[i])
    ensures r.Some? ==> r.value == InvalidItemInOrder || r.value == InsufficientStockToCompletePickup
  {
    if lines == [] then None
    else match CheckLines(menu, lines[..|lines| - 1])
      case Some(e) => Some(e)
      case None => CheckLine(menu, lines[|lines| - 1])
  }

  /**
   * The second pass: for each line in turn, re-read the item's stock and write
   * back that stock minus the line's quantity.
   */
  function ApplyLines(menu: map<string, MenuItem>, lines: seq<Cart.Line>): (m: map<string, MenuItem>)
    requires forall i | 0 <= i < |lines| :: lines[i].itemId in menu
    ensures m.Keys == menu.Keys
  {
    if lines == [] then menu
    else
      var m := ApplyLines(menu, lines[..|lines| - 1]);
      var l := lines[|lines| - 1];
      m[l.itemId := m[l.itemId].(stock := m[l.itemId].stock - l.qty)]
  }

  /** `deductStockForOrder` on the lines of one order, as the code is written. */
  function DeductStock(menu: map<string, MenuItem>, lines: seq<Cart.Line>): (r: Result<map<string, MenuItem>, Error>)
    ensures r.Ok? <==> forall i | 0 <= i < |lines| :: LineDeductible(menu, lines[i])
    ensures r.Ok? ==> r.value.Keys == menu.Keys
    ensures r.Err? ==> r.error == InvalidItemInOrder || r.error == InsufficientStockToCompletePickup
  {
    match CheckLines(menu, lines)
    case Some(e) => Err(e)
    case None => Ok(ApplyLines(menu, lines))
  }

  /** The sum of the quantities of the lines for item `k`. */
  function QtyOf(lines: seq<Cart.Line>, k: string): int {
    if lines == [] then 0
    else QtyOf(lines[..|lines| - 1], k)
         + (if lines[|lines| - 1].itemId == k then lines[|lines| - 1].qty else 0)
  }

  /**
   * The first pass as evidently intended: every line's item must hold the
   * quantity the WHOLE order asks of that item, not just the line's own.
   */
  function CheckLinesAgainst(menu: map<string, MenuItem>, lines: seq<Cart.Line>, all: seq<Cart.Line>): (r: Option<Error>)
    ensures r.None? <==> forall i | 0 <= i < |lines| ::
      lines[i].itemId in menu && lines[i].qty > 0 && menu[lines[i].itemId].stock >= QtyOf(all, lines[i].itemId)
  {
    if lines == [] then None
    else match CheckLinesAgainst(menu, lines[..|lines| - 1], all)
      case Some(e) => Some(e)
      case None =>
        var l := lines[|lines| - 1];
        if l.itemId !in menu || l.qty <= 0 then Some(InvalidItemInOrder)
        else if menu[l.itemId].stock < QtyOf(all, l.itemId) then Some(InsufficientStockToCompletePickup)
        else None
  }

  /** The corrected `deductStockForOrder`: checks aggregated quantities, then writes as before. */
  function DeductStockChecked(menu: map<string, MenuItem>, lines: seq<Cart.Line>): (r: Result<map<string, MenuItem>, Error>)
    ensures r.Ok? <==> forall i | 0 <= i < |lines| ::
      lines[i].itemId in menu && lines[i].qty > 0 && menu[lines[i].itemId].stock >= QtyOf(lines, lines[i].itemId)
    ensures r.Ok? ==> r.value.Keys == menu.Keys
  {
    match CheckLinesAgainst(menu, lines, lines)
    case Some(e) => Err(e)
    case None => Ok(ApplyLines(menu, lines))
  }

  // ---------------------------------------------------------------- placing an order

  /** `paymentLabels`: the accepted payment methods and the label stored with each. */
  const PaymentLabels: map<string, string> :=
    map["pay_on_pickup" := "Pay on pickup", "razorpay_simulated" := "Razorpay (simulated)"]

  /** What the placement loop demands of one posted entry. */
  predicate EntryOrderable(menu: map<string, MenuItem>, e: CartEntry) {
    e.itemId in menu && e.qty > 0 && menu[e.itemId].available && menu[e.itemId].stock >= e.qty
  }

  /** The order line pushed for an entry: the item's id, name and price at this instant. */
  function Snapshot(item: MenuItem, qty: int): Cart.Line {
    Cart.Line(item.id, item.name, item.price, qty)
  }

  /**
   * The validation half of the placement loop: the lines it pushes, or the
   * error of the first entry that fails.
   */
  function ValidateEntries(menu: map<string, MenuItem>, entries: seq<CartEntry>): (r: Result<seq<Cart.Line>, Error>)
    ensures r.Ok? <==> forall i | 0 <= i < |entries| :: EntryOrderable(menu, entries[i])
    ensures r.Ok? ==> |r.value| == |entries|
    ensures r.Ok? ==> forall i | 0 <= i < |entries| ::
      r.value[i] == Snapshot(menu[entries[i].itemId], entries[i].qty)
    ensures r.Err? ==> r.error == InvalidItemInCart || r.error.InsufficientStockFor?
  {
    if entries == [] then Ok([])
    else match ValidateEntries(menu, entries[..|entries| - 1])
      case Err(e) => Err(e)
      case Ok(lines) =>
        var e := entries[|entries| - 1];
        if e.itemId !in menu || e.qty <= 0 then Err(InvalidItemInCart)
        else if !menu[e.itemId].available || menu[e.itemId].stock < e.qty then
          Err(InsufficientStockFor(menu[e.itemId].name))
        else Ok(lines + [Snapshot(menu[e.itemId], e.qty)])
  }

  /** The sum of preparation time times quantity over the entries. */
  function RawEta(menu: map<string, MenuItem>, entries: seq<CartEntry>): int
    requires forall i | 0 <= i < |entries| :: entries[i].itemId in menu
  {
    if entries == [] then 0
    else RawEta(menu, entries[..|entries| - 1])
         + menu[entries[|entries| - 1].itemId].prepTime * entries[|entries| - 1].qty
  }

  /** The online-payment gate of the placement transaction. */
  function CheckPayment(payments: map<string, Payment>, user: User, selected: string,
                        paymentId: string, total: int): (r: Option<Error>)
    ensures r.None? <==>
      || selected != "razorpay_simulated"
      || (&& paymentId != [] && paymentId in payments && payments[paymentId].userId == user.id
          && payments[paymentId].status == Paid && payments[paymentId].amount == total)
  {
    if selected != "razorpay_simulated" then None
    else if paymentId == [] then Some(PaymentRequired)
    else if paymentId !in payments || payments[paymentId].userId != user.id then Some(PaymentNotFound)
    else if payments[paymentId].status != Paid then Some(PaymentNotConfirmed)
    else if payments[paymentId].amount != total then Some(PaymentAmountMismatch)
    else None
  }

  /** `paymentMethod || "pay_on_pickup"`. */
  function SelectedMethod(paymentMethod: string): string {
    if paymentMethod == [] then "pay_on_pickup" else paymentMethod
  }

  /**
   * The checks of `POST /api/orders`, in the order the handler makes them: the
   * role, a non-empty cart, a known payment method, every entry, then the
   * payment. On success, the lines the order will hold.
   */
  function AdmitOrder(db: Db, user: User, entries: seq<CartEntry>, paymentMethod: string,
                      paymentId: string): (r: Result<seq<Cart.Line>, Error>)
    ensures r.Ok? ==> ValidateEntries(db.menu, entries) == r
  {
    if RequireRole(user, {Student}).Some? then Err(Forbidden)
    else if entries == [] then Err(CartEmpty)
    else if SelectedMethod(paymentMethod) !in PaymentLabels then Err(InvalidPaymentMethod)
    else match ValidateEntries(db.menu, entries)
      case Err(e) => Err(e)
      case Ok(lines) =>
        match CheckPayment(db.payments, user, SelectedMethod(paymentMethod), paymentId, Cart.Total(lines))
        case Some(e) => Err(e)
        case None => Ok(lines)
  }

  /** The row the handler inserts for an admitted order. */
  function NewOrder(db: Db, user: User, entries: seq<CartEntry>, lines: seq<Cart.Line>,
                    paymentMethod: string, paymentId: string, drawn: Fresh): Order
    requires forall i | 0 <= i < |entries| :: entries[i].itemId in db.menu
    requires SelectedMethod(paymentMethod) in PaymentLabels
  {
    var selected := SelectedMethod(paymentMethod);
    Order(
      drawn.orderId, Text.OrderNumber(|db.orders|), user.id, user.name, lines, Cart.Total(lines),
      Pending, drawn.now, Max(5, RawEta(db.menu, entries)), selected, PaymentLabels[selected],
      if paymentId == [] then None else Some(paymentId),
      drawn.pickupToken, drawn.now, None)
  }

  /** `POST /api/orders`. */
  function PlaceOrder(db: Db, user: User, entries: seq<CartEntry>, paymentMethod: string,
                      paymentId: string, drawn: Fresh): (res: (Result<Order, Error>, Db))
    ensures res.1.menu == db.menu && res.1.payments == db.payments
    ensures res.0.Err? ==> res.1 == db
    ensures res.0.Ok? ==> res.1.orders == db.orders[drawn.orderId := res.0.value]
  {
    match AdmitOrder(db, user, entries, paymentMethod, paymentId)
    case Err(e) => (Err(e), db)
    case Ok(lines) =>
      var order := NewOrder(db, user, entries, lines, paymentMethod, paymentId, drawn);
      (Ok(order), db.(orders := db.orders[drawn.orderId := order]))
  }

  /**
   * The transaction that completes an order, as the code is written: deduct
   * its stock with `deductStockForOrder` and stamp it Completed with the
   * redemption time, or change nothing.
   */
  function CompleteOrder(db: Db, id: string, now: string): (res: (Result<Order, Error>, Db))
    requires id in db.orders
    ensures res.1.payments == db.payments
    ensures res.0.Err? ==> res.1 == db
    ensures res.0.Ok? ==> res.1.orders == db.orders[id := res.0.value]
  {
    match DeductStock(db.menu, db.orders[id].items)
    case Err(e) => (Err(e), db)
    case Ok(menu) =>
      var o := db.orders[id].(status := Completed, pickupTokenRedeemedAt := Some(now));
      (Ok(o), db.(menu := menu, orders := db.orders[id := o]))
  }

  /** The completion transaction as evidently intended: the same steps over the corrected deduction. */
  function CompleteOrderChecked(db: Db, id: string, now: string): (res: (Result<Order, Error>, Db))
    requires id in db.orders
    ensures res.1.payments == db.payments
    ensures res.0.Err? ==> res.1 == db
    ensures res.0.Ok? ==> res.1.orders == db.orders[id := res.0.value]
  {
    match DeductStockChecked(db.menu, db.orders[id].items)
    case Err(e) => (Err(e), db)
    case Ok(menu) =>
      var o := db.orders[id].(status := Completed, pickupTokenRedeemedAt := Some(now));
      (Ok(o), db.(menu := menu, orders := db.orders[id := o]))
  }

  /** `PATCH /api/orders/:id/status`. */
  function UpdateStatus(db: Db, user: User, id: string, statusText: string, now: string): (res: (Result<Order, Error>, Db))
    ensures res.1.payments == db.payments
    ensures res.0.Err? ==> res.1 == db
    ensures res.0.Ok? ==> id in db.orders && res.1.orders == db.orders[id := res.0.value]
  {
    if RequireRole(user, {Admin, Vendor}).Some? then (Err(Forbidden), db)
    else match ParseStatus(statusText)
      case None => (Err(InvalidStatus), db)
      case Some(status) =>
        if user.role == Vendor && status == Completed then (Err(UsePickupVerification), db)
        else if id !in db.orders then (Err(NotFound), db)
        else if status == Completed && db.orders[id].status != Completed then CompleteOrder(db, id, now)
        else
          var o := db.orders[id].(status := status);
          (Ok(o), db.(orders := db.orders[id := o]))
  }

  /** `POST /api/orders/:id/redeem`. */
  function Redeem(db: Db, user: User, id: string, token: string, now: string): (res: (Result<Order, Error>, Db))
    ensures res.1.payments == db.payments
    ensures res.0.Err? ==> res.1 == db
  {
    if RequireRole(user, {Vendor}).Some? then (Err(Forbidden), db)
    else if token == [] then (Err(MissingToken), db)
    else if id !in db.orders then (Err(NotFound), db)
    else if db.orders[id].status == Completed then (Err(AlreadyPickedUp), db)
    else if db.orders[id].status != Ready then (Err(NotReadyForPickup), db)
    else if db.orders[id].pickupToken == [] || db.orders[id].pickupToken != token then (Err(InvalidPickupToken), db)
    else CompleteOrder(db, id, now)
  }

  /** `SELECT * FROM orders WHERE pickupToken = ?`: the id of an order holding the token. */
  ghost function OrderWithToken(orders: map<string, Order>, token: string): (r: Option<string>)
    ensures r.None? <==> token !in Tokens(orders)
    ensures r.Some? ==> r.value in orders && orders[r.value].pickupToken == token
  {
    if exists k :: k in orders && orders[k].pickupToken == token then
      var k :| k in orders && orders[k].pickupToken == token; Some(k)
    else None
  }

  /** `POST /api/orders/redeem-by-token`. */
  ghost function RedeemByToken(db: Db, user: User, token: string, now: string): (res: (Result<Order, Error>, Db))
    ensures res.1.payments == db.payments
    ensures res.0.Err? ==> res.1 == db
  {
    if RequireRole(user, {Vendor}).Some? then (Err(Forbidden), db)
    else if token == [] then (Err(MissingToken), db)
    else match OrderWithToken(db.orders, token)
      case None => (Err(InvalidPickupToken), db)
      case Some(id) =>
        if db.orders[id].status == Completed then (Err(AlreadyPickedUp), db)
        else if db.orders[id].status != Ready then (Err(NotReadyForPickup), db)
        else CompleteOrder(db, id, now)
  }

  // ---------------------------------------------------------------- payments and stock edits

  /** `POST /api/payments/create-order`. */
  function CreatePayment(db: Db, user: User, amount: int, paymentId: string, now: string): (res: (Result<Payment, Error>, Db))
    requires paymentId !in db.payments
    ensures res.1.menu == db.menu && res.1.orders == db.orders
    ensures res.0.Err? ==> res.1 == db
  {
    if RequireRole(user, {Student}).Some? then (Err(Forbidden), db)
    else if amount <= 0 then (Err(InvalidAmount), db)
    else
      var p := Payment(paymentId, user.id, amount, "INR", "razorpay_simulated", Created, now, None);
      (Ok(p), db.(payments := db.payments[paymentId := p]))
  }

  /** `POST /api/payments/confirm`. */
  function ConfirmPayment(db: Db, user: User, paymentId: string, now: string): (res: (Result<Payment, Error>, Db))
    ensures res.1.menu == db.menu && res.1.orders == db.orders
    ensures res.0.Err? ==> res.1 == db
  {
    if RequireRole(user, {Student}).Some? then (Err(Forbidden), db)
    else if paymentId == [] then (Err(MissingPaymentId), db)
    else if paymentId !in db.payments || db.payments[paymentId].userId != user.id then (Err(PaymentNotFound), db)
    else
      var p := db.payments[paymentId].(status := Paid, paidAt := Some(now));
      (Ok(p), db.(payments := db.payments[paymentId := p]))
  }

  /**
   * `PATCH /api/menu/:id/stock`: any finite number replaces the stock
   * (`None` stands for a non-finite one), any boolean the availability.
   */
  function PatchStock(db: Db, user: User, id: string, stock: Option<int>, available: Option<bool>): (res: (Result<MenuItem, Error>, Db))
    ensures res.1.orders == db.orders && res.1.payments == db.payments
    ensures res.0.Err? ==> res.1 == db
  {
    if RequireRole(user, {Admin, Vendor}).Some? then (Err(Forbidden), db)
    else if id !in db.menu then (Err(NotFound), db)
    else
      var item := db.menu[id];
      var updated := item.(stock := if stock.Some? then stock.value else item.stock,
                           available := if available.Some? then available.value else item.available);
      (Ok(updated), db.(menu := db.menu[id := updated]))
  }

  // ---------------------------------------------------------------- listing

  /** The payload `fetchOrdersForUser` builds for one order. */
  datatype OrderView = OrderView(
    id: string,
    orderNumber: string,
    userId: string,
    customerName: string,
    items: seq<Cart.Line>,
    total: int,
    status: Status,
    createdAt: string,
    etaMinutes: int,
    paymentMethod: string,
    paymentMethodLabel: string,
    paymentId: Option<string>,
    pickupToken: Option<string>,
    pickupTokenIssuedAt: Option<string>)

  function ViewOf(o: Order, withToken: bool): OrderView {
    OrderView(o.id, o.orderNumber, o.userId, o.customerName, o.items, o.total, o.status,
              o.createdAt, o.etaMinutes, o.paymentMethod, o.paymentMethodLabel, o.paymentId,
              if withToken then Some(o.pickupToken) else None,
              if withToken then Some(o.pickupTokenIssuedAt) else None)
  }

  function Views(rows: seq<Order>, withToken: bool): (r: seq<OrderView>)
    ensures |r| == |rows|
    ensures forall i | 0 <= i < |rows| :: r[i] == ViewOf(rows[i], withToken)
  {
    if rows == [] then [] else [ViewOf(rows[0], withToken)] + Views(rows[1..], withToken)
  }

  /**
   * `fetchOrdersForUser`. `rows` is the `orders` table in the order
   * `ORDER BY createdAt DESC` returns it; staff see every row, anyone else only
   * their own, and only students get the pickup token.
   */
  function FetchOrdersForUser(user: User, rows: seq<Order>): (r: seq<OrderView>)
    ensures |r| <= |rows|
    ensures user.role == Admin || user.role == Vendor ==> |r| == |rows|
    ensures user.role != Admin && user.role != Vendor ==> forall i | 0 <= i < |r| :: r[i].userId == user.id
    ensures forall i | 0 <= i < |r| :: r[i].pickupToken.Some? <==> user.role == Student
  {
    var visible := if user.role == Admin || user.role == Vendor then rows
                   else Filter(rows, (o: Order) => o.userId == user.id);
    Views(visible, user.role == Student)
  }
}
