/**
 * client/src/App.jsx: the React client. Its cart handlers are `setCart`
 * reducers that return a new array, its order lists are `filter`s over the
 * orders the server returned, and its stock steppers clamp at zero; all of
 * them are functions here.
 */
module WebClient {
  import opened Common
  import Cart
  import Server
  import ServerProperties

  // ---------------------------------------------------------------- cart

  /** `handleAddToCart`. */
  function AddToCart(cart: seq<Cart.Line>, item: Server.MenuItem): (r: seq<Cart.Line>)
    ensures |cart| <= |r| <= |cart| + 1
    ensures forall j | 0 <= j < |cart| && cart[j].itemId != item.id :: r[j] == cart[j]
    ensures forall j | |cart| <= j < |r| :: r[j] == Cart.Line(item.id, item.name, item.price, 1)
  {
    if !item.available || item.stock <= 0 then cart
    else if Cart.FindLine(cart, item.id).Some? then Cart.Bump(cart, item.id, 1)
    else cart + [Cart.Line(item.id, item.name, item.price, 1)]
  }

  /** `updateCart`: the map above, then every line at or below zero dropped. */
  function UpdateCart(cart: seq<Cart.Line>, itemId: string, delta: int): (r: seq<Cart.Line>)
    ensures Cart.PositiveQuantities(r) && |r| <= |cart|
    ensures forall j | 0 <= j < |cart| && cart[j].itemId != itemId && cart[j].qty > 0 :: cart[j] in r
  {
    KeepPositive(Cart.Bump(cart, itemId, delta))
  }

  /** `.filter((entry) => entry.qty > 0)`. */
  function KeepPositive(cart: seq<Cart.Line>): (r: seq<Cart.Line>)
    ensures Cart.PositiveQuantities(r) && |r| <= |cart|
    ensures forall j | 0 <= j < |cart| && cart[j].qty > 0 :: cart[j] in r
    ensures Cart.PositiveQuantities(cart) ==> r == cart
  {
    Filter(cart, (l: Cart.Line) => l.qty > 0)
  }

  /**
   * `handleAddToCart` does nothing for an item that is unavailable or out of
   * stock; otherwise a line already in the cart gains one unit, and a new item
   * is appended with one unit, so the cart grows by at most one line and its
   * total by the item's price. The cart keeps its shape.
   */
  lemma AddToCartEffect(cart: seq<Cart.Line>, item: Server.MenuItem)
    requires Cart.WellShaped(cart)
    ensures Cart.WellShaped(AddToCart(cart, item))
    ensures |cart| <= |AddToCart(cart, item)| <= |cart| + 1
    ensures !item.available || item.stock <= 0 ==> AddToCart(cart, item) == cart
    ensures item.available && item.stock > 0 && Cart.FindLine(cart, item.id).Some? ==>
      var i := Cart.FindLine(cart, item.id).value;
      && AddToCart(cart, item) == cart[i := cart[i].(qty := cart[i].qty + 1)]
      && Cart.Total(AddToCart(cart, item)) == Cart.Total(cart) + cart[i].price
    ensures item.available && item.stock > 0 && Cart.FindLine(cart, item.id).None? ==>
      && AddToCart(cart, item) == cart + [Cart.Line(item.id, item.name, item.price, 1)]
      && Cart.Total(AddToCart(cart, item)) == Cart.Total(cart) + item.price
  {
    if item.available && item.stock > 0 {
      match Cart.FindLine(cart, item.id)
      case Some(i) =>
        Cart.BumpOne(cart, item.id, 1, i);
        Cart.BumpKeepsShape(cart, i, 1);
        Cart.TotalMoveQty(cart, i, 1);
      case None =>
        var l := Cart.Line(item.id, item.name, item.price, 1);
        Cart.AppendKeepsShape(cart, l);
        Cart.TotalPush(cart, l);
    }
  }

  /** `updateCart` never leaves a line at or below zero. */
  lemma UpdateCartPositive(cart: seq<Cart.Line>, itemId: string, delta: int)
    ensures Cart.PositiveQuantities(UpdateCart(cart, itemId, delta))
    ensures forall j | 0 <= j < |cart| && cart[j].itemId != itemId && cart[j].qty > 0 ::
      cart[j] in UpdateCart(cart, itemId, delta)
  {
    var bumped := Cart.Bump(cart, itemId, delta);
    forall j | 0 <= j < |cart| && cart[j].itemId != itemId && cart[j].qty > 0
      ensures cart[j] in UpdateCart(cart, itemId, delta)
    {
      assert bumped[j] == cart[j];
    }
  }

  /** On a well-shaped cart, an update for an item not in the cart changes nothing. */
  lemma UpdateCartAbsent(cart: seq<Cart.Line>, itemId: string, delta: int)
    requires Cart.WellShaped(cart) && Cart.FindLine(cart, itemId).None?
    ensures UpdateCart(cart, itemId, delta) == cart
  {
    Cart.BumpNone(cart, itemId, delta);
  }

  /** On a well-shaped cart, while the item's line stays positive, the update only moves it by `delta`. */
  lemma UpdateCartMoves(cart: seq<Cart.Line>, itemId: string, delta: int, i: nat)
    requires Cart.WellShaped(cart) && Cart.FindLine(cart, itemId) == Some(i) && cart[i].qty + delta > 0
    ensures UpdateCart(cart, itemId, delta) == cart[i := cart[i].(qty := cart[i].qty + delta)]
    ensures Cart.Total(UpdateCart(cart, itemId, delta)) == Cart.Total(cart) + cart[i].price * delta
  {
    Cart.BumpOne(cart, itemId, delta, i);
    Cart.BumpKeepsShape(cart, i, delta);
    Cart.TotalMoveQty(cart, i, delta);
  }

  /** On a well-shaped cart, once the item's line reaches zero the update removes the item and nothing else. */
  lemma UpdateCartDrops(cart: seq<Cart.Line>, itemId: string, delta: int, i: nat)
    requires Cart.WellShaped(cart) && Cart.FindLine(cart, itemId) == Some(i) && cart[i].qty + delta <= 0
    ensures UpdateCart(cart, itemId, delta) == Cart.Without(cart, itemId)
    ensures |UpdateCart(cart, itemId, delta)| == |cart| - 1
  {
    forall j | 0 <= j < |cart| && cart[j].itemId == itemId
      ensures cart[j].qty + delta <= 0
    {
      if j > i {
        assert false;
      }
    }
    DropsOnlyThatItem(cart, itemId, delta);
    Cart.WithoutCount(cart, itemId, i);
  }

  /** When the item's lines reach zero, dropping non-positive lines is dropping that item. */
  lemma {:induction false} DropsOnlyThatItem(cart: seq<Cart.Line>, itemId: string, delta: int)
    requires Cart.PositiveQuantities(cart)
    requires forall j | 0 <= j < |cart| && cart[j].itemId == itemId :: cart[j].qty + delta <= 0
    ensures UpdateCart(cart, itemId, delta) == Cart.Without(cart, itemId)
  {
    if cart != [] {
      assert Cart.Bump(cart, itemId, delta)[1..] == Cart.Bump(cart[1..], itemId, delta);
      DropsOnlyThatItem(cart[1..], itemId, delta);
    }
  }

  /** The `items` the client posts: each line's item id and quantity. */
  function Payload(cart: seq<Cart.Line>): (r: seq<Server.CartEntry>)
    ensures |r| == |cart|
    ensures forall i | 0 <= i < |cart| :: r[i] == Server.CartEntry(cart[i].itemId, cart[i].qty)
  {
    if cart == [] then [] else Payload(cart[..|cart| - 1]) + [Server.CartEntry(cart[|cart| - 1].itemId, cart[|cart| - 1].qty)]
  }

  /**
   * The `cartTotal` the client shows, and pays for, is the total the server
   * computes for the posted items as long as each line's price is still the
   * menu's.
   */
  lemma {:induction false} PayloadTotal(menu: map<string, Server.MenuItem>, cart: seq<Cart.Line>)
    requires forall i | 0 <= i < |cart| :: cart[i].itemId in menu && menu[cart[i].itemId].price == cart[i].price
    ensures ServerProperties.MenuTotal(menu, Payload(cart)) == Cart.Total(cart)
  {
    if cart != [] {
      assert Payload(cart)[..|cart| - 1] == Payload(cart[..|cart| - 1]);
      PayloadTotal(menu, cart[..|cart| - 1]);
    }
  }

  // ---------------------------------------------------------------- orders

  predicate IsCompleted(o: Server.OrderView) { o.status == Server.Completed }

  /** `activeOrders`. */
  function ActiveOrders(orders: seq<Server.OrderView>): seq<Server.OrderView> {
    Filter(orders, (o: Server.OrderView) => !IsCompleted(o))
  }

  /** `pastOrders`. */
  function PastOrders(orders: seq<Server.OrderView>): seq<Server.OrderView> {
    Filter(orders, (o: Server.OrderView) => IsCompleted(o))
  }

  /** `readyOrders`. */
  function ReadyOrders(orders: seq<Server.OrderView>): seq<Server.OrderView> {
    Filter(orders, (o: Server.OrderView) => o.status == Server.Ready)
  }

  /**
   * Active and past orders split the list: every order is in exactly one of
   * them, the ready orders are the ready ones among the active.
   */
  lemma OrdersPartition(orders: seq<Server.OrderView>)
    ensures |ActiveOrders(orders)| + |PastOrders(orders)| == |orders|
    ensures multiset(ActiveOrders(orders)) + multiset(PastOrders(orders)) == multiset(orders)
    ensures forall i | 0 <= i < |orders| :: orders[i] in ActiveOrders(orders) <==> !IsCompleted(orders[i])
    ensures forall i | 0 <= i < |orders| :: orders[i] in PastOrders(orders) <==> IsCompleted(orders[i])
    ensures ReadyOrders(orders) == Filter(ActiveOrders(orders), (o: Server.OrderView) => o.status == Server.Ready)
  {
    var active := (o: Server.OrderView) => !IsCompleted(o);
    var past := (o: Server.OrderView) => IsCompleted(o);
    var ready := (o: Server.OrderView) => o.status == Server.Ready;
    FilterLength(orders, active, past);
    FilterFilter(orders, active, ready);
  }

  // ---------------------------------------------------------------- stock steppers

  /** The menu form; `stock` is None while its field is empty. */
  datatype MenuForm = MenuForm(id: string, name: string, category: string, price: string,
                               prepTime: string, stock: Option<int>, available: bool)

  /** The stock a stepper sets: the current value moved by `delta`, floored at zero. */
  function Step(current: int, delta: int): (s: int)
    ensures s >= 0
    ensures s == current + delta || (s == 0 && current + delta < 0)
  {
    Max(0, current + delta)
  }

  /** `adjustMenuFormStock`: an empty field counts as zero; the rest of the form is kept. */
  function AdjustMenuFormStock(form: MenuForm, delta: int): (r: MenuForm)
    ensures r == form.(stock := r.stock)
    ensures r.stock.Some? && r.stock.value >= 0
    ensures var current := if form.stock.Some? then form.stock.value else 0;
      r.stock.value == current + delta || (r.stock.value == 0 && current + delta < 0)
  {
    form.(stock := Some(Step(if form.stock.Some? then form.stock.value else 0, delta)))
  }

  /** One item's unsaved stock edit; either field may be missing. */
  datatype Draft = Draft(stock: Option<int>, available: Option<bool>)

  /** `adjustVendorDraftStock`: only that item's draft changes, and only its stock. */
  function AdjustVendorDraftStock(drafts: map<string, Draft>, itemId: string, delta: int): (r: map<string, Draft>)
    ensures r.Keys == drafts.Keys + {itemId}
    ensures forall k | k in drafts && k != itemId :: r[k] == drafts[k]
    ensures r[itemId].stock.Some? && r[itemId].stock.value >= 0
    ensures var current := if itemId in drafts && drafts[itemId].stock.Some? then drafts[itemId].stock.value else 0;
      r[itemId].stock.value == current + delta || (r[itemId].stock.value == 0 && current + delta < 0)
    ensures r[itemId].available == if itemId in drafts then drafts[itemId].available else None
  {
    var draft := if itemId in drafts then drafts[itemId] else Draft(None, None);
    var current := if draft.stock.Some? then draft.stock.value else 0;
    drafts[itemId := draft.(stock := Some(Step(current, delta)))]
  }

  /** A step up then a step down returns a non-negative stock to where it was; stepping down from zero stays at zero. */
  lemma StepUndo(current: int, delta: int)
    requires current >= 0 && delta >= 0
    ensures Step(Step(current, delta), -delta) == current
    ensures Step(0, -delta) == 0
  {
  }

  // ---------------------------------------------------------------- placing an order

  /** Whether the Place Order button is enabled. */
  predicate PlaceOrderEnabled(cart: seq<Cart.Line>, paymentMethod: string, paymentStatus: string) {
    !(|cart| == 0 || (paymentMethod == "razorpay_simulated" && paymentStatus != "paid"))
  }

  /**
   * An enabled button never posts an empty cart, so the server never answers
   * it with "Cart is empty"; online payment is enabled only once paid.
   */
  lemma EnabledPostsCart(db: Server.Db, user: Server.User, cart: seq<Cart.Line>, paymentMethod: string,
                         paymentStatus: string, paymentId: string)
    requires PlaceOrderEnabled(cart, paymentMethod, paymentStatus)
    ensures Payload(cart) != []
    ensures Server.AdmitOrder(db, user, Payload(cart), paymentMethod, paymentId) != Err(Server.CartEmpty)
    ensures paymentMethod == "razorpay_simulated" ==> paymentStatus == "paid"
  {
    assert Payload(cart)[0] == Server.CartEntry(cart[0].itemId, cart[0].qty);
  }
}
