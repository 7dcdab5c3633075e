/**
 * app.js: the browser-only canteen ledger. The cart is an array mutated in
 * place; the menu and the orders are lists read from and written back to
 * local storage. Each handler is a method on `Ledger`, proved to produce the
 * state a pure function of the old state describes; the lemmas are about
 * those functions.
 */
module Ledger {
  import opened Common
  import Text
  import Cart

  datatype MenuEntry = MenuEntry(id: string, name: string, category: string, price: int, prepTime: int)

  datatype LedgerOrder = LedgerOrder(
    id: string, orderNumber: string, userId: string, customerName: string,
    items: seq<Cart.Line>, total: int, status: string, createdAt: string,
    etaMinutes: int, paymentMethod: string, paymentMethodLabel: string)

  /** `menu.find((entry) => entry.id === id)`, as the entry's position. */
  function FindEntry(menu: seq<MenuEntry>, id: string): (r: Option<nat>)
    ensures r.None? <==> forall j | 0 <= j < |menu| :: menu[j].id != id
    ensures r.Some? ==> r.value < |menu| && menu[r.value].id == id
                        && forall j | 0 <= j < r.value :: menu[j].id != id
  {
    FindIndex(menu, (e: MenuEntry) => e.id == id)
  }

  // ---------------------------------------------------------------- cart

  /** What `addToCart` leaves in the cart. */
  function Added(cart: seq<Cart.Line>, menu: seq<MenuEntry>, itemId: string): (r: seq<Cart.Line>)
    ensures |cart| <= |r| <= |cart| + 1
    ensures forall j | 0 <= j < |cart| && cart[j].itemId != itemId :: r[j] == cart[j]
  {
    match FindEntry(menu, itemId)
    case None => cart
    case Some(m) =>
      match Cart.FindLine(cart, itemId)
      case Some(i) => cart[i := cart[i].(qty := cart[i].qty + 1)]
      case None => cart + [Cart.Line(itemId, menu[m].name, menu[m].price, 1)]
  }

  /** What `updateCart` leaves in the cart. */
  function Updated(cart: seq<Cart.Line>, itemId: string, delta: int): (r: seq<Cart.Line>)
    ensures |r| <= |cart|
    ensures forall j | 0 <= j < |cart| && cart[j].itemId != itemId :: cart[j] in r
  {
    match Cart.FindLine(cart, itemId)
    case None => cart
    case Some(i) =>
      if cart[i].qty + delta <= 0 then Cart.Without(cart, itemId)
      else
        var r := cart[i := cart[i].(qty := cart[i].qty + delta)];
        assert forall j | 0 <= j < |cart| && j != i :: r[j] == cart[j];
        r
  }

  /**
   * `addToCart`: an id not on the menu changes nothing; an item already in the
   * cart gains one unit and the total its price; a new item is appended with
   * one unit at the menu's name and price. The cart keeps its shape.
   */
  lemma AddedEffect(cart: seq<Cart.Line>, menu: seq<MenuEntry>, itemId: string)
    requires Cart.WellShaped(cart)
    ensures Cart.WellShaped(Added(cart, menu, itemId))
    ensures FindEntry(menu, itemId).None? ==> Added(cart, menu, itemId) == cart
    ensures FindEntry(menu, itemId).Some? && Cart.FindLine(cart, itemId).Some? ==>
      var i := Cart.FindLine(cart, itemId).value;
      && |Added(cart, menu, itemId)| == |cart|
      && Added(cart, menu, itemId)[i].qty == cart[i].qty + 1
      && (forall j | 0 <= j < |cart| && j != i :: Added(cart, menu, itemId)[j] == cart[j])
      && Cart.Total(Added(cart, menu, itemId)) == Cart.Total(cart) + cart[i].price
    ensures FindEntry(menu, itemId).Some? && Cart.FindLine(cart, itemId).None? ==>
      var m := menu[FindEntry(menu, itemId).value];
      && Added(cart, menu, itemId) == cart + [Cart.Line(itemId, m.name, m.price, 1)]
      && Cart.Total(Added(cart, menu, itemId)) == Cart.Total(cart) + m.price
  {
    var added := Added(cart, menu, itemId);
    match FindEntry(menu, itemId)
    case None =>
    case Some(k) =>
      match Cart.FindLine(cart, itemId)
      case Some(i) =>
        var bumped := cart[i := cart[i].(qty := cart[i].qty + 1)];
        assert added == bumped;
        Cart.BumpKeepsShape(cart, i, 1);
        Cart.TotalMoveQty(cart, i, 1);
      case None =>
        var l := Cart.Line(itemId, menu[k].name, menu[k].price, 1);
        assert added == cart + [l];
        Cart.AppendKeepsShape(cart, l);
        Cart.TotalPush(cart, l);
  }

  /**
   * `updateCart`: an absent item changes nothing; otherwise the line moves by
   * `delta` and is dropped once it reaches zero, so no line at or below zero
   * is ever kept and the cart keeps its shape.
   */
  lemma UpdatedEffect(cart: seq<Cart.Line>, itemId: string, delta: int)
    requires Cart.WellShaped(cart)
    ensures Cart.WellShaped(Updated(cart, itemId, delta))
    ensures Cart.FindLine(cart, itemId).None? ==> Updated(cart, itemId, delta) == cart
    ensures Cart.FindLine(cart, itemId).Some? ==>
      var i := Cart.FindLine(cart, itemId).value;
      if cart[i].qty + delta <= 0 then
        (forall j | 0 <= j < |Updated(cart, itemId, delta)| :: Updated(cart, itemId, delta)[j].itemId != itemId)
        && |Updated(cart, itemId, delta)| == |cart| - 1
      else
        && |Updated(cart, itemId, delta)| == |cart|
        && Updated(cart, itemId, delta)[i].qty == cart[i].qty + delta
        && Cart.Total(Updated(cart, itemId, delta)) == Cart.Total(cart) + cart[i].price * delta
  {
    match Cart.FindLine(cart, itemId)
    case None =>
    case Some(i) =>
      if cart[i].qty + delta <= 0 {
        Cart.WithoutEffect(cart, itemId);
        Cart.WithoutCount(cart, itemId, i);
      } else {
        assert Updated(cart, itemId, delta) == cart[i := cart[i].(qty := cart[i].qty + delta)];
        Cart.BumpKeepsShape(cart, i, delta);
        Cart.TotalMoveQty(cart, i, delta);
      }
  }

  // ---------------------------------------------------------------- orders

  /** The preparation time `calculateEtaMinutes` charges for a cart line: the menu's, or 5 when the item is gone. */
  function PrepOf(menu: seq<MenuEntry>, itemId: string): int {
    match FindEntry(menu, itemId)
    case Some(m) => menu[m].prepTime
    case None => 5
  }

  /** The `reduce` in `calculateEtaMinutes`: preparation time times quantity, summed. */
  function Minutes(menu: seq<MenuEntry>, cart: seq<Cart.Line>): int {
    if cart == [] then 0
    else Minutes(menu, cart[..|cart| - 1]) + PrepOf(menu, cart[|cart| - 1].itemId) * cart[|cart| - 1].qty
  }

  /** `calculateEtaMinutes`: the summed preparation time, but never under five minutes. */
  function EtaMinutes(menu: seq<MenuEntry>, cart: seq<Cart.Line>): (m: int)
    ensures m >= 5 && m >= Minutes(menu, cart)
    ensures m == 5 || m == Minutes(menu, cart)
  {
    Max(5, Minutes(menu, cart))
  }

  /** Items no longer on the menu are charged five minutes a unit. */
  lemma {:induction false} MinutesOffMenu(menu: seq<MenuEntry>, cart: seq<Cart.Line>)
    requires forall i | 0 <= i < |cart| :: FindEntry(menu, cart[i].itemId).None?
    ensures Minutes(menu, cart) == 5 * Units(cart)
  {
    if cart != [] {
      MinutesOffMenu(menu, cart[..|cart| - 1]);
    }
  }

  function Units(cart: seq<Cart.Line>): int {
    if cart == [] then 0 else Units(cart[..|cart| - 1]) + cart[|cart| - 1].qty
  }

  /** Adding a unit of anything never makes the estimate shorter. */
  lemma {:induction false} MinutesGrow(menu: seq<MenuEntry>, cart: seq<Cart.Line>, l: Cart.Line)
    requires PrepOf(menu, l.itemId) >= 0 && l.qty >= 0
    ensures Minutes(menu, cart + [l]) >= Minutes(menu, cart)
    ensures EtaMinutes(menu, cart + [l]) >= EtaMinutes(menu, cart)
  {
    assert (cart + [l])[..|cart|] == cart;
  }

  /** The label `placeOrder` stores: "Simulated payment" for `simulated`, "Pay on pickup" for anything else. */
  function PaymentLabel(paymentMethod: string): (r: string)
    ensures r == "Simulated payment" <==> paymentMethod == "simulated"
    ensures r == "Simulated payment" || r == "Pay on pickup"
  {
    if paymentMethod == "simulated" then "Simulated payment" else "Pay on pickup"
  }

  /** `updateOrderStatus`: the order with that id takes the status; every order keeps its place. */
  function WithStatus(orders: seq<LedgerOrder>, orderId: string, status: string): (r: seq<LedgerOrder>)
    ensures |r| == |orders|
    ensures forall i | 0 <= i < |orders| ::
      r[i] == if orders[i].id == orderId then orders[i].(status := status) else orders[i]
  {
    if orders == [] then []
    else [if orders[0].id == orderId then orders[0].(status := status) else orders[0]]
         + WithStatus(orders[1..], orderId, status)
  }

  /** Setting a status twice is setting it once; nothing but statuses ever changes. */
  lemma WithStatusIdempotent(orders: seq<LedgerOrder>, orderId: string, status: string)
    ensures WithStatus(WithStatus(orders, orderId, status), orderId, status) == WithStatus(orders, orderId, status)
    ensures forall i | 0 <= i < |orders| ::
      WithStatus(orders, orderId, status)[i].(status := orders[i].status) == orders[i]
  {
  }

  // ---------------------------------------------------------------- menu

  /** The edit branch of `saveMenuItem`: every entry with that id becomes the new item. */
  function ReplaceById(menu: seq<MenuEntry>, item: MenuEntry): (r: seq<MenuEntry>)
    ensures |r| == |menu|
    ensures forall i | 0 <= i < |menu| :: r[i] == if menu[i].id == item.id then item else menu[i]
  {
    if menu == [] then []
    else [if menu[0].id == item.id then item else menu[0]] + ReplaceById(menu[1..], item)
  }

  /** What `saveMenuItem` leaves: an edit replaces in place, a new item goes at the end. */
  function Saved(menu: seq<MenuEntry>, editId: string, item: MenuEntry): (r: seq<MenuEntry>)
    requires editId != [] ==> item.id == editId
    ensures |r| == if editId != [] then |menu| else |menu| + 1
    ensures forall j | 0 <= j < |menu| && menu[j].id != item.id :: r[j] == menu[j]
    ensures item in r <==> editId == [] || exists j | 0 <= j < |menu| :: menu[j].id == item.id
  {
    if editId != [] then ReplaceById(menu, item) else menu + [item]
  }

  /** What `deleteMenuItem` leaves. */
  function Deleted(menu: seq<MenuEntry>, itemId: string): (r: seq<MenuEntry>)
    ensures |r| <= |menu|
    ensures forall j | 0 <= j < |r| :: r[j].id != itemId && r[j] in menu
  {
    Filter(menu, (e: MenuEntry) => e.id != itemId)
  }

  /**
   * Saving then looking up: after an edit or an add, the item's id finds the
   * saved item (an edit of an id not on the menu changes nothing); after a
   * delete the id finds nothing and every other entry remains.
   */
  lemma SavedThenFound(menu: seq<MenuEntry>, editId: string, item: MenuEntry)
    requires editId != [] ==> item.id == editId
    ensures editId == [] && FindEntry(menu, item.id).None? ==>
      FindEntry(Saved(menu, editId, item), item.id) == Some(|menu|)
    ensures editId != [] && FindEntry(menu, item.id).Some? ==>
      FindEntry(Saved(menu, editId, item), item.id) == FindEntry(menu, item.id)
      && Saved(menu, editId, item)[FindEntry(menu, item.id).value] == item
    ensures editId != [] && FindEntry(menu, item.id).None? ==> Saved(menu, editId, item) == menu
  {
    if editId == [] {
      if FindEntry(menu, item.id).None? {
        AppendedFound(menu, item);
      }
    } else if FindEntry(menu, item.id).Some? {
      ReplacedFound(menu, item, FindEntry(menu, item.id).value);
    } else {
      var saved := Saved(menu, editId, item);
      assert forall i | 0 <= i < |menu| :: saved[i] == menu[i];
    }
  }

  lemma AppendedFound(menu: seq<MenuEntry>, item: MenuEntry)
    requires FindEntry(menu, item.id).None?
    ensures FindEntry(menu + [item], item.id) == Some(|menu|)
  {
    assert (menu + [item])[|menu|].id == item.id;
    assert forall j | 0 <= j < |menu| :: (menu + [item])[j] == menu[j];
  }

  lemma {:induction false} ReplacedFound(menu: seq<MenuEntry>, item: MenuEntry, k: nat)
    requires FindEntry(menu, item.id) == Some(k)
    ensures FindEntry(ReplaceById(menu, item), item.id) == Some(k)
    ensures ReplaceById(menu, item)[k] == item
  {
    if k > 0 {
      ReplacedFound(menu[1..], item, k - 1);
    }
  }

  lemma DeletedEffect(menu: seq<MenuEntry>, itemId: string)
    ensures FindEntry(Deleted(menu, itemId), itemId).None?
    ensures forall j | 0 <= j < |menu| && menu[j].id != itemId :: menu[j] in Deleted(menu, itemId)
  {
  }

  // ---------------------------------------------------------------- the page's state

  class Ledger {
    var cart: seq<Cart.Line>
    var menu: seq<MenuEntry>
    var orders: seq<LedgerOrder>

    ghost predicate Valid()
      reads this
    {
      Cart.WellShaped(cart)
    }

    constructor (menu0: seq<MenuEntry>, orders0: seq<LedgerOrder>)
      ensures cart == [] && menu == menu0 && orders == orders0 && Valid()
    {
      cart := [];
      menu := menu0;
      orders := orders0;
    }

    /** `calculateCartTotal`. */
    function CartTotal(): int
      reads this
    {
      Cart.Total(cart)
    }

    method AddToCart(itemId: string)
      requires Valid()
      modifies this
      ensures cart == Added(old(cart), menu, itemId) && Valid()
      ensures menu == old(menu) && orders == old(orders)
    {
      AddedEffect(cart, menu, itemId);
      var found := FindEntry(menu, itemId);
      if found.None? {
        return;
      }
      var existing := Cart.FindLine(cart, itemId);
      if existing.Some? {
        var i := existing.value;
        cart := cart[i := cart[i].(qty := cart[i].qty + 1)];
      } else {
        cart := cart + [Cart.Line(itemId, menu[found.value].name, menu[found.value].price, 1)];
      }
    }

    method UpdateCart(itemId: string, delta: int)
      requires Valid()
      modifies this
      ensures cart == Updated(old(cart), itemId, delta) && Valid()
      ensures menu == old(menu) && orders == old(orders)
    {
      UpdatedEffect(cart, itemId, delta);
      var existing := Cart.FindLine(cart, itemId);
      if existing.None? {
        return;
      }
      var i := existing.value;
      cart := cart[i := cart[i].(qty := cart[i].qty + delta)];
      if cart[i].qty <= 0 {
        assert Cart.Without(cart, itemId) == Cart.Without(old(cart), itemId) by {
          Cart.WithoutIgnoresLine(old(cart), itemId, i, cart[i]);
        }
        cart := Cart.Without(cart, itemId);
      }
    }

    method RemoveCartItem(itemId: string)
      requires Valid()
      modifies this
      ensures cart == Cart.Without(old(cart), itemId) && Valid()
      ensures menu == old(menu) && orders == old(orders)
    {
      Cart.WithoutEffect(cart, itemId);
      cart := Cart.Without(cart, itemId);
    }

    /**
     * `placeOrder`: an empty cart does nothing; otherwise the cart becomes a
     * Pending order put first in the list, numbered after the orders so far,
     * and the cart is emptied. The order id and the time are drawn by the caller.
     */
    method PlaceOrder(orderId: string, userId: string, customerName: string, paymentMethod: string, now: string)
      requires Valid()
      modifies this
      ensures old(cart) == [] ==> cart == old(cart) && orders == old(orders)
      ensures old(cart) != [] ==>
        && cart == []
        && orders == [LedgerOrder(orderId, Text.OrderNumber(|old(orders)|), userId, customerName,
                                  old(cart), Cart.Total(old(cart)), "Pending", now,
                                  EtaMinutes(menu, old(cart)), paymentMethod, PaymentLabel(paymentMethod))]
                     + old(orders)
      ensures menu == old(menu) && Valid()
    {
      if cart == [] {
        return;
      }
      var order := LedgerOrder(orderId, Text.OrderNumber(|orders|), userId, customerName,
                               cart, Cart.Total(cart), "Pending", now,
                               EtaMinutes(menu, cart), paymentMethod, PaymentLabel(paymentMethod));
      orders := [order] + orders;
      cart := [];
    }

    method UpdateOrderStatus(orderId: string, status: string)
      requires Valid()
      modifies this
      ensures orders == WithStatus(old(orders), orderId, status)
      ensures cart == old(cart) && menu == old(menu) && Valid()
    {
      orders := WithStatus(orders, orderId, status);
    }

    /** `saveMenuItem`: `editId` is the form's id field, empty for a new item whose id `freshId` is drawn. */
    method SaveMenuItem(editId: string, freshId: string, name: string, category: string, price: int, prepTime: int)
      requires Valid()
      modifies this
      ensures var item := MenuEntry(if editId != [] then editId else freshId, name, category, price, prepTime);
        menu == Saved(old(menu), editId, item)
      ensures cart == old(cart) && orders == old(orders) && Valid()
    {
      var item := MenuEntry(if editId != [] then editId else freshId, name, category, price, prepTime);
      if editId != [] {
        menu := ReplaceById(menu, item);
      } else {
        menu := menu + [item];
      }
    }

    method DeleteMenuItem(itemId: string)
      requires Valid()
      modifies this
      ensures menu == Deleted(old(menu), itemId)
      ensures cart == old(cart) && orders == old(orders) && Valid()
    {
      menu := Deleted(menu, itemId);
    }
  }

}
