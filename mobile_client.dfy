/**
 * mobile/App.js: the React Native client. Its cart handlers are `setCart`
 * reducers, limited by the stock the menu reports; before posting an order
 * with a split expense it validates the split, and an effect keeps the split
 * amount within the cart total. The category chips are built by a loop over
 * the menu, modelled as a fold.
 */
module MobileClient {
  import opened Common
  import Text
  import Cart
  import Server

  // ---------------------------------------------------------------- cart

  /** `addToCart`: refused when unavailable, at zero stock, or when one more unit would pass a positive stock. */
  function AddToCart(cart: seq<Cart.Line>, item: Server.MenuItem): (r: seq<Cart.Line>)
    ensures |cart| <= |r| <= |cart| + 1
    ensures forall j | 0 <= j < |cart| && cart[j].itemId != item.id :: r[j] == cart[j]
    ensures forall j | |cart| <= j < |r| :: r[j] == Cart.Line(item.id, item.name, item.price, 1)
  {
    if !item.available || item.stock == 0 then cart
    else
      var existing := Cart.FindLine(cart, item.id);
      var nextQty := (if existing.Some? then cart[existing.value].qty else 0) + 1;
      if item.stock > 0 && nextQty > item.stock then cart
      else if existing.Some? then Cart.Bump(cart, item.id, 1)
      else cart + [Cart.Line(item.id, item.name, item.price, 1)]
  }

  /** No line for `itemId` holds more than `stock` units. */
  predicate WithinStock(cart: seq<Cart.Line>, itemId: string, stock: int) {
    forall j | 0 <= j < |cart| && cart[j].itemId == itemId :: cart[j].qty <= stock
  }

  /**
   * `addToCart` changes nothing for an unavailable or sold-out item; it adds
   * one unit, to the existing line or as a new one, unless that would pass a
   * positive stock, so a cart within a positive stock stays within it. The
   * cart keeps its shape.
   */
  lemma AddToCartEffect(cart: seq<Cart.Line>, item: Server.MenuItem)
    requires Cart.WellShaped(cart)
    ensures Cart.WellShaped(AddToCart(cart, item))
    ensures !item.available || item.stock == 0 ==> AddToCart(cart, item) == cart
    ensures item.stock > 0 && WithinStock(cart, item.id, item.stock) ==>
      WithinStock(AddToCart(cart, item), item.id, item.stock)
    ensures item.available && item.stock != 0 && Cart.FindLine(cart, item.id).Some? ==>
      var i := Cart.FindLine(cart, item.id).value;
      AddToCart(cart, item) ==
        if item.stock > 0 && cart[i].qty + 1 > item.stock then cart
        else cart[i := cart[i].(qty := cart[i].qty + 1)]
    ensures item.available && item.stock != 0 && Cart.FindLine(cart, item.id).None? ==>
      AddToCart(cart, item) == cart + [Cart.Line(item.id, item.name, item.price, 1)]
  {
    if item.available && item.stock != 0 {
      match Cart.FindLine(cart, item.id)
      case Some(i) =>
        if !(item.stock > 0 && cart[i].qty + 1 > item.stock) {
          AddExisting(cart, item, i);
        }
      case None =>
        AddNew(cart, item);
    }
  }

  lemma AddExisting(cart: seq<Cart.Line>, item: Server.MenuItem, i: nat)
    requires Cart.WellShaped(cart) && item.available && item.stock != 0
    requires Cart.FindLine(cart, item.id) == Some(i) && !(item.stock > 0 && cart[i].qty + 1 > item.stock)
    ensures AddToCart(cart, item) == cart[i := cart[i].(qty := cart[i].qty + 1)]
    ensures Cart.WellShaped(AddToCart(cart, item))
    ensures item.stock > 0 ==> WithinStock(AddToCart(cart, item), item.id, item.stock)
  {
    Cart.BumpOne(cart, item.id, 1, i);
    Cart.BumpKeepsShape(cart, i, 1);
    if item.stock > 0 {
      BumpWithinStock(cart, item.id, item.stock, i);
    }
  }

  lemma AddNew(cart: seq<Cart.Line>, item: Server.MenuItem)
    requires Cart.WellShaped(cart) && item.available && item.stock != 0
    requires Cart.FindLine(cart, item.id).None?
    ensures AddToCart(cart, item) == cart + [Cart.Line(item.id, item.name, item.price, 1)]
    ensures Cart.WellShaped(AddToCart(cart, item))
    ensures item.stock > 0 ==> WithinStock(AddToCart(cart, item), item.id, item.stock)
  {
    var l := Cart.Line(item.id, item.name, item.price, 1);
    Cart.AppendKeepsShape(cart, l);
    assert forall j | 0 <= j < |cart| :: (cart + [l])[j] == cart[j];
  }

  lemma BumpWithinStock(cart: seq<Cart.Line>, itemId: string, stock: int, i: nat)
    requires Cart.DistinctItems(cart) && Cart.FindLine(cart, itemId) == Some(i) && cart[i].qty + 1 <= stock
    ensures WithinStock(cart[i := cart[i].(qty := cart[i].qty + 1)], itemId, stock)
  {
    var after := cart[i := cart[i].(qty := cart[i].qty + 1)];
    forall j | 0 <= j < |after| && after[j].itemId == itemId
      ensures j == i
    {
      if j > i {
        assert false;
      }
    }
  }

  /** `menu.find((item) => item.id === itemId)?.stock`, missing when the item is not on the menu. */
  function MenuStock(menu: seq<Server.MenuItem>, itemId: string): (r: Option<int>)
    ensures r.Some? ==> exists i | 0 <= i < |menu| :: menu[i].id == itemId && menu[i].stock == r.value
    ensures r.None? ==> forall i | 0 <= i < |menu| :: menu[i].id != itemId
  {
    if menu == [] then None
    else if menu[0].id == itemId then Some(menu[0].stock)
    else MenuStock(menu[1..], itemId)
  }

  /** The clients' `prev.map(...)` setting a quantity: every line for `itemId` gets `qty`. */
  function SetQty(cart: seq<Cart.Line>, itemId: string, qty: int): (r: seq<Cart.Line>)
    ensures |r| == |cart|
    ensures forall i | 0 <= i < |cart| :: r[i] == if cart[i].itemId == itemId then cart[i].(qty := qty) else cart[i]
  {
    if cart == [] then []
    else [if cart[0].itemId == itemId then cart[0].(qty := qty) else cart[0]] + SetQty(cart[1..], itemId, qty)
  }

  /** The quantity `updateCartQty` keeps: the request, lowered to the stock when a non-zero stock is known. */
  function ClampedQty(maxStock: Option<int>, qty: int): int {
    if maxStock.Some? && maxStock.value != 0 && qty > maxStock.value then maxStock.value else qty
  }

  /** `updateCartQty`. */
  function UpdateCartQty(menu: seq<Server.MenuItem>, cart: seq<Cart.Line>, itemId: string, qty: int): (r: seq<Cart.Line>)
    ensures |r| <= |cart|
    ensures forall j | 0 <= j < |r| && r[j].itemId == itemId :: r[j].qty > 0
    ensures MenuStock(menu, itemId).Some? && MenuStock(menu, itemId).value > 0 ==>
      forall j | 0 <= j < |r| && r[j].itemId == itemId :: r[j].qty <= MenuStock(menu, itemId).value
  {
    var maxStock := MenuStock(menu, itemId);
    if maxStock == Some(0) then Cart.Without(cart, itemId)
    else
      var nextQty := ClampedQty(maxStock, qty);
      if nextQty <= 0 then Cart.Without(cart, itemId)
      else SetQty(cart, itemId, nextQty)
  }

  /**
   * `updateCartQty` removes the item when its stock is zero or the requested
   * quantity is not positive; with a positive stock it sets the item's lines
   * to the smaller of the request and the stock and changes no other line.
   */
  lemma UpdateCartQtyEffect(menu: seq<Server.MenuItem>, cart: seq<Cart.Line>, itemId: string, qty: int)
    ensures MenuStock(menu, itemId) == Some(0) || qty <= 0 ==>
      UpdateCartQty(menu, cart, itemId, qty) == Cart.Without(cart, itemId)
    ensures MenuStock(menu, itemId).Some? && MenuStock(menu, itemId).value > 0 && qty > 0 ==>
      var r := UpdateCartQty(menu, cart, itemId, qty);
      && |r| == |cart|
      && (forall j | 0 <= j < |cart| && cart[j].itemId == itemId ::
            r[j].qty == Min(qty, MenuStock(menu, itemId).value) && r[j] == cart[j].(qty := r[j].qty))
      && (forall j | 0 <= j < |cart| && cart[j].itemId != itemId :: r[j] == cart[j])
    ensures MenuStock(menu, itemId).None? && qty > 0 ==> UpdateCartQty(menu, cart, itemId, qty) == SetQty(cart, itemId, qty)
    ensures Cart.WellShaped(cart) ==> Cart.WellShaped(UpdateCartQty(menu, cart, itemId, qty))
  {
    var maxStock := MenuStock(menu, itemId);
    var nextQty := ClampedQty(maxStock, qty);
    if Cart.WellShaped(cart) {
      if maxStock == Some(0) || nextQty <= 0 {
        Cart.WithoutEffect(cart, itemId);
      } else {
        SetQtyKeepsShape(cart, itemId, nextQty);
      }
    }
  }

  function Min(a: int, b: int): int {
    if a < b then a else b
  }

  lemma SetQtyKeepsShape(cart: seq<Cart.Line>, itemId: string, qty: int)
    requires Cart.WellShaped(cart) && qty > 0
    ensures Cart.WellShaped(SetQty(cart, itemId, qty))
  {
  }

  // ---------------------------------------------------------------- split expense

  /** The split amount field: blank, or text that `Number` reads as a finite value or not. */
  datatype SplitAmount = Blank | Typed(value: Option<real>)

  /** `Number(splitAmount)` when finite: a blank field reads as zero. */
  function Parse(amount: SplitAmount): Option<real> {
    match amount
    case Blank => Some(0.0)
    case Typed(v) => v
  }

  datatype SplitError = MissingSplitName | InvalidSplitAmount | SplitExceedsTotal

  /** The checks `placeOrder` runs before posting; None lets the order go out. */
  function SplitCheck(splitEnabled: bool, splitWith: string, amount: SplitAmount, cartTotal: int): (r: Option<SplitError>)
    ensures r.Some? ==> splitEnabled
    ensures splitEnabled && r.None? ==> InRange(amount, cartTotal)
    ensures r == Some(SplitExceedsTotal) ==> Parse(amount).Some? && Parse(amount).value > cartTotal as real
  {
    if !splitEnabled then None
    else if Text.Trim(splitWith) == [] then Some(MissingSplitName)
    else if Parse(amount).None? || Parse(amount).value <= 0.0 then Some(InvalidSplitAmount)
    else if Parse(amount).value > cartTotal as real then Some(SplitExceedsTotal)
    else None
  }

  /** An amount the checks accept for this total. */
  predicate InRange(amount: SplitAmount, cartTotal: int) {
    Parse(amount).Some? && 0.0 < Parse(amount).value <= cartTotal as real
  }

  /** With a split, an order goes out exactly when someone is named and the amount is within the total. */
  lemma SplitCheckPasses(splitEnabled: bool, splitWith: string, amount: SplitAmount, cartTotal: int)
    ensures SplitCheck(splitEnabled, splitWith, amount, cartTotal).None? <==>
      !splitEnabled || (!Text.AllWhiteSpace(splitWith) && InRange(amount, cartTotal))
  {
    Text.TrimEmpty(splitWith);
  }

  /** The effect on the split amount: cleared when the total is not positive, reset to the total when out of range. */
  function SplitAmountAfter(splitEnabled: bool, amount: SplitAmount, cartTotal: int): (r: SplitAmount)
    ensures !splitEnabled ==> r == amount
    ensures splitEnabled ==> (r == Blank <==> cartTotal <= 0)
  {
    if !splitEnabled then amount
    else if cartTotal <= 0 then Blank
    else if !InRange(amount, cartTotal) then Typed(Some(cartTotal as real))
    else amount
  }

  /**
   * After the effect, a split amount is in range whenever the total is
   * positive, an in-range amount is left alone, and running the effect again
   * changes nothing. With a total of zero the field is blank, which the
   * checks refuse.
   */
  lemma SplitAmountAfterEffect(splitEnabled: bool, amount: SplitAmount, cartTotal: int)
    ensures splitEnabled && cartTotal > 0 ==> InRange(SplitAmountAfter(splitEnabled, amount, cartTotal), cartTotal)
    ensures InRange(amount, cartTotal) ==> SplitAmountAfter(splitEnabled, amount, cartTotal) == amount
    ensures SplitAmountAfter(splitEnabled, SplitAmountAfter(splitEnabled, amount, cartTotal), cartTotal)
         == SplitAmountAfter(splitEnabled, amount, cartTotal)
    ensures splitEnabled && cartTotal <= 0 ==>
      SplitCheck(splitEnabled, "x", SplitAmountAfter(splitEnabled, amount, cartTotal), cartTotal) == Some(InvalidSplitAmount)
  {
    assert !Text.IsWhiteSpace('x');
    assert Text.Trim("x") != [] by {
      Text.TrimEmpty("x");
    }
  }

  // ---------------------------------------------------------------- categories

  /** `item.category || 'Other'`. */
  function CategoryOf(item: Server.MenuItem): string {
    if item.category == [] then "Other" else item.category
  }

  /** `menuCategories`: 'All', then each item's category the first time it appears. */
  function MenuCategories(menu: seq<Server.MenuItem>): (r: seq<string>)
    ensures |r| >= 1 && r[0] == "All"
  {
    if menu == [] then ["All"]
    else
      var categories := MenuCategories(menu[..|menu| - 1]);
      var c := CategoryOf(menu[|menu| - 1]);
      if c in categories then categories else categories + [c]
  }

  /** Some item of the menu is filed under `c`. */
  predicate Filed(menu: seq<Server.MenuItem>, c: string) {
    exists k | 0 <= k < |menu| :: CategoryOf(menu[k]) == c
  }

  /** The list never names a category twice, and names exactly 'All' and the menu's categories. */
  lemma {:induction false} MenuCategoriesExact(menu: seq<Server.MenuItem>)
    ensures forall i, j | 0 <= i < j < |MenuCategories(menu)| :: MenuCategories(menu)[i] != MenuCategories(menu)[j]
    ensures forall c :: c in MenuCategories(menu) <==> c == "All" || Filed(menu, c)
  {
    if menu != [] {
      var front := menu[..|menu| - 1];
      MenuCategoriesExact(front);
      forall c
        ensures Filed(menu, c) <==> Filed(front, c) || CategoryOf(menu[|menu| - 1]) == c
      {
        if Filed(menu, c) {
          var k :| 0 <= k < |menu| && CategoryOf(menu[k]) == c;
          if k < |front| {
            assert CategoryOf(front[k]) == c;
          }
        }
        if Filed(front, c) {
          var k :| 0 <= k < |front| && CategoryOf(front[k]) == c;
          assert menu[k] == front[k];
        }
      }
    }
  }

  /** The position in the menu of the first item filed under `c`. */
  function FirstOf(menu: seq<Server.MenuItem>, c: string): (k: nat)
    ensures k <= |menu|
    ensures k < |menu| ==> CategoryOf(menu[k]) == c
    ensures forall j | 0 <= j < k :: CategoryOf(menu[j]) != c
  {
    if menu == [] then 0
    else if CategoryOf(menu[0]) == c then 0
    else 1 + FirstOf(menu[1..], c)
  }

  /** Categories are listed in the order their first items appear on the menu. */
  lemma {:induction false} MenuCategoriesOrder(menu: seq<Server.MenuItem>)
    ensures forall i, j | 1 <= i < j < |MenuCategories(menu)| ::
      FirstOf(menu, MenuCategories(menu)[i]) < FirstOf(menu, MenuCategories(menu)[j])
  {
    if menu != [] {
      var front := menu[..|menu| - 1];
      var before := MenuCategories(front);
      var r := MenuCategories(menu);
      MenuCategoriesOrder(front);
      MenuCategoriesExact(front);
      forall c | c in before && c != "All"
        ensures FirstOf(menu, c) == FirstOf(front, c) < |front|
      {
        FirstOfPrefix(menu, c);
      }
      var last := CategoryOf(menu[|menu| - 1]);
      if last !in before {
        forall i | 1 <= i < |before|
          ensures FirstOf(menu, before[i]) < FirstOf(menu, last)
        {
          assert before[i] in before;
          FirstOfLast(menu, last);
        }
      }
    }
  }

  /** Dropping the last item does not move the first item of a category that appears earlier. */
  lemma FirstOfPrefix(menu: seq<Server.MenuItem>, c: string)
    requires menu != []
    requires Filed(menu[..|menu| - 1], c)
    ensures FirstOf(menu, c) == FirstOf(menu[..|menu| - 1], c) < |menu| - 1
  {
    var front := menu[..|menu| - 1];
    var k :| 0 <= k < |front| && CategoryOf(front[k]) == c;
    var b := FirstOf(front, c);
    assert b <= k;
    assert menu[b] == front[b];
    assert forall j | 0 <= j < b :: front[j] == menu[j];
  }

  /** A category first met at the last item is first met there. */
  lemma FirstOfLast(menu: seq<Server.MenuItem>, c: string)
    requires menu != [] && CategoryOf(menu[|menu| - 1]) == c
    requires forall k | 0 <= k < |menu| - 1 :: CategoryOf(menu[k]) != c
    ensures FirstOf(menu, c) == |menu| - 1
  {
  }

  /** `visibleMenu`: everything under 'All', otherwise the items filed under the selection. */
  function VisibleMenu(menu: seq<Server.MenuItem>, selected: string): (r: seq<Server.MenuItem>)
    ensures |r| <= |menu|
    ensures forall i | 0 <= i < |r| :: r[i] in menu
  {
    if selected == "All" then menu
    else Filter(menu, (item: Server.MenuItem) => CategoryOf(item) == selected)
  }

  /**
   * `visibleMenu` shows, for a chosen category, exactly the items filed under
   * it; and every chip other than 'All' shows at least one item.
   */
  lemma VisibleMenuExact(menu: seq<Server.MenuItem>, selected: string)
    ensures selected == "All" ==> VisibleMenu(menu, selected) == menu
    ensures selected != "All" ==>
      (forall i | 0 <= i < |VisibleMenu(menu, selected)| :: CategoryOf(VisibleMenu(menu, selected)[i]) == selected)
      && (forall k | 0 <= k < |menu| && CategoryOf(menu[k]) == selected :: menu[k] in VisibleMenu(menu, selected))
    ensures selected != "All" && selected in MenuCategories(menu) ==> |VisibleMenu(menu, selected)| > 0
  {
    if selected != "All" && selected in MenuCategories(menu) {
      MenuCategoriesExact(menu);
      var k :| 0 <= k < |menu| && CategoryOf(menu[k]) == selected;
      assert menu[k] in VisibleMenu(menu, selected);
    }
  }
}
