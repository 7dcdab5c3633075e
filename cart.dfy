/**
 * A cart line or an order line: `{itemId, name, price, qty}`. The three
 * clients keep carts of these, and the server snapshots them into the lines of
 * an order, so the sum of price times quantity is defined once, here.
 */
module Cart {
  import opened Common

  datatype Line = Line(itemId: string, name: string, price: int, qty: int)

  /** `lines.reduce((sum, item) => sum + item.price * item.qty, 0)`, folded from the left. */
  function Total(lines: seq<Line>): int {
    if lines == [] then 0
    else Total(lines[..|lines| - 1]) + lines[|lines| - 1].price * lines[|lines| - 1].qty
  }

  /** The total of a concatenation is the sum of the totals. */
  lemma {:induction false} TotalAppend(a: seq<Line>, b: seq<Line>)
    ensures Total(a + b) == Total(a) + Total(b)
    decreases |b|
  {
    if b == [] {
      assert a + b == a;
    } else {
      assert (a + b)[..|a + b| - 1] == a + b[..|b| - 1];
      TotalAppend(a, b[..|b| - 1]);
    }
  }

  /** Moving the quantity of one line by `delta` moves the total by that line's price times `delta`. */
  lemma {:induction false} TotalMoveQty(lines: seq<Line>, i: nat, delta: int)
    requires i < |lines|
    ensures Total(lines[i := lines[i].(qty := lines[i].qty + delta)])
         == Total(lines) + lines[i].price * delta
  {
    var after := lines[i := lines[i].(qty := lines[i].qty + delta)];
    var n := |lines|;
    if i == n - 1 {
      assert after[..n - 1] == lines[..n - 1];
      assert lines[i].price * (lines[i].qty + delta) == lines[i].price * lines[i].qty + lines[i].price * delta;
    } else {
      assert after[..n - 1] == lines[..n - 1][i := lines[i].(qty := lines[i].qty + delta)];
      TotalMoveQty(lines[..n - 1], i, delta);
    }
  }

  /** Position of the first line for `itemId` (`Array.prototype.find`/`findIndex`). */
  function FindLine(lines: seq<Line>, itemId: string): (r: Option<nat>)
    ensures r.None? <==> forall j | 0 <= j < |lines| :: lines[j].itemId != itemId
    ensures r.Some? ==> r.value < |lines| && lines[r.value].itemId == itemId
                        && forall j | 0 <= j < r.value :: lines[j].itemId != itemId
  {
    FindIndex(lines, (l: Line) => l.itemId == itemId)
  }

  /** No item appears on two lines. */
  predicate DistinctItems(lines: seq<Line>) {
    forall i, j | 0 <= i < j < |lines| :: lines[i].itemId != lines[j].itemId
  }

  /** Every line asks for at least one unit. */
  predicate PositiveQuantities(lines: seq<Line>) {
    forall i | 0 <= i < |lines| :: lines[i].qty > 0
  }

  /** Keeping only some lines of a cart keeps one line per item and positive quantities. */
  lemma {:induction false} FilterKeepsShape(lines: seq<Line>, p: Line -> bool)
    requires DistinctItems(lines) && PositiveQuantities(lines)
    ensures PositiveQuantities(Filter(lines, p))
    ensures DistinctItems(Filter(lines, p))
  {
    if lines != [] {
      var rest := lines[1..];
      FilterKeepsShape(rest, p);
      if p(lines[0]) {
        var r := Filter(lines, p);
        assert r == [lines[0]] + Filter(rest, p);
        forall j | 0 < j < |r| ensures r[0].itemId != r[j].itemId {
          assert r[j] in rest;
        }
      }
    }
  }

  /** `lines.filter((entry) => entry.itemId !== itemId)`: every line but those for `itemId`. */
  function Without(lines: seq<Line>, itemId: string): seq<Line> {
    Filter(lines, (l: Line) => l.itemId != itemId)
  }

  /** A cart as the handlers keep it: one line per item, each for at least one unit. */
  predicate WellShaped(lines: seq<Line>) {
    DistinctItems(lines) && PositiveQuantities(lines)
  }

  /** Appending a line adds its price times its quantity. */
  lemma TotalPush(lines: seq<Line>, l: Line)
    ensures Total(lines + [l]) == Total(lines) + l.price * l.qty
  {
    assert (lines + [l])[..|lines|] == lines;
  }

  /** Moving one line's quantity keeps the cart's shape while it stays above zero. */
  lemma BumpKeepsShape(lines: seq<Line>, i: nat, delta: int)
    requires WellShaped(lines) && i < |lines| && lines[i].qty + delta > 0
    ensures WellShaped(lines[i := lines[i].(qty := lines[i].qty + delta)])
  {
  }

  /** Appending a line for an item not yet in the cart keeps the cart's shape. */
  lemma AppendKeepsShape(lines: seq<Line>, l: Line)
    requires WellShaped(lines) && l.qty > 0
    requires forall j | 0 <= j < |lines| :: lines[j].itemId != l.itemId
    ensures WellShaped(lines + [l])
  {
  }

  /** Exactly the lines for that item go; every other line stays. */
  lemma WithoutEffect(lines: seq<Line>, itemId: string)
    ensures forall j | 0 <= j < |Without(lines, itemId)| :: Without(lines, itemId)[j].itemId != itemId
    ensures forall j | 0 <= j < |lines| && lines[j].itemId != itemId :: lines[j] in Without(lines, itemId)
    ensures WellShaped(lines) ==> WellShaped(Without(lines, itemId))
  {
    if WellShaped(lines) {
      FilterKeepsShape(lines, (l: Line) => l.itemId != itemId);
    }
  }

  /** With one line per item, removing an item in the cart shortens it by one. */
  lemma {:induction false} WithoutCount(lines: seq<Line>, itemId: string, i: nat)
    requires DistinctItems(lines) && i < |lines| && lines[i].itemId == itemId
    ensures |Without(lines, itemId)| == |lines| - 1
  {
    var p := (l: Line) => l.itemId != itemId;
    if i == 0 {
      assert forall j | 0 <= j < |lines[1..]| :: p(lines[1..][j]);
    } else {
      assert p(lines[0]);
      WithoutCount(lines[1..], itemId, i - 1);
    }
  }

  /** Filtering out an item does not look at that item's lines, so rewriting one of them first changes nothing. */
  lemma {:induction false} WithoutIgnoresLine(lines: seq<Line>, itemId: string, i: nat, l: Line)
    requires i < |lines| && lines[i].itemId == itemId && l.itemId == itemId
    ensures Without(lines[i := l], itemId) == Without(lines, itemId)
  {
    if i > 0 {
      assert lines[i := l][1..] == lines[1..][i - 1 := l];
      WithoutIgnoresLine(lines[1..], itemId, i - 1, l);
    } else {
      assert lines[i := l][1..] == lines[1..];
    }
  }

  /** The clients' `prev.map(...)`: every line for `itemId` moves by `delta`, the others stay. */
  function Bump(cart: seq<Line>, itemId: string, delta: int): (r: seq<Line>)
    ensures |r| == |cart|
    ensures forall i | 0 <= i < |cart| ::
      r[i] == if cart[i].itemId == itemId then cart[i].(qty := cart[i].qty + delta) else cart[i]
  {
    if cart == [] then []
    else [if cart[0].itemId == itemId then cart[0].(qty := cart[0].qty + delta) else cart[0]]
         + Bump(cart[1..], itemId, delta)
  }

  /** With one line per item, the map moves exactly that line. */
  lemma BumpOne(cart: seq<Line>, itemId: string, delta: int, i: nat)
    requires DistinctItems(cart) && FindLine(cart, itemId) == Some(i)
    ensures Bump(cart, itemId, delta) == cart[i := cart[i].(qty := cart[i].qty + delta)]
  {
    var bumped := Bump(cart, itemId, delta);
    var target := cart[i := cart[i].(qty := cart[i].qty + delta)];
    forall j | 0 <= j < |cart|
      ensures bumped[j] == target[j]
    {
      if j != i {
        assert cart[j].itemId != cart[i].itemId by {
          if j < i { assert j < i < |cart|; } else { assert i < j < |cart|; }
        }
      }
    }
  }

  /** When no line is for `itemId`, the map changes nothing. */
  lemma BumpNone(cart: seq<Line>, itemId: string, delta: int)
    requires FindLine(cart, itemId).None?
    ensures Bump(cart, itemId, delta) == cart
  {
    var bumped := Bump(cart, itemId, delta);
    assert forall j | 0 <= j < |cart| :: bumped[j] == cart[j];
  }
}
