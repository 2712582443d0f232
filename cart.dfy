/** The point-of-sale cart of the sales page (apps/web/src/app/sales/page.tsx):
    adding a product, changing a quantity, the running subtotal and change,
    and the guards of checkout. Money in cents; the 12% tax rounding is a
    parameter. */
module Cart {
  import opened Wrappers
  import opened Catalog
  import opened SaleRecords
  import opened SaleDto
  import Sorting

  datatype CartItem = CartItem(productId: string, name: string, unitPrice: int, quantity: int, discount: int, total: int)

  predicate DistinctIds(cart: seq<CartItem>) {
    forall i, j :: 0 <= i < j < |cart| ==> cart[i].productId != cart[j].productId
  }

  predicate InCart(cart: seq<CartItem>, id: string) {
    exists k :: 0 <= k < |cart| && cart[k].productId == id
  }

  /** What the page's own operations keep true of every line: at least one
      unit, a non-negative price, no discount, and the line total equal to
      quantity times unit price. */
  predicate WellFormedLine(i: CartItem) {
    i.quantity >= 1 && i.unitPrice >= 0 && i.discount == 0 && i.total == LineTotal(i.quantity, i.unitPrice)
  }

  predicate WellFormed(cart: seq<CartItem>) {
    forall k :: 0 <= k < |cart| ==> WellFormedLine(cart[k])
  }

  /** A line's total: quantity times unit price, in cents. */
  function LineTotal(qty: int, unitPrice: int): int {
    qty * unitPrice
  }

  /** The line with its quantity set to `qty` and its total recomputed. */
  function WithQuantity(i: CartItem, qty: int): CartItem {
    i.(quantity := qty, total := LineTotal(qty, i.unitPrice))
  }

  /** `cart.map(i => i.productId === id ? f(i) : i)` for `f` setting the quantity
      to `qty`, or to one more than before when `qty` is `None`. */
  function SetQuantity(cart: seq<CartItem>, id: string, qty: Option<int>): (r: seq<CartItem>)
    ensures |r| == |cart|
    ensures forall k :: 0 <= k < |cart| ==>
      r[k] == if cart[k].productId != id then cart[k]
              else WithQuantity(cart[k], if qty.Some? then qty.value else cart[k].quantity + 1)
    decreases |cart|
  {
    if cart == [] then []
    else
      var init, last := cart[..|cart| - 1], cart[|cart| - 1];
      SetQuantity(init, id, qty)
        + [if last.productId != id then last else WithQuantity(last, if qty.Some? then qty.value else last.quantity + 1)]
  }

  /** The line `addToCart` appends for a product not yet in the cart. */
  function NewLine(p: Product): CartItem {
    CartItem(p.id, p.name, p.price, 1, 0, p.price)
  }

  /** `addToCart(product)`. */
  function AddToCart(cart: seq<CartItem>, p: Product): (r: seq<CartItem>)
    ensures InCart(r, p.id)
    ensures InCart(cart, p.id) ==> |r| == |cart|
    ensures InCart(cart, p.id) ==> r == SetQuantity(cart, p.id, None)
    ensures !InCart(cart, p.id) ==> r == cart + [CartItem(p.id, p.name, p.price, 1, 0, p.price)]
    ensures forall k :: 0 <= k < |cart| ==>
      && (cart[k].productId != p.id ==> r[k] == cart[k])
      && (cart[k].productId == p.id ==>
            r[k] == cart[k].(quantity := cart[k].quantity + 1, total := (cart[k].quantity + 1) * cart[k].unitPrice))
    ensures DistinctIds(cart) ==> DistinctIds(r)
    ensures WellFormed(cart) && p.price >= 0 ==> WellFormed(r)
  {
    if InCart(cart, p.id) then
      var r := SetQuantity(cart, p.id, None);
      assert InCart(r, p.id) by {
        var k :| 0 <= k < |cart| && cart[k].productId == p.id;
        assert r[k].productId == p.id;
      }
      r
    else
      var r := cart + [NewLine(p)];
      assert r[|cart|].productId == p.id;
      r
  }

  /** `cart.filter(i => i.productId !== id)`. */
  function RemoveLine(cart: seq<CartItem>, id: string): (r: seq<CartItem>)
    ensures |r| <= |cart|
    ensures Sorting.IsSubsequence(r, cart)
    ensures forall x :: x in r <==> x in cart && x.productId != id
    ensures !InCart(cart, id) ==> r == cart
    ensures DistinctIds(cart) && InCart(cart, id) ==> |r| == |cart| - 1
    decreases |cart|
  {
    if cart == [] then []
    else
      var init, last := cart[..|cart| - 1], cart[|cart| - 1];
      assert cart == init + [last];
      var earlier := RemoveLine(init, id);
      InCartSnoc(cart, id);
      assert DistinctIds(cart) ==> !InCart(init, last.productId) by {
        if DistinctIds(cart) {
          LastNotEarlier(cart);
        }
      }
      Sorting.SubsequenceSnoc(earlier, cart);
      if last.productId != id then earlier + [last] else earlier
  }

  /** A product is in a non-empty cart iff it is in all but the last line
      or it is the last line's. */
  lemma InCartSnoc(cart: seq<CartItem>, id: string)
    requires cart != []
    ensures InCart(cart, id) <==> InCart(cart[..|cart| - 1], id) || cart[|cart| - 1].productId == id
  {
    var init := cart[..|cart| - 1];
    if InCart(cart, id) && cart[|cart| - 1].productId != id {
      var k :| 0 <= k < |cart| && cart[k].productId == id;
      assert init[k] == cart[k];
    }
    if InCart(init, id) {
      var k :| 0 <= k < |init| && init[k].productId == id;
      assert cart[k] == init[k];
    }
  }

  /** With distinct ids, the last line's product is in no earlier line. */
  lemma LastNotEarlier(cart: seq<CartItem>)
    requires cart != [] && DistinctIds(cart)
    ensures !InCart(cart[..|cart| - 1], cart[|cart| - 1].productId)
  {
  }

  /** `updateQty(id, qty)`: a quantity of zero or less removes the line,
      otherwise the line takes the new quantity and its total follows. */
  function UpdateQty(cart: seq<CartItem>, id: string, qty: int): (r: seq<CartItem>)
    ensures qty <= 0 ==> r == RemoveLine(cart, id) && !InCart(r, id)
    ensures qty > 0 ==> r == SetQuantity(cart, id, Some(qty))
    ensures qty > 0 ==> |r| == |cart| && forall k :: 0 <= k < |cart| ==>
      && (cart[k].productId != id ==> r[k] == cart[k])
      && (cart[k].productId == id ==> r[k] == cart[k].(quantity := qty, total := qty * cart[k].unitPrice))
    ensures !InCart(cart, id) ==> r == cart
    ensures DistinctIds(cart) ==> DistinctIds(r)
    ensures WellFormed(cart) ==> WellFormed(r)
  {
    if qty <= 0 then
      var r := RemoveLine(cart, id);
      assert !InCart(r, id);
      assert DistinctIds(cart) ==> DistinctIds(r) by {
        if DistinctIds(cart) && !DistinctIds(r) {
          var i, j :| 0 <= i < j < |r| && r[i].productId == r[j].productId;
          RemoveKeepsOrder(cart, id, i, j);
        }
      }
      assert WellFormed(cart) ==> WellFormed(r) by {
        forall k | 0 <= k < |r| ensures WellFormed(cart) ==> WellFormedLine(r[k]) {
          assert r[k] in cart;
        }
      }
      r
    else
      var r := SetQuantity(cart, id, Some(qty));
      if !InCart(cart, id) then
        assert r == cart;
        r
      else r
  }

  /** Filtering keeps two kept lines in their original relative order, so
      equal ids after filtering mean equal ids before. */
  lemma {:induction false} RemoveKeepsOrder(cart: seq<CartItem>, id: string, i: nat, j: nat)
    requires i < j < |RemoveLine(cart, id)|
    ensures exists a, b :: 0 <= a < b < |cart| && cart[a] == RemoveLine(cart, id)[i] && cart[b] == RemoveLine(cart, id)[j]
    decreases |cart|
  {
    var init, last := cart[..|cart| - 1], cart[|cart| - 1];
    var earlier := RemoveLine(init, id);
    var r := RemoveLine(cart, id);
    assert r == earlier + (if last.productId != id then [last] else []);
    if j < |earlier| {
      assert r[i] == earlier[i] && r[j] == earlier[j];
      RemoveKeepsOrder(init, id, i, j);
      var a, b :| 0 <= a < b < |init| && init[a] == earlier[i] && init[b] == earlier[j];
      assert cart[a] == init[a] && cart[b] == init[b];
    } else {
      assert r[j] == last;
      assert r[i] == earlier[i] && earlier[i] in init;
      var a :| 0 <= a < |init| && init[a] == earlier[i];
      assert cart[a] == init[a] && cart[|cart| - 1] == last;
    }
  }

  /** `cart.reduce((s, i) => s + i.total, 0)`: with no negative line total,
      the subtotal is not negative. */
  function Subtotal(cart: seq<CartItem>): (r: int)
    ensures (forall k :: 0 <= k < |cart| ==> cart[k].total >= 0) ==> r >= 0
    decreases |cart|
  {
    if cart == [] then 0
    else
      var init := cart[..|cart| - 1];
      assert forall k :: 0 <= k < |init| ==> init[k] == cart[k];
      Subtotal(init) + cart[|cart| - 1].total
  }

  /** Adding a product to a well-formed cart raises the subtotal by one unit
      of it: by the product's price for a new line, by the line's unit price
      for a line already there. */
  lemma {:induction false} SubtotalAfterAdd(cart: seq<CartItem>, p: Product)
    requires WellFormed(cart) && DistinctIds(cart)
    ensures !InCart(cart, p.id) ==> Subtotal(AddToCart(cart, p)) == Subtotal(cart) + p.price
    ensures forall k :: 0 <= k < |cart| && cart[k].productId == p.id ==>
      Subtotal(AddToCart(cart, p)) == Subtotal(cart) + cart[k].unitPrice
  {
    var r := AddToCart(cart, p);
    if !InCart(cart, p.id) {
      assert r[..|cart|] == cart;
    } else {
      var k :| 0 <= k < |cart| && cart[k].productId == p.id;
      SubtotalAfterIncrement(cart, p.id, k);
    }
  }

  lemma SubtotalAfterIncrement(cart: seq<CartItem>, id: string, k: nat)
    requires DistinctIds(cart)
    requires k < |cart| && cart[k].productId == id && WellFormedLine(cart[k])
    ensures Subtotal(SetQuantity(cart, id, None)) == Subtotal(cart) + cart[k].unitPrice
  {
    IncrementOneLine(cart, id, k);
    SubtotalOneLineChanged(cart, SetQuantity(cart, id, None), k);
  }

  /** The +1 map on a cart with distinct ids changes line `k` only, and
      adds its unit price to that line's total. */
  lemma IncrementOneLine(cart: seq<CartItem>, id: string, k: nat)
    requires DistinctIds(cart)
    requires k < |cart| && cart[k].productId == id && WellFormedLine(cart[k])
    ensures var r := SetQuantity(cart, id, None);
      && (forall j :: 0 <= j < |cart| && j != k ==> r[j] == cart[j])
      && r[k].total == cart[k].total + cart[k].unitPrice
  {
    var r := SetQuantity(cart, id, None);
    forall j | 0 <= j < |cart| && j != k
      ensures r[j] == cart[j]
    {
      assert cart[j].productId != id;
    }
    assert r[k] == WithQuantity(cart[k], cart[k].quantity + 1);
    IncrementTotal(cart[k]);
  }

  /** Two carts that differ only in line `k` differ in subtotal by the
      difference of that line's totals. */
  lemma {:induction false} SubtotalOneLineChanged(cart: seq<CartItem>, r: seq<CartItem>, k: nat)
    requires |r| == |cart| && k < |cart|
    requires forall j :: 0 <= j < |cart| && j != k ==> r[j] == cart[j]
    ensures Subtotal(r) == Subtotal(cart) - cart[k].total + r[k].total
    decreases |cart|
  {
    var n := |cart| - 1;
    assert Subtotal(r) == Subtotal(r[..n]) + r[n].total;
    assert Subtotal(cart) == Subtotal(cart[..n]) + cart[n].total;
    if k == n {
      assert r[..n] == cart[..n];
    } else {
      assert r[n] == cart[n];
      SubtotalOneLineChanged(cart[..n], r[..n], k);
    }
  }

  /** One more unit adds the unit price to a well-formed line's total. */
  lemma IncrementTotal(i: CartItem)
    requires WellFormedLine(i)
    ensures WithQuantity(i, i.quantity + 1).total == i.total + i.unitPrice
  {
    calc {
      (i.quantity + 1) * i.unitPrice;
      i.quantity * i.unitPrice + i.unitPrice;
    }
  }

  lemma UnchangedWithoutId(cart: seq<CartItem>, id: string)
    requires !InCart(cart, id)
    ensures SetQuantity(cart, id, None) == cart
  {
  }

  /** The change shown while paying: never negative. */
  function DisplayedChange(paid: int, total: int): (r: int)
    ensures r >= 0 && r >= paid - total
    ensures r == 0 || r == paid - total
  {
    if paid - total > 0 then paid - total else 0
  }

  /** The body `handleCheckout` sends for the lines of the cart. */
  function Lines(cart: seq<CartItem>): (r: seq<LineRequest>)
    ensures |r| == |cart|
    ensures forall k :: 0 <= k < |cart| ==>
      r[k] == LineRequest(Some(cart[k].productId), Some(cart[k].quantity), Some(cart[k].unitPrice), Some(cart[k].discount), Some(cart[k].total))
  {
    seq(|cart|, k requires 0 <= k < |cart| =>
      LineRequest(Some(cart[k].productId), Some(cart[k].quantity), Some(cart[k].unitPrice), Some(cart[k].discount), Some(cart[k].total)))
  }

  /** `handleCheckout`: `paymentMethod` is the selected payment method, `amountPaid`
      the amount typed in, `tax` the rounded 12%. `None` is a checkout that
      returns without submitting. */
  function Checkout(cart: seq<CartItem>, paymentMethod: string, amountPaid: int, tax: int): (r: Option<SaleRequest>)
    ensures |cart| == 0 ==> r.None?
    ensures |cart| > 0 && paymentMethod != "CASH" ==> r.Some? && r.value.amountPaid == r.value.total
    ensures |cart| > 0 && paymentMethod == "CASH" ==> (r.None? <==> amountPaid < Subtotal(cart) + tax)
    ensures r.Some? ==>
      && r.value.items == Some(Lines(cart))
      && r.value.subtotal == Some(Subtotal(cart)) && r.value.tax == Some(tax)
      && r.value.total == Some(Subtotal(cart) + tax) && r.value.discount == Some(0)
      && r.value.paymentMethod == Some(paymentMethod)
      && r.value.amountPaid.Some? && r.value.amountPaid.value >= Subtotal(cart) + tax
      && r.value.change == Some(r.value.amountPaid.value - (Subtotal(cart) + tax))
  {
    if |cart| == 0 then None
    else
      var subtotal := Subtotal(cart);
      var total := subtotal + tax;
      var paid := if paymentMethod == "CASH" then amountPaid else total;
      if paid < total then None
      else Some(SaleRequest(Some(Lines(cart)), Some(subtotal), Some(0), Some(tax), Some(total), Some(paymentMethod), Some(paid), Some(paid - total), None))
  }

  lemma {:induction false} WellFormedSubtotal(cart: seq<CartItem>)
    requires WellFormed(cart)
    ensures Subtotal(cart) >= 0
    decreases |cart|
  {
    if cart != [] {
      WellFormedSubtotal(cart[..|cart| - 1]);
    }
  }

  /** What the page submits from a cart built by its own operations passes
      the server's validation, for any payment method the server knows and
      a non-negative tax. */
  lemma CheckoutPassesValidation(cart: seq<CartItem>, paymentMethod: string, amountPaid: int, tax: int)
    requires WellFormed(cart) && tax >= 0 && ParsePaymentMethod(paymentMethod).Some?
    requires Checkout(cart, paymentMethod, amountPaid, tax).Some?
    ensures Validate(Checkout(cart, paymentMethod, amountPaid, tax).value).Some?
  {
    WellFormedSubtotal(cart);
    var body := Checkout(cart, paymentMethod, amountPaid, tax).value;
    forall k | 0 <= k < |body.items.value| ensures ValidLine(body.items.value[k]) {
      assert WellFormedLine(cart[k]);
    }
  }
}
