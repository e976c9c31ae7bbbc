/**
 * The cart response body: the cart, its lines with the joined live product,
 * and the computed `total`.
 */
module CartSchema {
  import opened ProductSchema

  /** `CartItemResponse`: one line and the product it refers to, as currently stored. */
  datatype CartItemResponse = CartItemResponse(
    id: nat,
    productId: nat,
    quantity: nat,
    product: ProductResponse)

  /** `CartResponse`, whose `total` is computed from its lines. */
  datatype CartResponse = CartResponse(id: nat, userId: nat, items: seq<CartItemResponse>)
  {
    function Total(): real {
      Sum(items)
    }
  }

  /** A unit price times a quantity: what one line of a cart or an order costs. */
  function LineAmount(price: real, quantity: nat): real {
    price * quantity as real
  }

  /** What one line contributes: the live unit price times the quantity. */
  function Amount(item: CartItemResponse): real {
    LineAmount(item.product.price, item.quantity)
  }

  /**
   * `sum(item.product.price * item.quantity for item in items)`, folded from
   * the left as Python's `sum` adds the generator's values in order.
   */
  function Sum(items: seq<CartItemResponse>): (r: real)
    ensures r == SumOfAmounts(items)
  {
    if items == [] then 0.0
    else
      var init, last := items[..|items| - 1], items[|items| - 1];
      assert items == init + [last];
      SumOfAmountsSnoc(init, last);
      Sum(init) + Amount(last)
  }

  /** The same total, stated as the first line's amount plus the total of the rest. */
  function SumOfAmounts(items: seq<CartItemResponse>): real {
    if items == [] then 0.0 else Amount(items[0]) + SumOfAmounts(items[1..])
  }

  lemma {:induction false} SumOfAmountsSnoc(items: seq<CartItemResponse>, x: CartItemResponse)
    ensures SumOfAmounts(items + [x]) == SumOfAmounts(items) + Amount(x)
  {
    if items == [] {
      assert [] + [x] == [x] && [x][1..] == [];
    } else {
      assert (items + [x])[1..] == items[1..] + [x];
      SumOfAmountsSnoc(items[1..], x);
    }
  }

  /** The total of two runs of lines is the sum of their totals. */
  lemma {:induction false} SumConcat(a: seq<CartItemResponse>, b: seq<CartItemResponse>)
    ensures Sum(a + b) == Sum(a) + Sum(b)
  {
    if b != [] {
      var b' := b[..|b| - 1];
      assert (a + b)[..|a + b| - 1] == a + b';
      SumConcat(a, b');
    } else {
      assert a + b == a;
    }
  }

  /** A line added anywhere in a cart adds exactly its price times its quantity. */
  lemma SumInsert(a: seq<CartItemResponse>, x: CartItemResponse, b: seq<CartItemResponse>)
    ensures Sum(a + [x] + b) == Sum(a + b) + Amount(x)
  {
    SumConcat(a + [x], b);
    SumConcat(a, b);
  }

  /** With positive prices, the total is never negative, and is positive once there is a line. */
  lemma {:induction false} SumPositive(items: seq<CartItemResponse>)
    requires forall i :: 0 <= i < |items| ==> items[i].product.price > 0.0 && items[i].quantity >= 1
    ensures Sum(items) >= 0.0
    ensures items != [] ==> Sum(items) > 0.0
  {
    if items != [] {
      var init := items[..|items| - 1];
      assert forall i :: 0 <= i < |init| ==> init[i] == items[i];
      SumPositive(init);
      var last := items[|items| - 1];
      assert Amount(last) > 0.0 by {
        PositiveProduct(last.product.price, last.quantity as real);
      }
    }
  }

  lemma PositiveProduct(x: real, y: real)
    requires x > 0.0 && y >= 1.0
    ensures x * y > 0.0
  {
  }
}
