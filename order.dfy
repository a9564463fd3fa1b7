/** Orders, their line items, and the derived order total. */
module Orders {

  /** One line item of an order: a product and the amount charged for it.
      Amounts are exact reals; nothing requires them to be non-negative. */
  datatype OrderDetails = OrderDetails(productName: string, amount: real)

  /** An order: the key it is stored under, its customer, and its line items
      in the order they were entered. */
  datatype Order = Order(orderId: string, customer: string, details: seq<OrderDetails>)

  /** The sum of the amounts of `details`, accumulated from the first line item
      to the last (the running total of Enumerable.Sum). */
  function SumAmounts(details: seq<OrderDetails>): real
  {
    if details == [] then 0.0
    else SumAmounts(details[..|details| - 1]) + details[|details| - 1].amount
  }

  /** The total of an order, recomputed from its line items on every use. */
  function TotalAmount(order: Order): real
  {
    SumAmounts(order.details)
  }

  /** An order without line items totals 0; one line item totals its amount. */
  lemma TotalOfFewDetails(order: Order)
    ensures order.details == [] ==> TotalAmount(order) == 0.0
    ensures |order.details| == 1 ==> TotalAmount(order) == order.details[0].amount
  {
    if |order.details| == 1 {
      assert SumAmounts(order.details[..0]) == 0.0;
    }
  }

  /** The total of a concatenation is the sum of the totals of the parts. */
  lemma {:induction false} SumAppend(a: seq<OrderDetails>, b: seq<OrderDetails>)
    ensures SumAmounts(a + b) == SumAmounts(a) + SumAmounts(b)
    decreases |b|
  {
    if b == [] {
      assert a + b == a;
    } else {
      var last := |b| - 1;
      assert (a + b)[..|a + b| - 1] == a + b[..last];
      SumAppend(a, b[..last]);
    }
  }

  /** The total does not depend on the order of the line items. */
  lemma {:induction false} SumPermutation(a: seq<OrderDetails>, b: seq<OrderDetails>)
    requires multiset(a) == multiset(b)
    ensures SumAmounts(a) == SumAmounts(b)
    decreases |a|
  {
    if a != [] {
      var x := a[0];
      assert x in multiset(b);
      var i :| 0 <= i < |b| && b[i] == x;
      var rest := b[..i] + b[i + 1..];
      assert b == b[..i] + [x] + b[i + 1..];
      assert a == [x] + a[1..];
      calc {
        multiset(a[1..]);
        multiset(a) - multiset{x};
        multiset(b) - multiset{x};
        multiset(rest);
      }
      SumPermutation(a[1..], rest);
      SumAppend([x], a[1..]);
      SumAppend(b[..i], [x]);
      SumAppend(b[..i] + [x], b[i + 1..]);
      SumAppend(b[..i], b[i + 1..]);
      assert SumAmounts([x]) == x.amount by {
        assert [x][..0] == [];
      }
    }
  }

  /** When every amount is non-negative, the total is non-negative and no
      single line item exceeds it. */
  lemma {:induction false} SumOfNonNegative(details: seq<OrderDetails>)
    requires forall i :: 0 <= i < |details| ==> details[i].amount >= 0.0
    ensures SumAmounts(details) >= 0.0
    ensures forall i :: 0 <= i < |details| ==> details[i].amount <= SumAmounts(details)
    decreases |details|
  {
    if details != [] {
      var init := details[..|details| - 1];
      SumOfNonNegative(init);
      forall i | 0 <= i < |details|
        ensures details[i].amount <= SumAmounts(details)
      {
        if i < |details| - 1 {
          assert details[i] == init[i];
        }
      }
    }
  }
}
