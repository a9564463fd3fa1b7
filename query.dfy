/** The read-only query over the order store: keyword and amount filters
    followed by a stable sort on the order total. */
module Query {
  import opened Orders
  import opened Text

  /** An optional argument: `None` plays the part of a null `double?`. */
  datatype Option<T> = None | Some(value: T)

  /** Keeps the elements of `s` that satisfy `p`, in their original order
      (Enumerable.Where). */
  function Where(s: seq<Order>, p: Order -> bool): (r: seq<Order>)
    ensures forall o :: multiset(r)[o] == if p(o) then multiset(s)[o] else 0
    decreases |s|
  {
    if s == [] then []
    else
      var rest := Where(s[1..], p);
      assert s == [s[0]] + s[1..];
      if p(s[0]) then [s[0]] + rest else rest
  }

  /** Ascending by total: no order is preceded by one with a larger total. */
  predicate SortedByTotal(s: seq<Order>)
  {
    forall i, j :: 0 <= i < j < |s| ==> TotalAmount(s[i]) <= TotalAmount(s[j])
  }

  /** Every order of `s` has a total of at least `bound`. */
  predicate AllAtLeast(bound: real, s: seq<Order>)
  {
    forall i :: 0 <= i < |s| ==> bound <= TotalAmount(s[i])
  }

  /** A lower bound on the totals of two collections bounds the totals of any
      rearrangement of their union. */
  lemma AllAtLeastOfUnion(bound: real, r: seq<Order>, s: seq<Order>, o: Order)
    requires multiset(r) == multiset(s) + multiset{o}
    requires AllAtLeast(bound, s) && bound <= TotalAmount(o)
    ensures AllAtLeast(bound, r)
  {
    forall i | 0 <= i < |r|
      ensures bound <= TotalAmount(r[i])
    {
      assert r[i] in multiset(r);
      if r[i] != o {
        assert r[i] in multiset(s);
        var j :| 0 <= j < |s| && s[j] == r[i];
      }
    }
  }

  /** Inserts `o` into the sorted `s` ahead of the first order whose total is
      not smaller, so `o` precedes the orders of equal total. */
  function InsertByTotal(o: Order, s: seq<Order>): (r: seq<Order>)
    requires SortedByTotal(s)
    ensures SortedByTotal(r)
    ensures multiset(r) == multiset(s) + multiset{o}
    decreases |s|
  {
    if s == [] || TotalAmount(o) <= TotalAmount(s[0]) then
      [o] + s
    else
      var rest := InsertByTotal(o, s[1..]);
      assert s == [s[0]] + s[1..];
      AllAtLeastOfUnion(TotalAmount(s[0]), rest, s[1..], o);
      [s[0]] + rest
  }

  /** A stable sort of `s` ascending by total (Enumerable.OrderBy): orders of
      equal total keep the order they had in `s`. */
  function OrderByTotal(s: seq<Order>): (r: seq<Order>)
    ensures SortedByTotal(r)
    ensures multiset(r) == multiset(s)
    decreases |s|
  {
    if s == [] then []
    else
      assert s == [s[0]] + s[1..];
      InsertByTotal(s[0], OrderByTotal(s[1..]))
  }

  /** The condition the query's filters impose on one order: the keyword, when
      non-empty, occurs in the order id or the customer, and the total lies
      within whichever of the two bounds are given. */
  predicate Matches(o: Order, keyword: string, minAmount: Option<real>, maxAmount: Option<real>)
  {
    && (keyword == "" || Contains(o.orderId, keyword) || Contains(o.customer, keyword))
    && (minAmount.Some? ==> minAmount.value <= TotalAmount(o))
    && (maxAmount.Some? ==> TotalAmount(o) <= maxAmount.value)
  }

  /** The query pipeline applied to `view`, the orders in the order the store
      enumerates them: each given filter in turn, then the sort by total.
      The result holds exactly the orders of `view` that pass the filters, as
      often as `view` holds them, sorted ascending by total. */
  function QueryOrders(view: seq<Order>, keyword: string, minAmount: Option<real>, maxAmount: Option<real>)
    : (r: seq<Order>)
    ensures SortedByTotal(r)
    ensures forall o :: multiset(r)[o] == if Matches(o, keyword, minAmount, maxAmount) then multiset(view)[o] else 0
  {
    var byKeyword :=
      if keyword != "" then Where(view, (o: Order) => Contains(o.orderId, keyword) || Contains(o.customer, keyword))
      else view;
    var byMin :=
      if minAmount.Some? then Where(byKeyword, (o: Order) => TotalAmount(o) >= minAmount.value)
      else byKeyword;
    var byMax :=
      if maxAmount.Some? then Where(byMin, (o: Order) => TotalAmount(o) <= maxAmount.value)
      else byMin;
    OrderByTotal(byMax)
  }

  /** An order is in the result exactly when it is in `view` and passes the
      filters; so with a non-empty keyword every result has the keyword inside
      its id or its customer, and every result lies within the given bounds. */
  lemma QueryMembership(view: seq<Order>, keyword: string, minAmount: Option<real>,
                                           maxAmount: Option<real>, o: Order)
    ensures o in QueryOrders(view, keyword, minAmount, maxAmount) <==>
              o in view && Matches(o, keyword, minAmount, maxAmount)
    ensures o in QueryOrders(view, keyword, minAmount, maxAmount) && keyword != "" ==>
              (exists i :: OccursAt(o.orderId, keyword, i)) || (exists i :: OccursAt(o.customer, keyword, i))
    ensures o in QueryOrders(view, keyword, minAmount, maxAmount) && minAmount.Some? ==>
              minAmount.value <= TotalAmount(o)
    ensures o in QueryOrders(view, keyword, minAmount, maxAmount) && maxAmount.Some? ==>
              TotalAmount(o) <= maxAmount.value
  {
  }

  /** With no keyword and no bounds the query returns every order of `view`,
      as often as `view` holds it, ascending by total. */
  lemma UnfilteredQueryIsSortedView(view: seq<Order>)
    ensures multiset(QueryOrders(view, "", None, None)) == multiset(view)
    ensures SortedByTotal(QueryOrders(view, "", None, None))
  {
  }

  /** The empty keyword imposes nothing: the query's guard against it only
      skips a filter that every order would pass. */
  lemma EmptyKeywordFilterIsVacuous(view: seq<Order>)
    ensures Where(view, (o: Order) => Contains(o.orderId, "") || Contains(o.customer, "")) == view
  {
    var p := (o: Order) => Contains(o.orderId, "") || Contains(o.customer, "");
    forall o: Order
      ensures p(o)
    {
      ContainsEmpty(o.orderId);
    }
    WhereAll(view, p);
  }

  /** A filter that every order passes keeps the sequence as it is. */
  lemma {:induction false} WhereAll(s: seq<Order>, p: Order -> bool)
    requires forall o :: p(o)
    ensures Where(s, p) == s
    decreases |s|
  {
    if s != [] {
      WhereAll(s[1..], p);
    }
  }

  /** The totals of `s`, position by position. */
  function Totals(s: seq<Order>): (t: seq<real>)
    ensures |t| == |s|
    ensures forall i :: 0 <= i < |s| ==> t[i] == TotalAmount(s[i])
  {
    seq(|s|, i requires 0 <= i < |s| => TotalAmount(s[i]))
  }

  /** The totals of a concatenation are the totals of its parts. */
  lemma TotalsAppend(a: seq<Order>, b: seq<Order>)
    ensures Totals(a + b) == Totals(a) + Totals(b)
  {
  }

  /** Cuts `b` around one occurrence of `x`. */
  lemma SplitAround(b: seq<Order>, x: Order) returns (front: seq<Order>, back: seq<Order>)
    requires x in multiset(b)
    ensures b == front + [x] + back
    ensures multiset(front + back) == multiset(b) - multiset{x}
  {
    var i :| 0 <= i < |b| && b[i] == x;
    front, back := b[..i], b[i + 1..];
    assert b == front + [x] + back;
  }

  /** Rearranging orders rearranges their totals. */
  lemma {:induction false} TotalsPermutation(a: seq<Order>, b: seq<Order>)
    requires multiset(a) == multiset(b)
    ensures multiset(Totals(a)) == multiset(Totals(b))
    decreases |a|
  {
    if a != [] {
      var x := a[0];
      var front, back := SplitAround(b, x);
      assert a == [x] + a[1..];
      assert multiset(a[1..]) == multiset(front + back);
      TotalsPermutation(a[1..], front + back);
      TotalsAppend([x], a[1..]);
      TotalsAppend(front + [x], back);
      TotalsAppend(front, [x]);
      TotalsAppend(front, back);
    }
  }

  /** Two ascending sequences of reals holding the same values are equal. */
  lemma {:induction false} SortedRealsUnique(a: seq<real>, b: seq<real>)
    requires forall i, j :: 0 <= i < j < |a| ==> a[i] <= a[j]
    requires forall i, j :: 0 <= i < j < |b| ==> b[i] <= b[j]
    requires multiset(a) == multiset(b)
    ensures a == b
    decreases |a|
  {
    assert |a| == |multiset(a)| == |b|;
    if a != [] {
      assert a[0] in multiset(b);
      assert b[0] in multiset(a);
      assert a[0] == b[0];
      assert a == [a[0]] + a[1..];
      assert b == [b[0]] + b[1..];
      calc {
        multiset(a[1..]);
        multiset(a) - multiset{a[0]};
        multiset(b) - multiset{b[0]};
        multiset(b[1..]);
      }
      SortedRealsUnique(a[1..], b[1..]);
    }
  }

  /** The query's result depends on the enumeration order of the store only
      through the order of equal totals: two enumerations holding the same
      orders give results that hold the same orders and the same sequence of
      totals. */
  lemma QueryTotalsIndependentOfEnumeration(view1: seq<Order>, view2: seq<Order>, keyword: string,
                                            minAmount: Option<real>, maxAmount: Option<real>)
    requires multiset(view1) == multiset(view2)
    ensures multiset(QueryOrders(view1, keyword, minAmount, maxAmount)) ==
            multiset(QueryOrders(view2, keyword, minAmount, maxAmount))
    ensures Totals(QueryOrders(view1, keyword, minAmount, maxAmount)) ==
            Totals(QueryOrders(view2, keyword, minAmount, maxAmount))
  {
    var r1 := QueryOrders(view1, keyword, minAmount, maxAmount);
    var r2 := QueryOrders(view2, keyword, minAmount, maxAmount);
    assert forall o :: multiset(r1)[o] == multiset(r2)[o];
    assert multiset(r1) == multiset(r2);
    TotalsPermutation(r1, r2);
    SortedRealsUnique(Totals(r1), Totals(r2));
  }
}
