/** The in-memory order store: a dictionary from order id to order whose add,
    delete and update operations either succeed or refuse and leave the store
    as it was, and whose query only reads it. */
module OrderStore {
  import opened Orders
  import opened Text
  import opened Query

  /** Why an operation was refused. The source raises an
      InvalidOperationException in both cases, with one message for an id that
      is already taken and another for an id that is not there. */
  datatype StoreError = OrderExists | OrderMissing

  /** The result of an operation that returns nothing when it succeeds. */
  datatype Outcome = Pass | Fail(error: StoreError)

  /** The new store, or the reason the operation was refused. */
  datatype Result<T> = Ok(value: T) | Err(error: StoreError)

  /** The store's contents: order id to order. */
  type Store = map<string, Order>

  /** Every order is stored under its own id. */
  predicate WellKeyed(store: Store)
  {
    forall id :: id in store ==> store[id].orderId == id
  }

  /** `o` is the order the store holds under `o`'s id. */
  predicate Stored(store: Store, o: Order)
  {
    o.orderId in store && store[o.orderId] == o
  }

  /** `view` lists the orders of the store, each once, in some order: the
      enumeration of the dictionary's values, whose order .NET leaves
      unspecified. */
  ghost predicate IsEnumeration(view: seq<Order>, store: Store)
  {
    forall o :: multiset(view)[o] == if Stored(store, o) then 1 else 0
  }

  /** `view` lists, each once, the stored orders whose ids are not in
      `pending`: an enumeration that has yet to visit the ids in `pending`. */
  ghost predicate EnumeratedExcept(view: seq<Order>, store: Store, pending: set<string>)
  {
    forall o :: multiset(view)[o] == if Stored(store, o) && o.orderId !in pending then 1 else 0
  }

  /** Visiting one more pending id extends the enumeration by its order. */
  lemma EnumerateNext(view: seq<Order>, store: Store, pending: set<string>, id: string)
    requires WellKeyed(store) && id in pending && pending <= store.Keys
    requires EnumeratedExcept(view, store, pending)
    ensures EnumeratedExcept(view + [store[id]], store, pending - {id})
  {
  }

  /** Adding refuses an id that is already taken; otherwise the store gains
      exactly one entry, the order under its own id, and keeps all others. */
  function Add(store: Store, order: Order): (r: Result<Store>)
    ensures r.Err? <==> order.orderId in store
    ensures r.Err? ==> r.error == OrderExists
    ensures r.Ok? ==> r.value.Keys == store.Keys + {order.orderId} && |r.value| == |store| + 1
    ensures r.Ok? ==> Stored(r.value, order)
    ensures r.Ok? ==> forall id :: id in store ==> r.value[id] == store[id]
    ensures r.Ok? && WellKeyed(store) ==> WellKeyed(r.value)
  {
    if order.orderId in store then Err(OrderExists)
    else Ok(store[order.orderId := order])
  }

  /** Deleting refuses an id that is not there; otherwise the store loses
      exactly that entry and keeps all others. */
  function Delete(store: Store, orderId: string): (r: Result<Store>)
    ensures r.Err? <==> orderId !in store
    ensures r.Err? ==> r.error == OrderMissing
    ensures r.Ok? ==> r.value.Keys == store.Keys - {orderId} && |r.value| == |store| - 1
    ensures r.Ok? ==> forall id :: id in r.value ==> r.value[id] == store[id]
    ensures r.Ok? && WellKeyed(store) ==> WellKeyed(r.value)
  {
    if orderId !in store then Err(OrderMissing)
    else
      Ok(store - {orderId})
  }

  /** Updating refuses an id that is not there; otherwise only the customer
      of that one order changes: its id and line items, and every other order,
      stay as they were. */
  function Update(store: Store, orderId: string, newCustomer: string): (r: Result<Store>)
    ensures r.Err? <==> orderId !in store
    ensures r.Err? ==> r.error == OrderMissing
    ensures r.Ok? ==> r.value.Keys == store.Keys
    ensures r.Ok? ==> && r.value[orderId].customer == newCustomer
                      && r.value[orderId].orderId == store[orderId].orderId
                      && r.value[orderId].details == store[orderId].details
    ensures r.Ok? ==> forall id :: id in store && id != orderId ==> r.value[id] == store[id]
    ensures r.Ok? && WellKeyed(store) ==> WellKeyed(r.value)
  {
    if orderId !in store then Err(OrderMissing)
    else Ok(store[orderId := store[orderId].(customer := newCustomer)])
  }

  /** Deleting an order just added gives back the store as it was. */
  lemma AddThenDelete(store: Store, order: Order)
    requires order.orderId !in store
    ensures Delete(Add(store, order).value, order.orderId) == Ok(store)
  {
    var added := Add(store, order).value;
    assert added - {order.orderId} == store;
  }

  /** Adding back an order just deleted gives back the store as it was. */
  lemma DeleteThenAdd(store: Store, orderId: string)
    requires WellKeyed(store) && orderId in store
    ensures Add(Delete(store, orderId).value, store[orderId]) == Ok(store)
  {
    var deleted := Delete(store, orderId).value;
    assert deleted[orderId := store[orderId]] == store;
  }

  /** Updating the customer back to what it was gives back the store as it was. */
  lemma UpdateThenRestore(store: Store, orderId: string, newCustomer: string)
    requires orderId in store
    ensures Update(Update(store, orderId, newCustomer).value, orderId, store[orderId].customer) == Ok(store)
  {
    var updated := Update(store, orderId, newCustomer).value;
    assert updated[orderId := updated[orderId].(customer := store[orderId].customer)] == store;
  }

  /** Updating twice to the same customer is updating once. */
  lemma UpdateIdempotent(store: Store, orderId: string, newCustomer: string)
    requires orderId in store
    ensures Update(Update(store, orderId, newCustomer).value, orderId, newCustomer) ==
            Update(store, orderId, newCustomer)
  {
    var updated := Update(store, orderId, newCustomer).value;
    assert updated[orderId := updated[orderId].(customer := newCustomer)] == updated;
  }

  /** An update leaves every order's total as it was, since totals come from
      line items alone. */
  lemma UpdateKeepsTotals(store: Store, orderId: string, newCustomer: string)
    requires orderId in store
    ensures forall id :: id in store ==>
              TotalAmount(Update(store, orderId, newCustomer).value[id]) == TotalAmount(store[id])
  {
  }

  /** After a successful add, querying for the new order's id finds it, whatever
      the enumeration order. */
  lemma AddedOrderIsFound(store: Store, order: Order, view: seq<Order>)
    requires order.orderId !in store
    requires IsEnumeration(view, Add(store, order).value)
    ensures order in QueryOrders(view, order.orderId, None, None)
  {
  }

  /** After a successful delete, no query returns an order with the deleted id. */
  lemma DeletedOrderIsGone(store: Store, orderId: string, view: seq<Order>, keyword: string,
                           minAmount: Option<real>, maxAmount: Option<real>)
    requires WellKeyed(store) && orderId in store
    requires IsEnumeration(view, Delete(store, orderId).value)
    ensures forall o :: o in QueryOrders(view, keyword, minAmount, maxAmount) ==>
              o.orderId != orderId && Stored(store, o)
  {
    forall o | o in QueryOrders(view, keyword, minAmount, maxAmount)
      ensures o.orderId != orderId && Stored(store, o)
    {
      QueryMembership(view, keyword, minAmount, maxAmount, o);
      assert o in multiset(view);
    }
  }

  /** The order service: the store held in a dictionary field that the
      operations change in place. */
  class OrderService {
    var orders: Store

    /** Every order is stored under its own id. */
    ghost predicate Valid()
      reads this
    {
      WellKeyed(orders)
    }

    /** A new service holds no orders. */
    constructor ()
      ensures Valid() && orders == map[]
    {
      orders := map[];
    }

    /** Adds `order` under its id, or refuses an id already taken and changes
        nothing, the order already stored under that id included. */
    method AddOrder(order: Order) returns (outcome: Outcome)
      requires Valid()
      modifies this
      ensures Valid()
      ensures order.orderId in old(orders) ==> outcome == Fail(OrderExists) && orders == old(orders)
      ensures order.orderId !in old(orders) ==> outcome == Pass && Add(old(orders), order) == Ok(orders)
    {
      if order.orderId in orders {
        return Fail(OrderExists);
      }
      orders := orders[order.orderId := order];
      outcome := Pass;
    }

    /** Removes the order with id `orderId`, or refuses an id that is not there
        and changes nothing. */
    method DeleteOrder(orderId: string) returns (outcome: Outcome)
      requires Valid()
      modifies this
      ensures Valid()
      ensures orderId !in old(orders) ==> outcome == Fail(OrderMissing) && orders == old(orders)
      ensures orderId in old(orders) ==> outcome == Pass && Delete(old(orders), orderId) == Ok(orders)
    {
      if orderId !in orders {
        return Fail(OrderMissing);
      }
      orders := orders - {orderId};
      outcome := Pass;
    }

    /** Sets the customer of the order with id `orderId`, or refuses an id that
        is not there and changes nothing. */
    method UpdateOrder(orderId: string, newCustomer: string) returns (outcome: Outcome)
      requires Valid()
      modifies this
      ensures Valid()
      ensures orderId !in old(orders) ==> outcome == Fail(OrderMissing) && orders == old(orders)
      ensures orderId in old(orders) ==> outcome == Pass && Update(old(orders), orderId, newCustomer) == Ok(orders)
    {
      if orderId !in orders {
        return Fail(OrderMissing);
      }
      orders := orders[orderId := orders[orderId].(customer := newCustomer)];
      outcome := Pass;
    }

    /** The stored orders that pass the filters, each exactly once, ascending
        by total; the store is only read. The dictionary's values are visited
        in an order the model leaves open, and the filters and the stable sort
        run over that enumeration. */
    method QueryOrders(keyword: string, minAmount: Option<real>, maxAmount: Option<real>)
      returns (result: seq<Order>)
      requires Valid()
      ensures SortedByTotal(result)
      ensures forall o :: multiset(result)[o] ==
                if Stored(orders, o) && Matches(o, keyword, minAmount, maxAmount) then 1 else 0
      ensures exists view :: IsEnumeration(view, orders) && result == Query.QueryOrders(view, keyword, minAmount, maxAmount)
    {
      var pending := orders.Keys;
      var view: seq<Order> := [];
      while pending != {}
        invariant pending <= orders.Keys
        invariant EnumeratedExcept(view, orders, pending)
        decreases pending
      {
        var id :| id in pending;
        EnumerateNext(view, orders, pending, id);
        view := view + [orders[id]];
        pending := pending - {id};
      }
      assert IsEnumeration(view, orders);
      result := Query.QueryOrders(view, keyword, minAmount, maxAmount);
    }
  }

  /** The session of adding two orders, querying by a lower bound, deleting
      one and querying with no filters. */
  method ExampleSession()
  {
    var pen := Order("O1", "Alice", [OrderDetails("Pen", 3.5)]);
    var desk := Order("O2", "Bob", [OrderDetails("Desk", 120.0)]);
    TotalOfFewDetails(pen);
    TotalOfFewDetails(desk);
    var service := new OrderService();
    var outcome := service.AddOrder(pen);
    assert outcome == Pass;
    outcome := service.AddOrder(desk);
    assert outcome == Pass;
    outcome := service.AddOrder(pen);
    assert outcome == Fail(OrderExists);
    var found := service.QueryOrders("", Some(100.0), None);
    SingleOrder(found, desk);
    assert found == [desk];
    outcome := service.DeleteOrder("O1");
    assert outcome == Pass;
    found := service.QueryOrders("", None, None);
    SingleOrder(found, desk);
    assert found == [desk];
  }

  /** A sequence that holds `o` once and nothing else is `[o]`. */
  lemma SingleOrder(s: seq<Order>, o: Order)
    requires forall x :: multiset(s)[x] == if x == o then 1 else 0
    ensures s == [o]
  {
    assert multiset(s) == multiset{o};
    assert |s| == |multiset(s)| == 1;
    assert s[0] in multiset(s);
  }
}
