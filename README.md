# Order store and query, modelled in Dafny

This project models the order-management core of a small C# console tool. The
core is `OrderService` with its `Order` and `OrderDetails` records.

- An **order** has an id, a customer and a list of line items. Its **total** is
  recomputed from the line items on every read.
- A **line item** (`OrderDetails`) is a product name and an amount.
- The **order service** keeps a dictionary from order id to order. It offers
  `AddOrder`, `DeleteOrder` and `UpdateOrder`, each of which refuses a taken or
  missing id and then changes nothing. It also offers `QueryOrders`, which
  filters by keyword and by amount bounds and sorts ascending by total.

Files and modules:

- `order.dfy`, module `Orders`: the two records as datatypes, the total as a
  sum over the line items, and lemmas about that sum.
- `text.dfy`, module `Text`: `String.Contains` as ordinal, case-sensitive
  substring search, proved equal to "there is an index where the keyword
  occurs".
- `query.dfy`, module `Query`: the query pipeline (`Where`, the stable
  `OrderBy` on totals, and `QueryOrders` over an enumeration of the store),
  with its properties.
- `store.dfy`, module `OrderStore`: the store operations as pure functions on a
  `map`, lemmas relating them, and the class `OrderService`. The class holds
  the dictionary in a field, and its methods change that field in place and are
  proved against those functions. The method `ExampleSession` replays a short
  session of adds, a refused duplicate add, queries and a delete.

The dictionary's enumeration order is not specified by .NET, so the result of a
query is fixed only up to the order of orders with equal totals. The pure
`Query.QueryOrders` takes the enumeration as a parameter. The method
`OrderService.QueryOrders` visits the keys in an order the model leaves open.
`Query.QueryTotalsIndependentOfEnumeration` proves that the enumeration order
changes neither which orders are returned nor the sequence of their totals.

## Model

| member | source | states |
|---|---|---|
| `Orders.SumAmounts` | vsassignment5/ConsoleApp2/Program.cs:13-16 | No contract of its own: the sum of the line-item amounts, accumulated from the first to the last, 0 for no line items. Its properties are the `Orders` lemmas below. |
| `Orders.TotalAmount` | vsassignment5/ConsoleApp2/Program.cs:11 | No contract of its own: an order's total, recomputed from its current line items on every use and never cached. |
| `Orders.TotalOfFewDetails` | vsassignment5/ConsoleApp2/Program.cs:9-16 | An order with no line items totals 0; an order with one line item totals that item's amount. |
| `Orders.SumAppend` | vsassignment5/ConsoleApp2/Program.cs:13-16 | The total over a concatenation of line-item lists is the sum of the parts' totals. |
| `Orders.SumPermutation` | vsassignment5/ConsoleApp2/Program.cs:13-16 | Two line-item lists holding the same items in any order have the same total. |
| `Orders.SumOfNonNegative` | vsassignment5/ConsoleApp2/Program.cs:13-16 | If no amount is negative, the total is non-negative and no single amount exceeds it. Amounts are never validated, so this needs the hypothesis. |
| `Text.Contains` | vsassignment5/ConsoleApp2/Program.cs:72 | The substring test is true exactly when the keyword occurs at some index of the string, compared character by character with no case folding. |
| `Text.ContainsEmpty` | vsassignment5/ConsoleApp2/Program.cs:70-72 | Every string contains the empty keyword. |
| `Text.ContainsWithin` | vsassignment5/ConsoleApp2/Program.cs:72 | A string contains every keyword it has in its middle, including itself. |
| `Query.Where` | vsassignment5/ConsoleApp2/Program.cs:72-80 | A filter keeps each element that satisfies the predicate exactly as often as the input holds it, and drops every other element. |
| `Query.InsertByTotal` | vsassignment5/ConsoleApp2/Program.cs:83 | Inserting into a list sorted by total gives a list sorted by total that holds the old elements plus the new one. |
| `Query.OrderByTotal` | vsassignment5/ConsoleApp2/Program.cs:83 | The sort result is ascending by total and is a permutation of its input. |
| `Query.Matches` | vsassignment5/ConsoleApp2/Program.cs:70-81 | No contract of its own: an order passes when the keyword, if non-empty, occurs in its id or its customer, and its total lies within each bound that is given. Every query contract is stated in terms of it. |
| `Query.QueryOrders` | vsassignment5/ConsoleApp2/Program.cs:66-84 | Over an enumeration of the store, the query result is ascending by total. It holds each order that passes the keyword, minimum and maximum filters as often as the enumeration does, and no other order. |
| `Query.QueryMembership` | vsassignment5/ConsoleApp2/Program.cs:70-81 | An order is returned exactly when it is enumerated and passes the filters. With a non-empty keyword, every returned order has the keyword in its id or its customer. Every returned order lies within each bound that is given. |
| `Query.UnfilteredQueryIsSortedView` | vsassignment5/ConsoleApp2/Program.cs:66-84 | With no keyword and no bounds, the query returns every enumerated order, ascending by total. |
| `Query.EmptyKeywordFilterIsVacuous` | vsassignment5/ConsoleApp2/Program.cs:70-73 | A keyword filter with the empty keyword would keep every order, so skipping it for an empty keyword changes nothing. |
| `Query.QueryTotalsIndependentOfEnumeration` | vsassignment5/ConsoleApp2/Program.cs:68-83 | Two enumerations of the same orders give results with the same orders and the same sequence of totals; only ties can differ. |
| `OrderStore.Add` | vsassignment5/ConsoleApp2/Program.cs:39-46 | Adding fails with "order exists" exactly when the id is taken. Otherwise the key set grows by that one id, the order is stored under its own id, every other entry is kept, and the store stays keyed by order id. |
| `OrderStore.Delete` | vsassignment5/ConsoleApp2/Program.cs:48-55 | Deleting fails with "order missing" exactly when the id is absent. Otherwise exactly that key is removed, the size drops by one, and every remaining entry is kept. |
| `OrderStore.Update` | vsassignment5/ConsoleApp2/Program.cs:57-64 | Updating fails with "order missing" exactly when the id is absent. Otherwise the key set is kept, that order gets the new customer with its id and line items unchanged, and every other order is kept. |
| `OrderStore.AddThenDelete` | vsassignment5/ConsoleApp2/Program.cs:39-55 | Deleting an order that was just added restores the original store. |
| `OrderStore.DeleteThenAdd` | vsassignment5/ConsoleApp2/Program.cs:39-55 | Adding back an order that was just deleted restores the original store. |
| `OrderStore.UpdateThenRestore` | vsassignment5/ConsoleApp2/Program.cs:57-64 | Updating the customer and then setting it back restores the original store. |
| `OrderStore.UpdateIdempotent` | vsassignment5/ConsoleApp2/Program.cs:57-64 | Updating twice to the same customer has the same effect as updating once. |
| `OrderStore.UpdateKeepsTotals` | vsassignment5/ConsoleApp2/Program.cs:57-64 | An update leaves every order's total unchanged. |
| `OrderStore.AddedOrderIsFound` | vsassignment5/ConsoleApp2/Program.cs:45-72 | After a successful add, a query whose keyword is the new id returns the new order, whatever the enumeration order. |
| `OrderStore.DeletedOrderIsGone` | vsassignment5/ConsoleApp2/Program.cs:54-83 | After a successful delete, no query returns an order with the deleted id, and everything a query returns was already in the store. |
| `OrderStore.OrderService.constructor` | vsassignment5/ConsoleApp2/Program.cs:37 | A new service starts with an empty dictionary. |
| `OrderStore.OrderService.AddOrder` | vsassignment5/ConsoleApp2/Program.cs:39-46 | A taken id yields `Fail(OrderExists)` and leaves the dictionary unchanged, including the order already there. Otherwise the new dictionary is the one `Add` gives. Either way the dictionary stays keyed by order id. |
| `OrderStore.OrderService.DeleteOrder` | vsassignment5/ConsoleApp2/Program.cs:48-55 | An absent id yields `Fail(OrderMissing)` with the dictionary unchanged. Otherwise the new dictionary is the one `Delete` gives. |
| `OrderStore.OrderService.UpdateOrder` | vsassignment5/ConsoleApp2/Program.cs:57-64 | An absent id yields `Fail(OrderMissing)` with the dictionary unchanged. Otherwise the new dictionary is the one `Update` gives. |
| `OrderStore.OrderService.QueryOrders` | vsassignment5/ConsoleApp2/Program.cs:66-84 | The result is ascending by total. It holds each stored order that passes the filters exactly once and nothing else. It is the query pipeline applied to some enumeration of the dictionary. The dictionary is only read. |

## Left out

- The `Program` class (Program.cs lines 87-214): the console menu, its prompts and `Console` input and output, and the loop that reads amounts until "exit".
- The `ToString` overrides: they format `double` values as localized text.
- Floating point: amounts are exact reals. Rounding in `Sum`, NaN and infinities are not modelled.
- Nulls: ids, customers, keywords, orders and line-item lists are never null here. In the source a null keyword behaves like the empty one (line 70). A null id makes `ContainsKey` throw in `AddOrder`, `DeleteOrder` and `UpdateOrder` (lines 41, 50, 59). A null customer is stored without complaint by `AddOrder` (lines 41-45) and by `UpdateOrder` (line 63). It throws only later, in a query with a non-empty keyword whose id does not contain that keyword, where `o.Customer.Contains` meets null (line 72). A null `Order` passed to `AddOrder` throws at line 41. A null `Details` list, reachable through the public setter at line 9, makes `Sum` throw at line 15. None of these exceptions is modelled.
- Default arguments: `QueryOrders` declares `keyword = ""`, `minAmount = null` and `maxAmount = null` (line 66). The model has three explicit parameters with the same meaning (`""`, `None`, `None`); the call with no arguments is `Query.UnfilteredQueryIsSortedView`.
- String encoding: strings are sequences of Unicode scalar values, while a C# string is a sequence of UTF-16 code units and may hold lone surrogates. Ordinal `Contains` gives the same answer on well-formed text; text with lone surrogates is not modelled.
- Exceptions: each `InvalidOperationException` is a `Fail` outcome that names the reason. The message texts are not carried.
- Reference aliasing: the source stores the caller's `Order` object, `UpdateOrder` changes that shared object, and public setters let callers change stored orders. Here orders are values owned by the store.
- The actual enumeration order of `Dictionary` values, and with it the order among equal totals in a query result; the model leaves it open.
- `Query.OrderByTotal`: the contract states ascending order and permutation but not stability. `InsertByTotal` does place earlier elements ahead of equal ones, as `Enumerable.OrderBy` does.
- The lazy, composed `IQueryable` machinery: the filters run as a sequence of eager `Where` steps, which returns the same elements.
- Adding an order with an empty id: the source accepts it, and so does the model. No non-empty id is required.
- The alarm clock program in assignment4 (worker thread, sleeping and wall-clock polling) is not part of this model.
