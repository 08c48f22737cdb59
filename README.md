# Bookstore service core, modelled in Dafny

This project models the service layer of a small bookstore REST API: the
catalog store (`service/inventory.py`), order placement
(`service/sales.py`) and the delivery recorder (`service/delivery.py`).
Each of the three JSON documents (`books.json`, `orders.json`,
`deliveries.json`) becomes a map field of one sequential object,
`Bookstore.Store`; loading a document is a read of its field and saving it is
an assignment to it. The service functions are methods of that object.

Files:

- `records.dfy` (`Records`): the book, line item, order and delivery records and the two request bodies.
- `ids.dfy` (`Ids`): count-derived identifiers `prefix + str(n)`, with a decimal rendering and its parser. It also defines the `Issued` invariant, under which the next count-derived id is fresh.
- `inventory.py` is modelled by `inventory.dfy` (`Inventory`): the catalog after `update_stock`, as a function.
- `sales.py` is modelled by `sales.dfy` (`Sales`): validation, order total, the catalog after the stock-update pass, and the lemmas about them.
- `delivery.py` is modelled by `delivery.dfy` (`Deliveries`): the delivery record.
- `store.dfy` (`Bookstore`): the `Store` class and its methods. `UpdateStock`, `ValidateItems`, `TakeStockForItems`, `CreateOrder` and `CreateDelivery` are proved against the functions above; `GetBook`, `AddBook` and `DeleteBook` state the catalog contents directly. `Scenario` is an example sequence of calls on a one-book catalog, using the request values of the service's tests, with its outcomes proved.

The model follows the code as written:

- `create_order` checks each line item against the stock read before the order. It does not add up quantities for a book named twice. So stock stays non-negative only when the book ids are distinct (`Sales.StockStaysNonNegative`). `Sales.RepeatedBookCanDriveStockNegative` shows the duplicate case.
- Zero and negative quantities are accepted. A negative quantity raises stock.
- `update_stock` on an absent id returns `None` and changes nothing. It raises no error.
- Stock is taken before `save_orders` writes the orders document.
- Ids come from the store size. `Store.Valid()` says every key was issued by that scheme and every record carries its own key. Under `Valid()` the new id is fresh and the store grows by one. Without it, an insertion can overwrite an existing record, as the code would.

## Model

| member | source | states |
|---|---|---|
| `Bookstore.Store.GetBook` | bookstore_api/service/inventory.py:12-14 | returns the record stored under the id when present and None otherwise; changes nothing |
| `Bookstore.Store.UpdateStock` | bookstore_api/service/inventory.py:16-22 | on a listed id the catalog becomes `TakeStock` of the old one and the updated record is returned; on an absent id it returns None and the catalog is unchanged; orders and deliveries are untouched |
| `Inventory.TakeStock` | bookstore_api/service/inventory.py:18-20 | the named book's stock drops by exactly the quantity; its title and price and every other book stay as they were; no key is added or removed |
| `Inventory.TakeStockCanGoNegative` | bookstore_api/service/inventory.py:19 | there is no lower-bound check: a quantity above the stock leaves a negative stock |
| `Bookstore.Store.AddBook` | bookstore_api/service/inventory.py:23-27 | maps the id to exactly the given record, inserting or overwriting, returns it, and leaves every other entry unchanged |
| `Bookstore.Store.DeleteBook` | bookstore_api/service/inventory.py:28-34 | returns true exactly when the id was listed; afterwards the id is absent and every other entry is unchanged |
| `Sales.FirstUnavailable` | bookstore_api/service/sales.py:18-21 | yields the index of the first line item whose book is absent or whose stock is below the quantity, with every earlier item available; yields None exactly when every item is available |
| `Bookstore.Store.ValidateItems` | bookstore_api/service/sales.py:16-22 | the validation loop stops at exactly `FirstUnavailable`; when no item fails, every book is listed and the accumulated total is the sum of price times quantity |
| `Sales.OrderTotalAppend` | bookstore_api/service/sales.py:16-22 | adding one item's price times quantity to the running total gives the total of the longer prefix, so the accumulated total is the sum over the line items |
| `Sales.OrderTotalNonNegative` | bookstore_api/service/sales.py:22 | with non-negative prices and quantities the order total is non-negative |
| `Bookstore.Store.TakeStockForItems` | bookstore_api/service/sales.py:33-35 | calling `update_stock` for each line item in order leaves the catalog equal to `StockAfter` of the catalog before the loop |
| `Sales.StockAfterAppend` | bookstore_api/service/sales.py:34-35 | one more `update_stock` call extends the sequence of catalog updates by one item |
| `Sales.StockAfterDeltas` | bookstore_api/service/sales.py:33-35 | after the update pass each book's stock is lower by exactly the sum of the quantities of the items naming it; no book is added or removed and no title or price changes |
| `Sales.QuantityForDistinct` | bookstore_api/service/sales.py:34-35 | when no book is named twice, the quantity taken from a named book is that of its single line item |
| `Sales.QuantityForUnnamed` | bookstore_api/service/sales.py:34-35 | a book named by no line item loses no stock |
| `Sales.StockStaysNonNegative` | bookstore_api/service/sales.py:18-35 | if every item passed validation and the book ids are pairwise distinct, a catalog with no negative stock has none after the order |
| `Sales.RepeatedBookCanDriveStockNegative` | bookstore_api/service/sales.py:18-35 | a book with stock 1 named twice with quantity 1 passes validation and ends with stock -1 |
| `Bookstore.Store.CreateOrder` | bookstore_api/service/sales.py:13-38 | exactly one of order and error is None. On the first unavailable item the error names that book and the catalog and orders are unchanged. Otherwise the order is stored under `order_<n+1>`: it has the customer id, the line items verbatim, the total over the catalog read before any stock is taken, Confirmed and Paid. The returned order equals the stored record, every other order is unchanged and the catalog is `StockAfter` the items. Deliveries are untouched and `Valid()` is preserved |
| `Bookstore.Store.CreateDelivery` | bookstore_api/service/delivery.py:12-25 | always returns a record under `del_<n+1>` with status Pending and the order id, address and estimated date copied from the request. The deliveries map sends that id to the record and every other entry is unchanged. The catalog and orders are untouched and `Valid()` is preserved |
| `Ids.NatToString` | bookstore_api/service/sales.py:15 | the decimal rendering of the count is a non-empty string of digits, one digit long exactly for counts below ten, with no leading zero except for 0 itself |
| `Ids.DigitsToNatToString` | bookstore_api/service/sales.py:15 | reading the decimal rendering back gives the count, so the rendering loses nothing |
| `Ids.KeyInjective` | bookstore_api/service/delivery.py:14 | two counts that give the same id under one prefix are equal |
| `Ids.FreshKey` | bookstore_api/service/sales.py:15 | when every key was issued by the count scheme, the id for size + 1 is not yet in the store |
| `Ids.IssuedAfterInsert` | bookstore_api/service/sales.py:24 | inserting under the id for size + 1 grows the store by one and keeps every key issued by the count scheme |
| `Sales.InsertKeepsWellKeyed` | bookstore_api/service/sales.py:24-31 | storing a record under `order_<n+1>` in orders whose records carry their own issued ids grows the map by one and keeps that property |
| `Deliveries.InsertKeepsWellKeyed` | bookstore_api/service/delivery.py:16-22 | storing a record under `del_<n+1>` in deliveries whose records carry their own issued ids grows the map by one and keeps that property |

## Left out

- HTTP routing, request parsing and the mapping of results to status codes in `app.py` are not part of this model. Neither is the bearer-token check, which compares against a `config` module that is not part of this model.
- File I/O and JSON encoding in every `load_*`/`save_*`. These are field reads and assignments here. A missing or unreadable file is not modelled.
- Concurrency. The store is sequential, so lost-update races between requests are not represented.
- Float prices and float quantities. Prices, quantities and totals are integers (for instance cents), so float stocks and the rounding of float totals are not modelled.
- Book records have only a title, a price and a stock, and line items only a book id and a quantity. Any other JSON fields are not modelled: extra keys of a book record, and extra keys of a line item, which `create_order` would keep in the stored order because it stores the request's list verbatim. An empty record, which Python's `not book` would treat as absent, cannot occur.
- Malformed requests are not modelled. A missing key or a non-numeric quantity raises an exception in Python; here every request is well-formed.
- The payment method is carried in the request and, as in the code, not used.
- Listing all books and looking up an order or a delivery are not modelled: no file of the source defines them.
