/** The three JSON documents as the fields of one store object, and the
    service functions as its methods. Loading a document is a read of its
    field, saving it an assignment to the field. */
module Bookstore {
  import opened Records
  import Ids
  import Inventory
  import Sales
  import Deliveries

  class Store {
    var books: map<string, Book>
    var orders: map<string, Order>
    var deliveries: map<string, Delivery>

    /** Orders and deliveries carry their own key, and every key was issued
        by the count scheme, so the next count-derived id is always fresh. */
    ghost predicate Valid()
      reads this
    {
      Sales.WellKeyed(orders) && Deliveries.WellKeyed(deliveries)
    }

    /** A store over the given document contents. */
    constructor (books0: map<string, Book>, orders0: map<string, Order>, deliveries0: map<string, Delivery>)
      ensures books == books0 && orders == orders0 && deliveries == deliveries0
    {
      books, orders, deliveries := books0, orders0, deliveries0;
    }

    /** `get_book`: the record stored under `bookId`, or None. */
    method GetBook(bookId: string) returns (r: Option<Book>)
      ensures r.Some? <==> bookId in books
      ensures r.Some? ==> r.value == books[bookId]
    {
      var catalog := books;
      r := if bookId in catalog then Some(catalog[bookId]) else None;
    }

    /** `update_stock`: takes `quantity` from the stock of a listed book and
        returns its updated record; an absent id changes nothing. */
    method UpdateStock(bookId: string, quantity: int) returns (r: Option<Book>)
      modifies this`books
      ensures books == Inventory.TakeStock(old(books), bookId, quantity)
      ensures r.Some? <==> bookId in old(books)
      ensures r.Some? ==> bookId in books && r.value == books[bookId]
    {
      var catalog := books;
      if bookId in catalog {
        var book := catalog[bookId];
        catalog := catalog[bookId := book.(stock := book.stock - quantity)];
        books := catalog;
        return Some(catalog[bookId]);
      }
      return None;
    }

    /** `add_book`: stores `data` under `bookId`, inserting or overwriting. */
    method AddBook(bookId: string, data: Book) returns (r: Book)
      modifies this`books
      ensures r == data
      ensures books.Keys == old(books).Keys + {bookId}
      ensures books[bookId] == data
      ensures forall k :: k in old(books) && k != bookId ==> books[k] == old(books)[k]
    {
      var catalog := books;
      catalog := catalog[bookId := data];
      books := catalog;
      r := catalog[bookId];
    }

    /** `delete_book`: removes a listed book and reports whether there was one. */
    method DeleteBook(bookId: string) returns (deleted: bool)
      modifies this`books
      ensures deleted <==> bookId in old(books)
      ensures bookId !in books
      ensures books.Keys == old(books).Keys - {bookId}
      ensures forall k :: k in books ==> books[k] == old(books)[k]
    {
      var catalog := books;
      if bookId in catalog {
        catalog := catalog - {bookId};
        books := catalog;
        return true;
      }
      return false;
    }

    /** The validation pass of `create_order` (sales.py lines 16-22): reads each
        line item's book, stops at the first one that is absent or short of
        stock, and otherwise sums price times quantity. */
    method ValidateItems(items: seq<LineItem>) returns (first: Option<nat>, total: int)
      ensures first == Sales.FirstUnavailable(books, items)
      ensures first.None? ==> Sales.AllListed(books, items) && total == Sales.OrderTotal(books, items)
    {
      total := 0;
      var i := 0;
      while i < |items|
        invariant 0 <= i <= |items|
        invariant forall j :: 0 <= j < i ==> Sales.Available(books, items[j])
        invariant Sales.AllListed(books, items[..i])
        invariant total == Sales.OrderTotal(books, items[..i])
      {
        var item := items[i];
        var book := GetBook(item.bookId);
        if book.None? || book.value.stock < item.quantity {
          assert !Sales.Available(books, item);
          return Some(i), total;
        }
        Sales.OrderTotalAppend(books, items[..i], item);
        assert items[..i + 1] == items[..i] + [item];
        total := total + book.value.price * item.quantity;
        i := i + 1;
      }
      assert items[..i] == items;
      first := None;
    }

    /** The stock-update pass of `create_order`: `update_stock` for each line
        item in order. */
    method TakeStockForItems(items: seq<LineItem>)
      modifies this`books
      ensures books == Sales.StockAfter(old(books), items)
    {
      var i := 0;
      while i < |items|
        invariant 0 <= i <= |items|
        invariant books == Sales.StockAfter(old(books), items[..i])
      {
        var _ := UpdateStock(items[i].bookId, items[i].quantity);
        Sales.StockAfterAppend(old(books), items[..i], items[i]);
        assert items[..i + 1] == items[..i] + [items[i]];
        i := i + 1;
      }
      assert items[..i] == items;
    }

    /** `create_order`: validates every line item against the catalog, stops
        with an error at the first unavailable one, otherwise stores the order
        under `order_<|orders| + 1>` and takes stock for each line item. */
    method CreateOrder(request: OrderRequest) returns (order: Option<Order>, error: Option<string>)
      modifies this`books, this`orders
      ensures order.None? <==> error.Some?
      ensures deliveries == old(deliveries)
      // rejection: the first unavailable item is named, nothing changes
      ensures var first := Sales.FirstUnavailable(old(books), request.books);
        first.Some? ==>
          && error == Some(Sales.Rejection(request.books[first.value].bookId))
          && books == old(books)
          && orders == old(orders)
      // success: total from the catalog before the update, record stored, stock taken
      ensures var first := Sales.FirstUnavailable(old(books), request.books);
        first.None? ==>
          && Sales.AllListed(old(books), request.books)
          && var id := Sales.OrderKey(|old(orders)| + 1);
          && order == Some(Sales.NewOrder(id, request, Sales.OrderTotal(old(books), request.books)))
          && orders == old(orders)[id := order.value]
          && books == Sales.StockAfter(old(books), request.books)
      ensures order.Some? ==> order.value.orderId in orders && orders[order.value.orderId] == order.value
      ensures old(Valid()) ==> Valid()
      ensures old(Valid()) && order.Some? ==> |orders| == |old(orders)| + 1
    {
      var ordersNow := orders;
      var orderId := Sales.OrderKey(|ordersNow| + 1);

      var first, total := ValidateItems(request.books);
      if first.Some? {
        return None, Some(Sales.Rejection(request.books[first.value].bookId));
      }

      var record := Sales.NewOrder(orderId, request, total);
      ghost var wasValid := Valid();
      if wasValid {
        Sales.InsertKeepsWellKeyed(ordersNow, record);
      }
      ordersNow := ordersNow[orderId := record];

      TakeStockForItems(request.books);

      orders := ordersNow;
      return Some(ordersNow[orderId]), None;
    }

    /** `create_delivery`: stores a Pending delivery under
        `del_<|deliveries| + 1>`; it never fails and does not look the order up. */
    method CreateDelivery(request: DeliveryRequest) returns (d: Delivery)
      modifies this`deliveries
      ensures d.deliveryId == Deliveries.DeliveryKey(|old(deliveries)| + 1)
      ensures d.orderId == request.orderId
      ensures d.address == request.address
      ensures d.estimatedDeliveryDate == request.estimatedDeliveryDate
      ensures d.status == Deliveries.Pending
      ensures deliveries == old(deliveries)[d.deliveryId := d]
      ensures books == old(books) && orders == old(orders)
      ensures old(Valid()) ==> Valid() && |deliveries| == |old(deliveries)| + 1
    {
      var all := deliveries;
      var deliveryId := Deliveries.DeliveryKey(|all| + 1);
      var record := Deliveries.NewDelivery(deliveryId, request);
      ghost var wasValid := Valid();
      if wasValid {
        Deliveries.InsertKeepsWellKeyed(all, record);
      }
      all := all[deliveryId := record];
      deliveries := all;
      d := all[deliveryId];
    }
  }

  /** An example sequence of calls, with its outcomes proved, on a catalog
      holding one book with stock 2 (the book data the service's tests rely
      on is not part of this model). The
      request values are those of the tests: a quantity of 1000 is refused,
      a quantity of 2 is accepted, and the stored order and delivery are
      found again under the ids returned. */
  method Scenario()
  {
    var catalog := map["123" := Book("The Great Gatsby", 1000, 2)];
    var store := new Store(catalog, map[], map[]);

    var order, error := store.CreateOrder(OrderRequest("cust_003", [LineItem("123", 1000)], "credit_card"));
    assert order.None? && error == Some(Sales.Rejection("123"));
    assert store.books == catalog;

    order, error := store.CreateOrder(OrderRequest("cust_001", [LineItem("123", 2)], "credit_card"));
    assert order.Some? && error.None?;
    assert order.value.totalAmount == 2000 && order.value.orderId == Sales.OrderKey(1);
    assert store.orders[order.value.orderId].customerId == "cust_001";
    Sales.StockAfterDeltas(catalog, [LineItem("123", 2)]);
    assert store.books["123"].stock == 0;

    var d := store.CreateDelivery(DeliveryRequest("order_2", "456 Oak Ave, Town, State 67890", "2024-12-25"));
    assert d.status == "Pending" && d.deliveryId == Deliveries.DeliveryKey(1);
    assert store.deliveries[d.deliveryId].orderId == "order_2";
  }
}
