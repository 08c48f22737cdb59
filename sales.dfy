/** The order-placement rules of service/sales.py, as functions of the
    catalog read before any stock is taken and of the request's line items. */
module Sales {
  import opened Records
  import Ids
  import Inventory

  const OrderPrefix := "order_"
  const Confirmed := "Confirmed"
  const Paid := "Paid"

  /** The id of the `n`-th order: `order_<n>`. */
  function OrderKey(n: nat): string
  {
    Ids.Key(OrderPrefix, n)
  }

  /** The error message for an unavailable line item. */
  function Rejection(bookId: string): string
  {
    "Book " + bookId + " not available or insufficient stock"
  }

  /** A line item passes validation when its book is in the catalog and the
      stock is not below the quantity asked for. */
  predicate Available(books: map<string, Book>, item: LineItem)
  {
    item.bookId in books && !(books[item.bookId].stock < item.quantity)
  }

  /** The index of the first line item that fails validation, if any. */
  function FirstUnavailable(books: map<string, Book>, items: seq<LineItem>): (r: Option<nat>)
    ensures r.Some? ==>
      && r.value < |items|
      && !Available(books, items[r.value])
      && forall j :: 0 <= j < r.value ==> Available(books, items[j])
    ensures r.None? <==> forall j :: 0 <= j < |items| ==> Available(books, items[j])
  {
    if |items| == 0 then None
    else if !Available(books, items[0]) then Some(0)
    else
      match FirstUnavailable(books, items[1..])
      case None => None
      case Some(i) => Some(i + 1)
  }

  /** Every line item names a book of the catalog. */
  ghost predicate AllListed(books: map<string, Book>, items: seq<LineItem>)
  {
    forall j :: 0 <= j < |items| ==> items[j].bookId in books
  }

  /** The order total: the sum of price times quantity over the line items. */
  function OrderTotal(books: map<string, Book>, items: seq<LineItem>): int
    requires AllListed(books, items)
  {
    if |items| == 0 then 0
    else books[items[0].bookId].price * items[0].quantity + OrderTotal(books, items[1..])
  }

  /** Summing item by item from the front yields the order total. */
  lemma {:induction false} OrderTotalAppend(books: map<string, Book>, items: seq<LineItem>, item: LineItem)
    requires AllListed(books, items) && item.bookId in books
    ensures AllListed(books, items + [item])
    ensures OrderTotal(books, items + [item]) ==
            OrderTotal(books, items) + books[item.bookId].price * item.quantity
  {
    if |items| > 0 {
      assert (items + [item])[1..] == items[1..] + [item];
      OrderTotalAppend(books, items[1..], item);
    }
  }

  /** With non-negative prices and quantities the total is non-negative. */
  lemma {:induction false} OrderTotalNonNegative(books: map<string, Book>, items: seq<LineItem>)
    requires AllListed(books, items)
    requires forall k :: k in books ==> books[k].price >= 0
    requires forall j :: 0 <= j < |items| ==> items[j].quantity >= 0
    ensures OrderTotal(books, items) >= 0
  {
    if |items| > 0 {
      OrderTotalNonNegative(books, items[1..]);
      assert books[items[0].bookId].price * items[0].quantity >= 0;
    }
  }

  /** The total quantity that the line items ask of one book. */
  function QuantityFor(items: seq<LineItem>, bookId: string): int
  {
    if |items| == 0 then 0
    else (if items[0].bookId == bookId then items[0].quantity else 0) + QuantityFor(items[1..], bookId)
  }

  /** The catalog after `update_stock` has been called for each line item in turn. */
  function StockAfter(books: map<string, Book>, items: seq<LineItem>): map<string, Book>
  {
    if |items| == 0 then books
    else StockAfter(Inventory.TakeStock(books, items[0].bookId, items[0].quantity), items[1..])
  }

  /** Taking stock for one more line item extends the sequence of updates. */
  lemma {:induction false} StockAfterAppend(books: map<string, Book>, items: seq<LineItem>, item: LineItem)
    ensures StockAfter(books, items + [item]) ==
            Inventory.TakeStock(StockAfter(books, items), item.bookId, item.quantity)
  {
    if |items| > 0 {
      assert (items + [item])[1..] == items[1..] + [item];
      StockAfterAppend(Inventory.TakeStock(books, items[0].bookId, items[0].quantity), items[1..], item);
    }
  }

  /** Each book's stock falls by exactly the quantities asked of it; no book is
      added or removed, and no title or price changes. */
  lemma {:induction false} StockAfterDeltas(books: map<string, Book>, items: seq<LineItem>)
    ensures StockAfter(books, items).Keys == books.Keys
    ensures forall k :: k in books ==>
      && StockAfter(books, items)[k].stock == books[k].stock - QuantityFor(items, k)
      && StockAfter(books, items)[k].title == books[k].title
      && StockAfter(books, items)[k].price == books[k].price
  {
    if |items| > 0 {
      var next := Inventory.TakeStock(books, items[0].bookId, items[0].quantity);
      StockAfterDeltas(next, items[1..]);
    }
  }

  /** No two line items name the same book. */
  ghost predicate DistinctBooks(items: seq<LineItem>)
  {
    forall i, j :: 0 <= i < j < |items| ==> items[i].bookId != items[j].bookId
  }

  /** With distinct book ids, the quantity asked of a named book is that of
      its single line item. */
  lemma {:induction false} QuantityForDistinct(items: seq<LineItem>, j: nat)
    requires DistinctBooks(items) && j < |items|
    ensures QuantityFor(items, items[j].bookId) == items[j].quantity
  {
    if j == 0 {
      QuantityForUnnamed(items[1..], items[0].bookId);
    } else {
      QuantityForDistinct(items[1..], j - 1);
    }
  }

  /** A book named by no line item is asked for nothing. */
  lemma {:induction false} QuantityForUnnamed(items: seq<LineItem>, bookId: string)
    requires forall j :: 0 <= j < |items| ==> items[j].bookId != bookId
    ensures QuantityFor(items, bookId) == 0
  {
    if |items| > 0 {
      QuantityForUnnamed(items[1..], bookId);
    }
  }

  /** When every line item passed validation and no book is named twice,
      a catalog without negative stock keeps none after the order. */
  lemma {:induction false} StockStaysNonNegative(books: map<string, Book>, items: seq<LineItem>)
    requires FirstUnavailable(books, items).None?
    requires DistinctBooks(items)
    requires forall k :: k in books ==> books[k].stock >= 0
    ensures forall k :: k in StockAfter(books, items) ==> StockAfter(books, items)[k].stock >= 0
  {
    StockAfterDeltas(books, items);
    forall k | k in books
      ensures books[k].stock - QuantityFor(items, k) >= 0
    {
      if j :| 0 <= j < |items| && items[j].bookId == k {
        QuantityForDistinct(items, j);
        assert Available(books, items[j]);
      } else {
        QuantityForUnnamed(items, k);
      }
    }
  }

  /** The check is made per line item against the stock before the order, so
      one book named twice passes validation and its stock goes negative. */
  lemma RepeatedBookCanDriveStockNegative()
    ensures var books := map["b1" := Book("Title", 500, 1)];
            var items := [LineItem("b1", 1), LineItem("b1", 1)];
            && FirstUnavailable(books, items).None?
            && "b1" in StockAfter(books, items)
            && StockAfter(books, items)["b1"].stock == -1
  {
    var books := map["b1" := Book("Title", 500, 1)];
    var items := [LineItem("b1", 1), LineItem("b1", 1)];
    StockAfterDeltas(books, items);
    assert QuantityFor(items, "b1") == 2;
  }

  /** Every order is stored under its own id, and every id was issued by the
      count scheme. */
  ghost predicate WellKeyed(orders: map<string, Order>)
  {
    && Ids.Issued(orders, OrderPrefix)
    && forall k :: k in orders ==> orders[k].orderId == k
  }

  /** Storing a record under the next order id keeps the orders well keyed
      and grows them by one: `Ids.IssuedAfterInsert` for the prefix `order_`,
      as `Deliveries.InsertKeepsWellKeyed` is for `del_`. */
  lemma InsertKeepsWellKeyed(orders: map<string, Order>, record: Order)
    requires WellKeyed(orders)
    requires record.orderId == OrderKey(|orders| + 1)
    ensures |orders[record.orderId := record]| == |orders| + 1
    ensures WellKeyed(orders[record.orderId := record])
  {
    Ids.IssuedAfterInsert(orders, OrderPrefix, record);
  }

  /** The record `create_order` stores for a validated request. */
  function NewOrder(orderId: string, request: OrderRequest, total: int): Order
  {
    Order(orderId, request.customerId, request.books, total, Confirmed, Paid)
  }
}
