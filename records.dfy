/** The records kept in the three JSON documents (books.json, orders.json,
    deliveries.json) and the request bodies the services receive. Prices and
    amounts are integers (for instance cents). */
module Records {

  datatype Option<+T> = None | Some(value: T)

  /** A catalog entry; its book id is the key it is stored under. */
  datatype Book = Book(title: string, price: int, stock: int)

  /** One line item of an order request: `{book_id, quantity}`. */
  datatype LineItem = LineItem(bookId: string, quantity: int)

  /** The body of an order request. The payment method is carried but unused. */
  datatype OrderRequest = OrderRequest(customerId: string, books: seq<LineItem>, paymentMethod: string)

  /** A stored order record. */
  datatype Order = Order(
    orderId: string,
    customerId: string,
    books: seq<LineItem>,
    totalAmount: int,
    status: string,
    paymentStatus: string)

  /** The body of a delivery request. */
  datatype DeliveryRequest = DeliveryRequest(orderId: string, address: string, estimatedDeliveryDate: string)

  /** A stored delivery record. */
  datatype Delivery = Delivery(
    deliveryId: string,
    orderId: string,
    address: string,
    status: string,
    estimatedDeliveryDate: string)
}
