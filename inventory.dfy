/** The catalog operations of service/inventory.py, as functions on the
    catalog map (book id to record). */
module Inventory {
  import opened Records

  /** The catalog after `update_stock(bookId, quantity)`: the named book's stock
      drops by `quantity`, with no lower bound; an absent id changes nothing. */
  function TakeStock(books: map<string, Book>, bookId: string, quantity: int): (r: map<string, Book>)
    ensures r.Keys == books.Keys
    ensures forall k :: k in books && k != bookId ==> r[k] == books[k]
    ensures bookId in books ==>
      && r[bookId].stock == books[bookId].stock - quantity
      && r[bookId].title == books[bookId].title
      && r[bookId].price == books[bookId].price
  {
    if bookId in books then
      var book := books[bookId];
      books[bookId := book.(stock := book.stock - quantity)]
    else
      books
  }

  /** `update_stock` performs no bound check: a quantity above the stock
      leaves a negative stock behind. */
  lemma TakeStockCanGoNegative(books: map<string, Book>, bookId: string, quantity: int)
    requires bookId in books && books[bookId].stock < quantity
    ensures TakeStock(books, bookId, quantity)[bookId].stock < 0
  {
  }
}
