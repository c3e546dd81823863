/** Callers of the entity and the mappers, showing what their contracts let a caller conclude
    about a sequence of calls. */
module Scenarios {
  import opened Wrappers
  import opened Responses
  import opened ValueObjects
  import opened BookRules
  import AuthorModel
  import BookModel
  import BooksMapperExtensions

  /** A book built with the partial constructor and projected at once: identity value zero,
      available, title and price as given. */
  method CreateAndProject(title: string, price: real, author: AuthorModel.Author)
    returns (response: BookOnlyResponse)
    requires IsValidTitle(Some(title)) && 0.0 <= price
    ensures response == BookOnlyResponse(0, title, price, true)
  {
    var created := BookModel.Book.Create(Some(title), price, author);
    var book := created.value;
    response := BooksMapperExtensions.ToBookOnlyBookResponse(book).value;
  }

  /** A book loaded as unavailable and then marked available is available. */
  method LoadUnavailableThenMarkAvailable(id: BookId, title: string, price: real,
                                          author: AuthorModel.Author)
    returns (available: bool)
    requires IsValidTitle(Some(title)) && 0.0 <= price
    ensures available
  {
    var loaded := BookModel.Book.Rehydrate(id, Some(title), price, false, author);
    var book := loaded.value;
    book.MarkAsAvailable();
    available := book.IsAvailable;
  }

  /** A negative price given to an existing book fails with the price code, and the book keeps
      the price it had. */
  method RepriceNegative(book: BookModel.Book, newPrice: real) returns (code: string)
    requires book.Valid() && newPrice < 0.0
    modifies book
    ensures code == PriceCode
    ensures book.Price == old(book.Price) && book.Valid()
  {
    var r := book.ChangePrice(newPrice);
    code := r.error.Message;
  }
}
