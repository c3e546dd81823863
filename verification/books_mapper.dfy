/** Projections of a book onto its two response records. */
module BooksMapperExtensions {
  import opened Wrappers
  import opened Exceptions
  import opened Responses
  import AuthorsMapperExtensions
  import BookModel

  /** `book.ToBookOnlyBookResponse()`: a null book is an argument error; otherwise the
      response carries the book's identity value, title, price and availability. */
  function ToBookOnlyBookResponse(book: BookModel.Book?): (r: Result<BookOnlyResponse, ArgumentNullException>)
    reads book
    ensures r.Failure? <==> book == null
    ensures r.Success? ==> r.value.Id == book.Id.Value && r.value.Title == book.Title
    ensures r.Success? ==> r.value.Price == book.Price && r.value.IsAvailable == book.IsAvailable
  {
    if book == null then Failure(ArgumentNullException)
    else Success(BookOnlyResponse(book.Id.Value, book.Title, book.Price, book.IsAvailable))
  }

  /** `book.ToBookWithAuthorResponse()`: a null book is an argument error; otherwise the four
      book fields and, nested, the response of the book's author. */
  function ToBookWithAuthorResponse(book: BookModel.Book?)
    : (r: Result<BookWithAuthorResponse, ArgumentNullException>)
    reads book, if book == null then {} else {book.Author}
    ensures r.Failure? <==> book == null
    ensures r.Success? ==> r.value.Id == book.Id.Value && r.value.Title == book.Title
    ensures r.Success? ==> r.value.Price == book.Price && r.value.IsAvailable == book.IsAvailable
    ensures r.Success? ==> r.value.Author.Id == book.Author.Id.Value && r.value.Author.Name == book.Author.Name
  {
    if book == null then Failure(ArgumentNullException)
    else
      var author := AuthorsMapperExtensions.ToResponse(book.Author).value;
      Success(BookWithAuthorResponse(book.Id.Value, book.Title, book.Price, book.IsAvailable, author))
  }

  /** The two book projections agree on the four book fields, and the nested author is what
      the author mapper gives for the book's author. */
  lemma WithAuthorExtendsBookOnly(book: BookModel.Book)
    ensures var only := ToBookOnlyBookResponse(book).value;
            var full := ToBookWithAuthorResponse(book).value;
            only == BookOnlyResponse(full.Id, full.Title, full.Price, full.IsAvailable)
            && AuthorsMapperExtensions.ToResponse(book.Author) == Success(full.Author)
  {
  }

  /** The book-only projection forgets exactly the author: two books map to the same response
      when, and only when, their identities, titles, prices and availabilities agree. */
  lemma BookOnlyForgetsOnlyAuthor(a: BookModel.Book, b: BookModel.Book)
    ensures ToBookOnlyBookResponse(a) == ToBookOnlyBookResponse(b)
            <==> a.Id == b.Id && a.Title == b.Title && a.Price == b.Price && a.IsAvailable == b.IsAvailable
  {
  }
}
