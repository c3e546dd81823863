/** The identity value objects of the domain: immutable wrappers around an integer,
    compared by value. */
module ValueObjects {

  /** Identity of a book. `Empty` (zero) marks a book that has not been persisted yet. */
  datatype BookId = BookId(Value: int) {
    static const Empty: BookId := BookId(0)
  }

  /** Identity of an author. `Empty` (zero) marks an author that has not been persisted yet. */
  datatype AuthorId = AuthorId(Value: int) {
    static const Empty: AuthorId := AuthorId(0)
  }
}
