/** The Author entity. */
module AuthorModel {
  import opened ValueObjects

  /** An author. Books hold a reference to an author; identity of the reference is what
      `book.Author == author` compares. */
  class Author {
    var Id: AuthorId
    var Name: string

    /** A new author has no identity yet; persistence assigns one later. */
    constructor (name: string)
      ensures Id == AuthorId.Empty && Name == name
    {
      Id := AuthorId.Empty;
      Name := name;
    }
  }
}
