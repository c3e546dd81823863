/** Projection of an author onto its response record. */
module AuthorsMapperExtensions {
  import opened Wrappers
  import opened Exceptions
  import opened Responses
  import AuthorModel

  /** `author.ToResponse()`: a null author is an argument error; otherwise the response
      carries the author's identity value and name. */
  function ToResponse(author: AuthorModel.Author?): (r: Result<AuthorResponse, ArgumentNullException>)
    reads author
    ensures r.Failure? <==> author == null
    ensures r.Success? ==> r.value.Id == author.Id.Value && r.value.Name == author.Name
  {
    if author == null then Failure(ArgumentNullException)
    else Success(AuthorResponse(author.Id.Value, author.Name))
  }

  /** The projection loses nothing an author shows: two authors map to the same response
      exactly when they have the same identity and the same name. */
  lemma ToResponseDeterminesAuthor(a: AuthorModel.Author, b: AuthorModel.Author)
    ensures ToResponse(a) == ToResponse(b) <==> a.Id == b.Id && a.Name == b.Name
  {
  }
}
