/** The read-only response records handed to callers outside the domain. */
module Responses {

  datatype AuthorResponse = AuthorResponse(Id: int, Name: string)

  datatype BookOnlyResponse = BookOnlyResponse(Id: int, Title: string, Price: real, IsAvailable: bool)

  datatype BookWithAuthorResponse = BookWithAuthorResponse(
    Id: int, Title: string, Price: real, IsAvailable: bool, Author: AuthorResponse)
}
