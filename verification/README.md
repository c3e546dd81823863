# BookStore domain core, modelled in Dafny

This project models the domain core of a small bookstore written in C#. The core has three parts:

- **`Book`**: an "always-valid" entity. It has an identity (`BookId`), a title, a price, an availability flag and a reference to an `Author`. Both of its constructors and three of its mutators (`ChangeTitle`, `ChangePrice`, `ChangeAuthor`) enforce three business rules. A broken rule fails with a fixed code:
  - the title is present, not blank, and at most 200 characters long: `businessrule.book-title-has-invalid-length`;
  - the price is not negative (zero is accepted, despite the code's wording): `businessrule.book-price-must-be-positive`;
  - the author is present: `businessrule.book-must-have-an-author`.
  The mutators `MarkAsAvailable` and `MarkAsUnavailable` cannot fail.
- **`BookId` / `AuthorId`**: identity value objects wrapping an integer. `Empty` is zero and means "not persisted yet".
- **Mappers**: pure projections onto response records:
  - `AuthorsMapperExtensions.ToResponse` gives `AuthorResponse`;
  - `BooksMapperExtensions.ToBookOnlyBookResponse` gives `BookOnlyResponse`;
  - `BooksMapperExtensions.ToBookWithAuthorResponse` gives `BookWithAuthorResponse`.
  Each fails with an argument-null error when it is given a null entity.

The repository's own test suites (NUnit, MSTest and xUnit editions) define this behaviour. The model follows them.

How C# constructs appear in the model:

- A nullable string argument is an `Option<string>`. A nullable author is an `Author?`.
- C# `decimal` is modelled as `real`. Only its sign and equality are observed.
- A thrown exception is a `Failure`/`Fail` value carrying the error.
- A C# constructor that can throw becomes a static factory: `Book.Create` (the partial constructor) and `Book.Rehydrate` (the full constructor). Each validates first. It builds the object only when every rule holds.
- The mutators are methods of the `Book` class. Each one may write only its own field (a frame such as ``modifies this`Title``), and only after its rule has passed.
- Each method is proved against a specification on values:
  - `BookState` holds the five fields;
  - `Next` gives the state after one mutator call;
  - `PartialArgsState` / `FullArgsState` give the state produced by each constructor.
- `ReplayKeepsValid` proves the always-valid property for any sequence of mutator calls. The caller may catch each rule violation and carry on.

Module layout. `ValueObjects`, `Exceptions`, `AuthorModel` and `BookModel` mirror the C# namespaces of the same names. `Responses` merges the book and author response namespaces. `AuthorsMapperExtensions` and `BooksMapperExtensions` mirror the two extension classes of the mappers namespace. `Wrappers`, `BookRules` and `Scenarios` are the model's own:

- `Wrappers`: `Option` / `Outcome` / `Result`.
- `ValueObjects`: `BookId`, `AuthorId`.
- `Exceptions`: the two error kinds.
- `AuthorModel`: `Author`.
- `BookRules`: the three rules and their codes.
- `BookModel`: `BookState`, `Mutation`, `Next`, the `Book` class.
- `Responses`: the three response records.
- `AuthorsMapperExtensions`, `BooksMapperExtensions`: the mappers.
- `Scenarios`: callers that chain operations the way the tests do.

## Model

| member | source | states |
|---|---|---|
| AuthorModel.Author.constructor | tests/BookStore.Tests.NUnit/DomainTests/ModelsTests/BookTests.cs:22-23 | a new author keeps the given name and has the empty identity |
| BookRules.AllWhiteSpace | tests/BookStore.Tests.NUnit/DomainTests/ModelsTests/BookTests.cs:41-44 | the recursive scan behind `IsNullOrWhiteSpace` holds exactly when every character is white space (so `""` and `" "` are blank) |
| BookRules.ValidateTitle | tests/BookStore.Tests.NUnit/DomainTests/ModelsTests/BookTests.cs:40-70 | a title passes exactly when it is non-null, at most 200 characters long, and has a non-white-space character; otherwise it fails with the title code |
| BookRules.ValidatePrice | tests/BookStore.Tests.NUnit/DomainTests/ModelsTests/BookTests.cs:72-86 | a price passes exactly when it is not negative (zero passes); otherwise it fails with the price code |
| BookRules.ValidateAuthor | tests/BookStore.Tests.NUnit/DomainTests/ModelsTests/BookTests.cs:88-99 | an author passes exactly when it is non-null; otherwise it fails with the author code |
| BookRules.ValidateBook | tests/BookStore.Tests.NUnit/DomainTests/ModelsTests/BookTests.cs:19-99 | construction arguments pass exactly when all three rules hold; a bad title gives the title code, else a negative price gives the price code, else a null author gives the author code |
| BookRules.CodesIdentifyRules | tests/BookStore.Tests.NUnit/DomainTests/ModelsTests/BookTests.cs:67-98 | the three codes differ, so the code alone tells which rule failed |
| BookRules.RejectedTitles | tests/BookStore.Tests.MSTest/DomainTests/ModelsTests/BookTests.cs:37-61 | null, `""`, `" "` and every 201-character title are rejected |
| BookModel.PartialArgsState | tests/BookStore.Tests.NUnit/DomainTests/ModelsTests/BookTests.cs:19-38 | the partial constructor fails exactly when a rule fails, with that rule's code; on success the state is valid, with `Id == BookId.Empty`, available, and title, price and author as given |
| BookModel.FullArgsState | tests/BookStore.Tests.NUnit/DomainTests/ModelsTests/BookTests.cs:101-119 | the full constructor fails exactly when a rule fails, with that rule's code; on success the state is valid and holds id, title, price, availability and author as given |
| BookModel.PartialIsFullWithDefaults | tests/BookStore.Tests.MSTest/DomainTests/ModelsTests/BookTests.cs:19-35 | the partial constructor equals the full one called with `BookId.Empty` and `isAvailable: true` |
| BookModel.Next | tests/BookStore.Tests.NUnit/DomainTests/ModelsTests/BookTests.cs:188-330 | every mutator call keeps a valid state valid and keeps the identity; a call whose rule fails changes nothing; `MarkAsAvailable` makes the book available and `MarkAsUnavailable` unavailable, whatever the prior value |
| BookModel.MutatorEffects | tests/BookStore.Tests.MSTest/DomainTests/ModelsTests/BookTests.cs:173-297 | a successful `ChangeTitle`, `ChangePrice` or `ChangeAuthor` stores its argument in its own field; each mutator leaves the other fields unchanged |
| BookModel.ReplayKeepsValid | tests/BookStore.Tests.NUnit/DomainTests/ModelsTests/BookTests.cs:188-330 | after any sequence of mutator calls, each of which may fail, a valid book is still valid and has the same identity |
| BookModel.Book.Create | tests/BookStore.Tests.NUnit/DomainTests/ModelsTests/BookTests.cs:19-99 | `new Book(title, price, author)` fails exactly when a rule fails, with that rule's code; otherwise it returns a fresh valid book whose state is the partial constructor's |
| BookModel.Book.Rehydrate | tests/BookStore.Tests.NUnit/DomainTests/ModelsTests/BookTests.cs:101-186 | `new Book(id, title, price, isAvailable, author)` fails exactly when a rule fails, with that rule's code; otherwise it returns a fresh valid book whose state is the full constructor's |
| BookModel.Book.ChangeTitle | tests/BookStore.Tests.NUnit/DomainTests/ModelsTests/BookTests.cs:188-224 | the result is the title rule's verdict; on success `Title` is the new title, on failure it is the old one; no other field changes; the book stays valid |
| BookModel.Book.ChangePrice | tests/BookStore.Tests.NUnit/DomainTests/ModelsTests/BookTests.cs:226-262 | the result is the price rule's verdict; on success `Price` is the new price, on failure it is the old one; no other field changes; the book stays valid |
| BookModel.Book.ChangeAuthor | tests/BookStore.Tests.NUnit/DomainTests/ModelsTests/BookTests.cs:295-330 | the result is the author rule's verdict; on success `Author` is the new author (same reference), on failure it is the old one; no other field changes; the book stays valid |
| BookModel.Book.MarkAsAvailable | tests/BookStore.Tests.NUnit/DomainTests/ModelsTests/BookTests.cs:279-293 | cannot fail; afterwards `IsAvailable` is true and nothing else changes |
| BookModel.Book.MarkAsUnavailable | tests/BookStore.Tests.NUnit/DomainTests/ModelsTests/BookTests.cs:264-277 | cannot fail; afterwards `IsAvailable` is false and nothing else changes |
| AuthorsMapperExtensions.ToResponse | tests/BookStore.Tests.xUnit/ApplicationTests/MappersTests/AuthorsMapperExtensionsTests.cs:13-34 | fails with the argument-null error exactly when the author is null; otherwise `Id == author.Id.Value` and `Name == author.Name` |
| AuthorsMapperExtensions.ToResponseDeterminesAuthor | tests/BookStore.Tests.NUnit/ApplicationTests/MappersTests/AuthorsMapperExtensionsTests.cs:18-33 | two authors give the same response exactly when their identities and names are equal |
| BooksMapperExtensions.ToBookOnlyBookResponse | tests/BookStore.Tests.xUnit/ApplicationTests/MappersTests/BooksMapperExtensionsTests.cs:14-40 | fails with the argument-null error exactly when the book is null; otherwise the response's `Id`, `Title`, `Price` and `IsAvailable` are the book's `Id.Value`, title, price and availability |
| BooksMapperExtensions.ToBookWithAuthorResponse | tests/BookStore.Tests.xUnit/ApplicationTests/MappersTests/BooksMapperExtensionsTests.cs:42-72 | fails with the argument-null error exactly when the book is null; otherwise it copies the same four fields, and the nested author has the book author's `Id.Value` and `Name` |
| BooksMapperExtensions.WithAuthorExtendsBookOnly | tests/BookStore.Tests.NUnit/ApplicationTests/MappersTests/BooksMapperExtensionsTests.cs:50-78 | the book-with-author response has the book-only response's four fields, and its nested author is the author mapper's result for the book's author |
| BooksMapperExtensions.BookOnlyForgetsOnlyAuthor | tests/BookStore.Tests.MSTest/ApplicationTests/MappersTests/BooksMapperExtensionsTests.cs:19-36 | two books give the same book-only response exactly when their identities, titles, prices and availabilities are equal |
| Scenarios.CreateAndProject | tests/BookStore.Tests.NUnit/ApplicationTests/MappersTests/BooksMapperExtensionsTests.cs:19-39 | a book created with valid arguments and then projected gives `{Id: 0, Title, Price, IsAvailable: true}` |
| Scenarios.LoadUnavailableThenMarkAvailable | tests/BookStore.Tests.MSTest/DomainTests/ModelsTests/BookTests.cs:264-278 | a book loaded with `isAvailable: false` and then marked available is available |
| Scenarios.RepriceNegative | tests/BookStore.Tests.MSTest/DomainTests/ModelsTests/BookTests.cs:229-247 | a negative price given to an existing book fails with the price code; the book keeps its old price and stays valid |

## Left out

- Production code: the C# files defining `Book`, `Author`, `BookId`, the exceptions and the mapper extensions are not part of this model. Their behaviour is taken from the repository's tests, which pin it down field by field.
- Exceptions: .NET exception types, messages other than the three codes, and `ArgumentNullException`'s parameter name are not modelled. A thrown exception becomes a `Failure`/`Fail` value.
- Decimal arithmetic: the range and precision of C# `decimal` (`decimal.MinValue`, `decimal.MaxValue`) are not modelled. Prices are `real`.
- Negative prices above -1: the tests reject prices from `decimal.MinValue` to -1 and accept prices from 0 upwards. The model rejects every negative price and claims nothing else about prices strictly between -1 and 0.
- Title length: the model's strings are sequences of Unicode scalar values, while a C# string is a sequence of UTF-16 code units that may hold unpaired surrogates. A surrogate pair counts as one character here and as two in C#. A title with an unpaired surrogate has no counterpart in the model. The 200-character limit is therefore stated over scalar values, not over code units. A 201-code-unit random title, as the tests build one, may be shorter than 201 characters here, so `RejectedTitles` covers it only when it holds no surrogates.
- White space: `IsWhiteSpace` lists the characters .NET's `char.IsWhiteSpace` accepts. The tests exercise only `" "`.
- Title rule in `ChangeTitle`: the tests for `ChangeTitle` exercise only null, `""` and `" "`. The model applies the same rule as the constructors, 200-character limit included.
- Validation order: title, then price, then author. No test breaks two rules at once, so this order is not pinned down.
- State after a failed mutator: nothing in the tests fixes it. The model validates before it assigns, so a failed call leaves the book unchanged. This is a modelling choice, not a promised property of the C# code.
- Author name validation: no test exercises it, so the name is stored as given.
- Identity width: `BookId` and `AuthorId` wrap a 32-bit C# `int`; the model uses unbounded `int`. Nothing computes on identities, so no behaviour is lost.
- Identity assignment: persistence assigns a `Book`'s or an `Author`'s identity. It is not modelled.
- Other layers: repositories, HTTP endpoints and serialisation of the response records are not modelled.
- Test machinery: Faker random data, the NUnit/MSTest/xUnit attributes and FluentAssertions are evidence only. None of them is modelled.
- `BookWithAuthorResponse.Author`: all three test editions assert that it is non-null for a valid book. Here it is a plain value, so it is always present.
