/** The Book entity: an always-valid entity whose constructors and mutators check the
    business rules before they store anything. */
module BookModel {
  import opened Wrappers
  import opened ValueObjects
  import opened Exceptions
  import opened BookRules
  import AuthorModel

  /** The five observable fields of a book, as a value. */
  datatype BookState = BookState(
    Id: BookId, Title: string, Price: real, IsAvailable: bool, Author: AuthorModel.Author)
  {
    /** The entity invariant: the title and price rules hold (the author rule is the type). */
    predicate Valid() {
      IsValidTitle(Some(Title)) && 0.0 <= Price
    }
  }

  /** The partial constructor, on values: a new book with no identity yet, available. */
  function PartialArgsState(title: Option<string>, price: real, author: AuthorModel.Author?)
    : (r: Result<BookState, BusinessRuleValidationException>)
    ensures r.Success? <==> ValidateBook(title, price, author).Pass?
    ensures r.Failure? ==> r.error == ValidateBook(title, price, author).error
    ensures r.Success? ==> r.value.Valid()
    ensures r.Success? ==> r.value.Id == BookId.Empty && r.value.IsAvailable
    ensures r.Success? ==> Some(r.value.Title) == title && r.value.Price == price && r.value.Author == author
  {
    var v := ValidateBook(title, price, author);
    if v.Fail? then Failure(v.error) else Success(BookState(BookId.Empty, title.value, price, true, author))
  }

  /** The full constructor, on values: a book loaded with its identity and availability. */
  function FullArgsState(id: BookId, title: Option<string>, price: real, isAvailable: bool,
                         author: AuthorModel.Author?)
    : (r: Result<BookState, BusinessRuleValidationException>)
    ensures r.Success? <==> ValidateBook(title, price, author).Pass?
    ensures r.Failure? ==> r.error == ValidateBook(title, price, author).error
    ensures r.Success? ==> r.value.Valid()
    ensures r.Success? ==> r.value.Id == id && r.value.IsAvailable == isAvailable
    ensures r.Success? ==> Some(r.value.Title) == title && r.value.Price == price && r.value.Author == author
  {
    var v := ValidateBook(title, price, author);
    if v.Fail? then Failure(v.error) else Success(BookState(id, title.value, price, isAvailable, author))
  }

  /** The partial constructor is the full one with an empty identity and availability set. */
  lemma PartialIsFullWithDefaults(title: Option<string>, price: real, author: AuthorModel.Author?)
    ensures PartialArgsState(title, price, author) == FullArgsState(BookId.Empty, title, price, true, author)
  {
  }

  /** A call of one of the book's mutators, with its argument. */
  datatype Mutation =
    | ChangeTitle(newTitle: Option<string>)
    | ChangePrice(newPrice: real)
    | ChangeAuthor(newAuthor: AuthorModel.Author?)
    | MarkAsAvailable
    | MarkAsUnavailable

  /** The rule a mutation's argument must satisfy; the availability marks have none. */
  function Rule(m: Mutation): Outcome<BusinessRuleValidationException> {
    match m
    case ChangeTitle(t) => ValidateTitle(t)
    case ChangePrice(p) => ValidatePrice(p)
    case ChangeAuthor(a) => ValidateAuthor(a)
    case MarkAsAvailable => Pass
    case MarkAsUnavailable => Pass
  }

  /** The state after one mutator call: the rule is checked first, and the field is assigned
      only when it passes. */
  function Next(s: BookState, m: Mutation): (r: BookState)
    ensures s.Valid() ==> r.Valid()
    ensures r.Id == s.Id
    ensures Rule(m).Fail? ==> r == s
    ensures m.MarkAsAvailable? ==> r.IsAvailable
    ensures m.MarkAsUnavailable? ==> !r.IsAvailable
  {
    match m
    case ChangeTitle(t) => if ValidateTitle(t).Pass? then s.(Title := t.value) else s
    case ChangePrice(p) => if ValidatePrice(p).Pass? then s.(Price := p) else s
    case ChangeAuthor(a) => if ValidateAuthor(a).Pass? then s.(Author := a) else s
    case MarkAsAvailable => s.(IsAvailable := true)
    case MarkAsUnavailable => s.(IsAvailable := false)
  }

  /** What each mutator does when it succeeds: it stores its argument in its own field and
      leaves the other four alone. */
  lemma MutatorEffects(s: BookState, m: Mutation)
    requires Rule(m).Pass?
    ensures m.ChangeTitle? ==> Next(s, m) == s.(Title := m.newTitle.value)
    ensures m.ChangePrice? ==> Next(s, m) == s.(Price := m.newPrice)
    ensures m.ChangeAuthor? ==> Next(s, m) == s.(Author := m.newAuthor)
    ensures m.MarkAsAvailable? ==> Next(s, m) == s.(IsAvailable := true)
    ensures m.MarkAsUnavailable? ==> Next(s, m) == s.(IsAvailable := false)
  {
  }

  /** The state after a caller issues the mutations in order, catching every rule violation
      and carrying on with the next call. */
  function Replay(s: BookState, ms: seq<Mutation>): BookState
    decreases |ms|
  {
    if |ms| == 0 then s else Replay(Next(s, ms[0]), ms[1..])
  }

  /** The always-valid entity: whatever sequence of mutator calls a valid book goes through,
      it stays valid and keeps its identity. */
  lemma {:induction false} ReplayKeepsValid(s: BookState, ms: seq<Mutation>)
    requires s.Valid()
    ensures Replay(s, ms).Valid()
    ensures Replay(s, ms).Id == s.Id
    decreases |ms|
  {
    if |ms| > 0 {
      ReplayKeepsValid(Next(s, ms[0]), ms[1..]);
    }
  }

  /** A book. `Create` and `Rehydrate` return valid books, and every method requires and
      ensures `Valid()`; the fields themselves are not protected from direct writes. */
  class Book {
    var Id: BookId
    var Title: string
    var Price: real
    var IsAvailable: bool
    var Author: AuthorModel.Author

    function State(): BookState
      reads this
    {
      BookState(Id, Title, Price, IsAvailable, Author)
    }

    predicate Valid()
      reads this
    {
      State().Valid()
    }

    /** Stores a state that has already passed the rules. */
    constructor FromState(s: BookState)
      requires s.Valid()
      ensures Valid() && State() == s
    {
      Id := s.Id;
      Title := s.Title;
      Price := s.Price;
      IsAvailable := s.IsAvailable;
      Author := s.Author;
    }

    /** `new Book(title, price, author)`: fails with the first broken rule's code, otherwise
        a fresh book with no identity yet, available. */
    static method Create(title: Option<string>, price: real, author: AuthorModel.Author?)
      returns (r: Result<Book, BusinessRuleValidationException>)
      ensures r.Success? <==> ValidateBook(title, price, author).Pass?
      ensures r.Failure? ==> r.error == ValidateBook(title, price, author).error
      ensures r.Success? ==> fresh(r.value) && r.value.Valid()
      ensures r.Success? ==> r.value.State() == PartialArgsState(title, price, author).value
    {
      var s := PartialArgsState(title, price, author);
      if s.Failure? {
        return Failure(s.error);
      }
      var book := new Book.FromState(s.value);
      return Success(book);
    }

    /** `new Book(id, title, price, isAvailable, author)`: fails with the first broken rule's
        code, otherwise a fresh book holding every argument as given. */
    static method Rehydrate(id: BookId, title: Option<string>, price: real, isAvailable: bool,
                            author: AuthorModel.Author?)
      returns (r: Result<Book, BusinessRuleValidationException>)
      ensures r.Success? <==> ValidateBook(title, price, author).Pass?
      ensures r.Failure? ==> r.error == ValidateBook(title, price, author).error
      ensures r.Success? ==> fresh(r.value) && r.value.Valid()
      ensures r.Success? ==> r.value.State() == FullArgsState(id, title, price, isAvailable, author).value
    {
      var s := FullArgsState(id, title, price, isAvailable, author);
      if s.Failure? {
        return Failure(s.error);
      }
      var book := new Book.FromState(s.value);
      return Success(book);
    }

    method ChangeTitle(newTitle: Option<string>) returns (r: Outcome<BusinessRuleValidationException>)
      requires Valid()
      modifies this`Title
      ensures Valid()
      ensures r == ValidateTitle(newTitle)
      ensures Title == if r.Pass? then newTitle.value else old(Title)
      ensures State() == Next(old(State()), Mutation.ChangeTitle(newTitle))
    {
      r := ValidateTitle(newTitle);
      if r.Pass? {
        Title := newTitle.value;
      }
    }

    method ChangePrice(newPrice: real) returns (r: Outcome<BusinessRuleValidationException>)
      requires Valid()
      modifies this`Price
      ensures Valid()
      ensures r == ValidatePrice(newPrice)
      ensures Price == if r.Pass? then newPrice else old(Price)
      ensures State() == Next(old(State()), Mutation.ChangePrice(newPrice))
    {
      r := ValidatePrice(newPrice);
      if r.Pass? {
        Price := newPrice;
      }
    }

    method ChangeAuthor(newAuthor: AuthorModel.Author?) returns (r: Outcome<BusinessRuleValidationException>)
      requires Valid()
      modifies this`Author
      ensures Valid()
      ensures r == ValidateAuthor(newAuthor)
      ensures Author == if r.Pass? then newAuthor else old(Author)
      ensures State() == Next(old(State()), Mutation.ChangeAuthor(newAuthor))
    {
      r := ValidateAuthor(newAuthor);
      if r.Pass? {
        Author := newAuthor;
      }
    }

    method MarkAsAvailable()
      requires Valid()
      modifies this`IsAvailable
      ensures Valid()
      ensures IsAvailable
      ensures State() == Next(old(State()), Mutation.MarkAsAvailable)
    {
      IsAvailable := true;
    }

    method MarkAsUnavailable()
      requires Valid()
      modifies this`IsAvailable
      ensures Valid()
      ensures !IsAvailable
      ensures State() == Next(old(State()), Mutation.MarkAsUnavailable)
    {
      IsAvailable := false;
    }
  }
}
