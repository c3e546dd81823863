/** The three business rules of a book, each a check that passes or fails with its code. */
module BookRules {
  import opened Wrappers
  import opened Exceptions
  import AuthorModel

  const MaxTitleLength: nat := 200

  const TitleCode: string := "businessrule.book-title-has-invalid-length"
  const PriceCode: string := "businessrule.book-price-must-be-positive"
  const AuthorCode: string := "businessrule.book-must-have-an-author"

  /** The characters .NET's `char.IsWhiteSpace` accepts: the Unicode space, line and paragraph
      separators, the controls U+0009 to U+000D, and U+0085. */
  predicate IsWhiteSpace(c: char) {
    ('\t' <= c <= '\r') || c == ' ' || c == '\U{85}' || c == '\U{A0}' || c == '\U{1680}'
    || ('\U{2000}' <= c <= '\U{200A}') || c == '\U{2028}' || c == '\U{2029}'
    || c == '\U{202F}' || c == '\U{205F}' || c == '\U{3000}'
  }

  /** The character-by-character scan of `string.IsNullOrWhiteSpace` on a non-null string. */
  function AllWhiteSpace(s: string): (b: bool)
    ensures b <==> forall i :: 0 <= i < |s| ==> IsWhiteSpace(s[i])
  {
    |s| == 0 || (IsWhiteSpace(s[0]) && AllWhiteSpace(s[1..]))
  }

  /** `string.IsNullOrWhiteSpace`: null, empty, or made of white space only. */
  predicate IsNullOrWhiteSpace(s: Option<string>) {
    s.None? || AllWhiteSpace(s.value)
  }

  /** What a valid title is: present, at most 200 characters long, and holding at least one
      character that is not white space. */
  predicate IsValidTitle(title: Option<string>) {
    title.Some? && |title.value| <= MaxTitleLength
    && exists i :: 0 <= i < |title.value| && !IsWhiteSpace(title.value[i])
  }

  /** The title rule. */
  function ValidateTitle(title: Option<string>): (r: Outcome<BusinessRuleValidationException>)
    ensures r.Pass? <==> IsValidTitle(title)
    ensures r.Fail? ==> r.error.Message == TitleCode
  {
    if IsNullOrWhiteSpace(title) || |title.value| > MaxTitleLength then
      Fail(BusinessRuleValidationException(TitleCode))
    else
      Pass
  }

  /** The price rule: zero is accepted, a negative price is not. */
  function ValidatePrice(price: real): (r: Outcome<BusinessRuleValidationException>)
    ensures r.Pass? <==> 0.0 <= price
    ensures r.Fail? ==> r.error.Message == PriceCode
  {
    if price < 0.0 then Fail(BusinessRuleValidationException(PriceCode)) else Pass
  }

  /** The author rule: a book must reference an author. */
  function ValidateAuthor(author: AuthorModel.Author?): (r: Outcome<BusinessRuleValidationException>)
    ensures r.Pass? <==> author != null
    ensures r.Fail? ==> r.error.Message == AuthorCode
  {
    if author == null then Fail(BusinessRuleValidationException(AuthorCode)) else Pass
  }

  /** All three rules, as the constructors apply them: title first, then price, then author;
      the first rule that fails decides the code. */
  function ValidateBook(title: Option<string>, price: real, author: AuthorModel.Author?)
    : (r: Outcome<BusinessRuleValidationException>)
    ensures r.Pass? <==> IsValidTitle(title) && 0.0 <= price && author != null
    ensures !IsValidTitle(title) ==> r.Fail? && r.error.Message == TitleCode
    ensures IsValidTitle(title) && price < 0.0 ==> r.Fail? && r.error.Message == PriceCode
    ensures IsValidTitle(title) && 0.0 <= price && author == null ==> r.Fail? && r.error.Message == AuthorCode
  {
    var t := ValidateTitle(title);
    if t.Fail? then t
    else
      var p := ValidatePrice(price);
      if p.Fail? then p else ValidateAuthor(author)
  }

  /** The three codes differ, so a caller can tell which rule failed from the code alone. */
  lemma CodesIdentifyRules()
    ensures TitleCode != PriceCode && PriceCode != AuthorCode && TitleCode != AuthorCode
  {
  }

  /** The titles the tests reject: null, empty, a single space, and any 201-character title. */
  lemma RejectedTitles(long: string)
    requires |long| == MaxTitleLength + 1
    ensures ValidateTitle(None).Fail?
    ensures ValidateTitle(Some("")).Fail?
    ensures ValidateTitle(Some(" ")).Fail?
    ensures ValidateTitle(Some(long)).Fail?
  {
  }
}
