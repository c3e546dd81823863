/** The two error kinds of the core. */
module Exceptions {

  /** A violated business rule; the message is the rule's stable code, which callers compare. */
  datatype BusinessRuleValidationException = BusinessRuleValidationException(Message: string)

  /** A mapping function was handed a null entity. */
  datatype ArgumentNullException = ArgumentNullException
}
