/** The optional value used wherever the page reads something that may be
    missing: a form field, a prompt the user cancelled, a stored item. */
module Wrappers {
  datatype Option<T> = None | Some(value: T)

  /** A text the page tests for truth (`if (x)`, `x || y`): present and not
      empty. */
  predicate Truthy(answer: Option<string>)
  {
    answer.Some? && answer.value != []
  }
}
