/**
 * The Python exceptions the core raises or lets through, as values. Only the
 * distinctions the code acts on are kept: the class, for the built-in and
 * library exceptions, and the message of the plain `Exception`s the login flow
 * raises itself.
 */
module Exceptions {

  datatype ExcClass =
    | ConnectionError   // the built-in ConnectionError or one of its subclasses
    | IndexError
    | ValueError
    | TypeError
    | AttributeError
    | OverflowError
    | OtherError        // any other class: library, XML or database errors

  datatype Exc =
    | Builtin(cls: ExcClass)   // raised by Python or a library
    | Plain(msg: string)       // `raise Exception(msg)`

  /** What `except ConnectionError:` catches. */
  predicate IsConnectionError(e: Exc)
  {
    e == Builtin(ConnectionError)
  }
}
