/**
 * The exceptions the core raises, told apart by the Python class that carries them,
 * because the interpreter's top-level loop catches only one of them.
 */
module Errors {
  import opened LoxAst

  datatype Raised =
      /** `errors.LoxRuntimeError` (environment.py, loxclass.py). */
    | LoxRuntimeError(token: Token, message: string)
      /** The `RuntimeError` class declared inside interpreter.py. */
    | InterpreterRuntimeError(token: Token, message: string)
      /** Python's built-in `RuntimeError`, raised by `Environment.get`. */
    | BuiltinRuntimeError(token: Token, message: string)
      /** Any other Python exception (an `IndexError`). */
    | HostError(message: string)

  /** Python's `IndexError` for a list subscript past the end. */
  const IndexError: Raised := HostError("list index out of range")

  /** One message handed to the error reporter: where, and what. */
  datatype Report = Report(position: SourcePosition, message: string)

  /** A value, or the exception raised instead of it. */
  datatype Result<+T> = Ok(value: T) | Err(error: Raised)
}
