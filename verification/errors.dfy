/** The outcomes an operation of the dump bag can end in.

    The application's own exceptions form one family under DumpBagError with
    five leaf kinds; the other constructors of `Error` stand for the Python
    built-in exceptions the modelled code lets escape. */
module Errors {

  /** The five leaf kinds under DumpBagError. */
  datatype DumpBagError =
    | DumpConfigurationError(message: string)
    | DumpingError(message: string)
    | DumpNotExistError(message: string)
    | DumpEncryptionError(message: string)
    | DumpStorageError(message: string)

  datatype Error =
    | TypeError(message: string)        // a factory given options without a commander
    | ValueError(message: string)       // a dump name whose date is not a calendar date
    | ValidationError(message: string)  // the URL converter or the search form refused
    | OSError(errno: int)               // a filesystem call failed
    | SameFileError(path: string)       // shutil.copy2 asked to copy a file onto itself
    | BagError(kind: DumpBagError)      // one of the application's own exceptions

  /** The TypeError message of the three commander factories. */
  const NO_COMMANDER := "No commander class set for these options"

  /** errno values the model distinguishes. */
  const ENOENT: int := 2
  const EEXIST: int := 17
  const ENOTDIR: int := 20
  const EISDIR: int := 21

  /** Either a value or the exception raised instead. */
  datatype Result<+T> = Ok(value: T) | Err(error: Error) {

    predicate IsFailure() {
      Err?
    }

    function PropagateFailure<U>(): Result<U>
      requires Err?
    {
      Err(error)
    }

    function Extract(): T
      requires Ok?
    {
      value
    }
  }

  /** Shorthands for raising one of the application's exceptions. */
  function Dumping<T>(message: string): Result<T> {
    Err(BagError(DumpingError(message)))
  }

  function Storage<T>(message: string): Result<T> {
    Err(BagError(DumpStorageError(message)))
  }

  function Encryption<T>(message: string): Result<T> {
    Err(BagError(DumpEncryptionError(message)))
  }

  function NotExist<T>(message: string): Result<T> {
    Err(BagError(DumpNotExistError(message)))
  }
}
