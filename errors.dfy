/** The exception taxonomy of the loader (include/RLL/RLL.hpp:375-395) as values.
    Every exception derives from one base (rll_exception); here that base is the
    datatype itself, and a throwing operation returns a Failure instead. */
module Errors {

  datatype Option<+T> = None | Some(value: T)

  /** The four exception kinds, each with its payload. */
  datatype LibraryError =
    | SymbolNotFound(symbolName: string)
    | LibraryAlreadyLoaded(libraryPath: string)
    | LibraryNotLoaded
    | LibraryLoadingError(loadingError: string)

  /** Outcome of an operation that returns nothing but may throw. */
  datatype Outcome = Pass | Fail(error: LibraryError)

  /** Outcome of an operation that returns a value but may throw. */
  datatype Result<+T> = Success(value: T) | Failure(error: LibraryError)

  const NotLoadedMessage: string := "A shared_library has not been loaded with content before use."
  const UnknownErrorMessage: string := "Unknown Error."

  /** The text each exception's what() gives. A loading error never gives an
      empty message: an empty payload is replaced by a fixed fallback. */
  function What(e: LibraryError): (r: string)
    ensures e.LibraryLoadingError? ==> r != ""
    ensures e.LibraryLoadingError? && e.loadingError != "" ==> r == e.loadingError
    ensures e.LibraryLoadingError? && e.loadingError == "" ==> r == UnknownErrorMessage
    ensures e.SymbolNotFound? ==> r == e.symbolName
    ensures e.LibraryAlreadyLoaded? ==> r == e.libraryPath
    ensures e.LibraryNotLoaded? ==> r == NotLoadedMessage
  {
    match e
    case SymbolNotFound(name) => name
    case LibraryAlreadyLoaded(path) => path
    case LibraryNotLoaded => NotLoadedMessage
    case LibraryLoadingError(text) => if text != "" then text else UnknownErrorMessage
  }
}
