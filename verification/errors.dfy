/** The errors the library rejects with, one constructor per distinct message. */
module Errors {

  /** Which registry a provider lookup consulted. */
  datatype EntityKind = LoaderKind | FormatterKind {
    function Name(): string {
      match this
      case LoaderKind => "loader"
      case FormatterKind => "formatter"
    }
  }

  datatype Error =
    | Pollution(key: string)                                     // a key segment that could reach the prototype chain
    | KeyMissing(key: string)                                    // Configurator.get on a path that resolves to undefined
    | NotAnObject                                                // defining a property on a primitive context
    | NoIdentifierFor(kind: EntityKind)                          // neither a suggestion nor an identifier to match providers with
    | NoProviderFor(kind: EntityKind, identifier: IdentifierText) // no provider claimed the candidates
    | NoConfigurationIdentifier                                  // Prefer.load without any identifier
    | FormatterUnavailable                                       // the loader declared that it needs no formatter
    | NoFilesFound(name: string)                                 // FileLoader.find found nothing
    | LoadNotImplemented                                         // the base Loader's load
    | ReadFailed(path: string)                                   // the file system refused to read a file
    | ParseFailed(reason: string)                                // a formatter rejected the text
    | MissingUpdate                                              // a loader emitted `updated` without a result

  /** An identifier as JavaScript renders it inside a template string: absent prints as `undefined`. */
  datatype IdentifierText = Missing | Named(text: string) {
    function Render(): string {
      match this
      case Missing => "undefined"
      case Named(t) => t
    }
  }

  /** The message text the source attaches to each error. */
  function Message(e: Error): string {
    match e
    case Pollution(k) => "Prototype pollution attempt detected: \"" + k + "\" is not allowed"
    case KeyMissing(k) => k + " does not exist in this configuration."
    case NotAnObject => "Object.defineProperty called on non-object"
    case NoIdentifierFor(kind) => "No identifier provided for " + kind.Name()
    case NoProviderFor(kind, id) => "No configuration " + kind.Name() + " found for " + id.Render()
    case NoConfigurationIdentifier => "No identifier provided for configuration."
    case FormatterUnavailable => "Formatter is required but not available"
    case NoFilesFound(name) => "No files found matching: " + name
    case LoadNotImplemented => "load() must be implemented by subclass"
    case ReadFailed(p) => "ENOENT: no such file or directory, open '" + p + "'"
    case ParseFailed(reason) => reason
    case MissingUpdate => "Cannot read properties of undefined (reading 'content')"
  }
}
