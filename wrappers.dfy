/** Option, Result and the error taxonomy shared by every component. Each
    `Error` constructor stands for one exception the Python code raises. */
module Wrappers {

  datatype Option<+T> = None | Some(value: T)

  /** The exceptions raised by the modelled code. */
  datatype Error =
    | MissingField(field: string)          // ValueError("Missing required field: ...")
    | NotAString(field: string)            // AttributeError / TypeError: a list where a str is used
    | StorageNotFound(notebook: string)    // FileNotFoundError: no vector store directory
    | MetadataMismatch                     // the vector database refuses metadatas of another length
    | FileNotFound(path: string)           // FileNotFoundError from a reader
    | UnsupportedExtension(ext: string)    // ValueError("Unsupported file extension: ...")
    | ReadError                            // IOError raised by a reader
    | DecodeError                          // UnicodeDecodeError from reading a .txt as UTF-8
    | ChunkingError                        // ValueError raised by the text splitter
    | InvalidProvider                      // Exception("Invalid LLM provider")
    | GenerationFailed                     // any failure of the LLM call itself
    | InvalidNotebookName                  // ValueError: name shorter than 3 characters
    | NotebookExists(name: string)         // ValueError: name already used
    | NotebookNotFound(name: string)       // ValueError: notebook does not exist

  /** A value or the exception that was raised instead. */
  datatype Result<+T> = Ok(value: T) | Err(error: Error) {
    predicate IsFailure() { Err? }

    function PropagateFailure<U>(): Result<U>
      requires Err?
    {
      Err(error)
    }

    function Extract(): T
      requires Ok?
    {
      value
    }
  }

  /** The outcome of an operation that returns True or raises. */
  datatype Outcome = Pass | Fail(error: Error)
}
