/** The failures the generator can raise, and the failure-compatible result
    type that carries them through `:-`. Each kind names the Python exception
    it stands for. */
module Errors {

  datatype Error =
    | MissingKey(name: string)         // KeyError: a placeholder names no context entry
    | MissingAttribute(attr: string)   // AttributeError: a dotted field names no attribute
    | Malformed                        // ValueError: a stray brace or an empty attribute
    | Positional                       // IndexError: `{}` or `{0}` when only keywords are given
    | UnsupportedField(field: string)  // a format spec, conversion or index (outside the model)
    | NotRenderable(field: string)     // a whole object substituted into text (outside the model)
    | NoPathSegments                   // TypeError: os.path.join() with no argument
    | NoSuchDirectory                  // FileNotFoundError: os.makedirs(''), or a file opened in a missing folder
    | FileExists                       // FileExistsError
    | NotADirectory                    // NotADirectoryError: a path passes through a regular file
    | Unencodable                      // UnicodeEncodeError

  /** The failures the pack writers catch and turn into a status code; any
      other failure propagates to the caller. */
  predicate Caught(e: Error) {
    e == FileExists || e == Unencodable
  }

  datatype Result<+T> = Ok(value: T) | Err(error: Error) {

    predicate IsFailure() {
      Err?
    }

    function PropagateFailure<U>(): Result<U>
      requires Err?
    {
      Err(error)
    }

    function Extract(): T
      requires Ok?
    {
      value
    }
  }

  datatype Option<+T> = None | Some(value: T)
}
