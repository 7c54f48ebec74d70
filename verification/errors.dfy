/** Why fetching a module's exports failed; each failure ends the whole completion request. */
module Errors {
  datatype Error =
    | FileNotFound(path: string)
    | SyntaxError(path: string)
    | UnexpectedShape
}
