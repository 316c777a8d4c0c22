/** Value wrappers and the failure kinds the configurator's services raise. */
module Base {

  datatype Option<+T> = None | Some(value: T)

  /** The model fields that the validators check, in the order they are checked. */
  datatype Field = Owner | UserKeyUrl | UpstreamUrl | BackendId

  /** What made a service answer with an internal server error (HTTP 500). */
  datatype Cause =
    | SuffixSpaceFull        // the highest suffix in use for a key is already 999
    | TemplateFailed         // rendering the template produced no text
    | DuplicatesNotDeleted   // some backend bound to the same upstream could not be deleted
    | MultipleFiles          // more than one backend file carries the requested id
    | RemoveFailed           // the backend file could not be removed
    | DuplicateBackend       // a new id or location URL is already used by a file

  /** Every way an operation of the model can end without a normal result. */
  datatype Error =
    | NotFound                          // a NotFound exception (HTTP 404)
    | BadRequest(field: Field)          // a BadRequest exception naming the first invalid field
    | ValidationError(fields: seq<Field>) // a model validator rejected these fields
    | ServerError(cause: Cause)         // an InternalServerError exception (HTTP 500)
    | ValueError                        // int() applied to text that is not an integer
    | IndexError                        // item [1] of a split that has only one part
    | TypeError                         // iterating over None, or escaping None
    | AttributeError                    // reading a group of a match that failed
    | OSError                           // writing into a missing or read-only directory

  datatype Result<+T> = Ok(value: T) | Err(error: Error)
}
