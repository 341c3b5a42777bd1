/** The failure-carrying types every other module uses. */
module Wrappers {
  datatype Option<+T> = None | Some(value: T)

  /** The errors the modelled calls return; the source's message texts are not modelled. */
  datatype Error =
    | BadPhone
    | BadChannel
    | BadNumberType
    | BadFilter
    | NotFoundOrNotOwner
    | SyncConflict
    | TooManyNumbers

  datatype Result<+T> = Success(value: T) | Failure(error: Error)
}
