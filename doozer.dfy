/** What the mirror sees of the doozerd client: its responses, its errors and the requests it is sent. */
module Doozer {

  datatype Option<+T> = None | Some(value: T)

  /** The change-kind flags doozerd puts on a watched change. */
  const SetFlag := 4
  const DelFlag := 8

  /** A doozerd response: what `walk`, `get`, `set`, `delete` and `wait` return. */
  datatype Response = Response(path: string, rev: int, flags: int, value: string)

  /** The exceptions the client raises. */
  datatype ClientError = RevMismatch | TooLate | BadPath | NoEntity | Timeout | OtherError(name: string)

  /** The result of one call into the client: a value, or the exception it raised. */
  datatype Reply<+T> = Ok(value: T) | Fail(error: ClientError)

  /** A call the mirror makes on the client, with the arguments it passes. */
  datatype Request =
    | WalkReq(glob: string)
    | GetReq(path: string, at: Option<int>)
    | SetReq(path: string, value: string, expected: int)
    | DelReq(path: string, expected: int)
    | RevReq
    | WaitReq(glob: string, since: int)
}
