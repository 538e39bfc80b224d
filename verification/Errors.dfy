/** Errors of the balancer and the result of an operation that may fail. */
module Errors {

  datatype Error =
    | InvalidAddress(addr: string, reason: string)
    | NoBackends
    | Factory(message: string)
    | Backend(message: string)
    | Io(message: string)

  datatype Result<+T> = Ok(value: T) | Err(error: Error)
}
