/** The err_t values the model tells apart. */
module Errors {
  datatype Err = Ok | Mem | WouldBlock | Rte | Rst | InProgress | NotConnected | Closed | Already | IsConn | Other(code: int)
}
