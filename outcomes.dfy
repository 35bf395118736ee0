/** Results of the access layer's operations: every failure is one error kind. */
module Outcomes {

  datatype Option<T> = None | Some(value: T)

  /** The single error the layer raises: a message and the numeric code. */
  datatype DbError = DbError(message: string, code: int)

  /** Every error raised by mysql.php carries this code. */
  const ErrorCode: int := 100

  datatype Result<T> = Ok(value: T) | Err(error: DbError)

  /** The error raised for a driver failure that carries only the driver's message. */
  function DriverError(message: string): DbError
  {
    DbError(message, ErrorCode)
  }

  /** The error raised by `query` and `execute`: the driver message and the SQL text. */
  function SqlError(message: string, sql: string): (e: DbError)
    ensures e.code == ErrorCode
    ensures |e.message| == |message| + |sql| + 16
    ensures e.message[..10] == "sql error=" && e.message[|e.message| - |sql|..] == sql
    ensures e.message[10..10 + |message|] == message && e.message[10 + |message|..16 + |message|] == ". sql="
  {
    DbError("sql error=" + message + ". sql=" + sql, ErrorCode)
  }
}
