/** `MongoResult<T>`: the envelope every query returns. */
module MongoResults {
  import opened Wrappers
  import opened Exceptions

  datatype MongoResult<T> = MongoResult(
    /** `Data`; `None` is null. */
    data: Option<T>,
    isSuccess: bool,
    message: string,
    totalRecords: Option<int>)

  /** The parameterless constructor: not successful, empty message, no data, no count. */
  function Default<T>(): (r: MongoResult<T>)
    ensures !r.isSuccess && r.message == "" && r.data.None? && r.totalRecords.None?
  {
    MongoResult(None, false, "", None)
  }

  /** `Failure(ex)`: a default envelope carrying the exception's message. Data stays
      null rather than an empty sequence. */
  function Failure<T>(ex: Exception): (r: MongoResult<T>)
    ensures !r.isSuccess && r.message == ex.message
    ensures r.data.None? && r.totalRecords.None?
    ensures r == Default<T>().(message := ex.message)
  {
    MongoResult(None, false, ex.message, None)
  }
}
