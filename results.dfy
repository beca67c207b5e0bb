/** The outcome of an SDK operation: a value, or the error it throws. */
module Results {
  import opened JsValues

  datatype Option<T> = None | Some(value: T) {
    /** `x || d` for a value that is either present or missing. */
    function GetOr(default: T): T {
      if Some? then value else default
    }
  }

  /** The errors the SDK raises, one per distinct message or cause. */
  datatype Error =
      /** 'Missing required parameters: ...', naming the parameters checked. */
    | MissingParameters(names: seq<string>)
      /** 'Adjustment metadata must include a reason'. */
    | MissingReason
      /** 'Invalid groupBy parameter. Must be one of: hour, day, week, month'. */
    | InvalidGroupBy
      /** 'Invalid period. Must be one of: ...'. */
    | InvalidPeriod
      /** 'User not found or no plan assigned'. */
    | UserNotFound
      /** 'User adjustments are not enabled in configuration'. */
    | AdjustmentsDisabled
      /** 'USAGE_INVALID_PARAMS: userId and featureName are required'. */
    | UsageInvalidParams
      /** 'Missing required config: ...', listing the keys in order. */
    | MissingConfig(keys: seq<string>)
      /** The store rejected a query or an insert on the named table. */
    | QueryFailed(table: Value)
      /** A JavaScript TypeError: a property read on null. */
    | NullDereference

  datatype Result<T> = Ok(value: T) | Err(error: Error) {
    predicate IsFailure() {
      Err?
    }

    function PropagateFailure<U>(): Result<U>
      requires Err?
    {
      Err(error)
    }

    function Extract(): T
      requires Ok?
    {
      value
    }
  }
}
