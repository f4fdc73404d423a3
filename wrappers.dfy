/** Option and Result wrappers shared by every module of the rota model. */
module Wrappers {

  /** `None` stands for Python's `float('inf')` / "not yet set" sentinels. */
  datatype Option<+T> = None | Some(value: T)

  /** The outcome of a step that may raise in the handler. */
  datatype Result<+T, +E> = Ok(value: T) | Err(error: E)
}

/** The ways the `schedule` handler can fail before it reaches the database. */
module Errors {

  datatype Fault =
    | BadDate(text: string)       // strptime raises ValueError
    | MissingHeadcount            // int(None), or iterating a missing per-night dict
    | DateOverflow                // date + timedelta(days=1) past 9999-12-31
    | SampleTooLarge(night: nat)  // random.sample: count negative or above the pool
    | NoShifts                    // max() over an empty shift-count dict
    | NoWeekendShifts             // max() over an empty weekend-count dict
    | NoSchedule                  // no optimal schedule, so grouped_schedule is unbound
}
