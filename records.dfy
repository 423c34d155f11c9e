/** The records of the exercise tracker: an exercise as it sits in its owner's
    log, the shapes the HTTP responses take, and the projection from the one
    to the other that both log routes share. */
module Records {

  datatype Option<+T> = None | Some(value: T)

  datatype Result<+T, +E> = Ok(value: T) | Err(error: E)

  /** An exercise embedded in a user's `log`. `duration` is the digit string
      the request carried; `date` is the day text the handler rendered
      (for instance "Wed Feb 15 2023"). */
  datatype Exercise = Exercise(username: string, description: string, duration: string, date: string)

  /** One element of the `log` array of a log response: the exercise without
      its owner's name or any identifier. */
  datatype LogEntry = LogEntry(description: string, duration: string, date: string)

  /** The body of GET /api/users/:_id/logs. `count` is the user's stored
      counter, not computed from `log`. */
  datatype LogResponse = LogResponse(id: string, username: string, count: int, log: seq<LogEntry>)

  /** The body of a successful POST /api/users/:_id/exercises. */
  datatype ExerciseResponse = ExerciseResponse(id: string, username: string, date: string, duration: string, description: string)

  /** The `map` both log routes apply last: every exercise becomes the entry
      with its description, duration and date, in the same position. */
  function Project(log: seq<Exercise>): (r: seq<LogEntry>)
    ensures |r| == |log|
    ensures forall i :: 0 <= i < |log| ==>
      r[i] == LogEntry(log[i].description, log[i].duration, log[i].date)
  {
    if log == [] then []
    else [LogEntry(log[0].description, log[0].duration, log[0].date)] + Project(log[1..])
  }
}
