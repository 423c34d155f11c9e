/** A user document as the handlers hold it in memory after fetching it:
    creation, appending an exercise in place, the two log queries and the
    route that picks between them, and the exercise-posting handler.

    The store's `findById` and `save` calls are not modelled: a handler
    receives the fetched `User` object and the model ends where the source
    would write it back. */
module Users {
  import opened Records
  import opened LogQuery
  import opened Validation

  class User {
    /** `_id`, assigned by the store when the user is created. */
    const id: string
    const username: string
    /** The stored counter, incremented on every append. */
    var count: int
    var log: seq<Exercise>

    /** The counter agrees with the log. The store does not enforce this;
        every append keeps it. */
    ghost predicate Valid()
      reads this
    {
      count == |log|
    }

    /** `new User({ username })`: count 0, empty log. */
    constructor (id: string, username: string)
      ensures this.id == id && this.username == username
      ensures count == 0 && log == []
      ensures Valid()
    {
      this.id := id;
      this.username := username;
      count := 0;
      log := [];
    }

    /** The in-memory part of `addUserExercise`: build the exercise under
        this user's name, push it onto `log`, increment `count`, and answer
        with the exercise's fields under `reqId`, the id text the request
        named (which the store's id cast may have matched in another form,
        upper-case hex for instance). */
    method AddExercise(reqId: string, description: string, duration: string, date: string) returns (data: ExerciseResponse)
      modifies this
      ensures log == old(log) + [Exercise(username, description, duration, date)]
      ensures count == old(count) + 1
      ensures old(Valid()) ==> Valid()
      ensures data == ExerciseResponse(reqId, username, date, duration, description)
    {
      var exercise := Exercise(username, description, duration, date);
      log := log + [exercise];
      count := count + 1;
      data := ExerciseResponse(reqId, exercise.username, exercise.date, exercise.duration, exercise.description);
    }

    /** `getUserWithExercises`: the whole log in stored order, projected. */
    function WithExercises(): (r: LogResponse)
      reads this
      ensures r.id == id && r.username == username && r.count == count
      ensures |r.log| == |log|
      ensures forall i :: 0 <= i < |log| ==>
        r.log[i] == LogEntry(log[i].description, log[i].duration, log[i].date)
    {
      LogResponse(id, username, count, Project(log))
    }

    /** `getUserFromToLimit`: the filtered, sorted, limited, projected log
        under the user's `_id`, name and stored counter. */
    function FromToLimit(key: DateKey, from: Option<string>, to: Option<string>, limit: Option<nat>): (r: LogResponse)
      reads this
      ensures r.id == id && r.username == username && r.count == count
      ensures r.log == SelectLog(key, from, to, limit, log)
      ensures Valid() ==> |r.log| <= r.count
    {
      SelectLogSpec(key, from, to, limit, log);
      LogResponse(id, username, count, SelectLog(key, from, to, limit, log))
    }

    /** GET /api/users/:_id/logs: any of `from`, `to`, `limit` that is given
        selects the filtered query, otherwise the whole log. */
    function Logs(key: DateKey, from: Option<string>, to: Option<string>, limit: Option<nat>): (r: LogResponse)
      reads this
      ensures r.id == id && r.username == username && r.count == count
      ensures |r.log| <= |log|
      ensures Valid() ==> |r.log| <= r.count
    {
      if Given(from) || Given(to) || limit.Some? then FromToLimit(key, from, to, limit)
      else WithExercises()
    }
  }

  /** What the log route promises. The header is the stored user's,
      including the stored counter; with no query parameter the log comes in
      stored insertion order, unsorted; with any of them it is the filtered,
      sorted, limited log, in date order within the given bounds. */
  lemma LogsSpec(u: User, key: DateKey, from: Option<string>, to: Option<string>, limit: Option<nat>)
    ensures var r := u.Logs(key, from, to, limit);
            && r.id == u.id && r.username == u.username && r.count == u.count
            && (!(Given(from) || Given(to) || limit.Some?) ==> r.log == Project(u.log))
            && (Given(from) || Given(to) || limit.Some? ==>
                 && r.log == SelectLog(key, from, to, limit, u.log)
                 && (forall i, j :: 0 <= i < j < |r.log| ==> key(r.log[i].date) <= key(r.log[j].date))
                 && (forall i :: 0 <= i < |r.log| ==>
                       && (Given(from) ==> key(from.value) <= key(r.log[i].date))
                       && (Given(to) ==> key(r.log[i].date) <= key(to.value))))
  {
    if Given(from) || Given(to) || limit.Some? {
      SelectLogSpec(key, from, to, limit, u.log);
    } else {
      assert u.Logs(key, from, to, limit).log == Project(u.log);
    }
  }

  /** POST /api/users/:_id/exercises for the user that `reqId`, the
      request's `:_id` text, names. A rejected request leaves the user alone
      and answers with the error text; an accepted one stores the exercise
      dated by `StoredDate` and answers under `reqId`: `today` is the current
      day as `toDateString` renders it, `render` renders a `new Date(...)` of
      a date text. */
  method PostExercise(u: User, reqId: string, description: string, duration: Option<string>, date: Option<string>,
                      today: string, render: string -> string)
    returns (res: Result<ExerciseResponse, string>)
    modifies u
    ensures Validate(duration, date).Err? ==>
      && res == Err(ErrorText(Validate(duration, date).error))
      && u.log == old(u.log) && u.count == old(u.count)
    ensures Validate(duration, date).Ok? ==>
      && duration.Some?
      && var e := Exercise(u.username, description, duration.value,
                           StoredDate(Validate(duration, date).value, today, render));
         && u.log == old(u.log) + [e]
         && u.count == old(u.count) + 1
         && res == Ok(ExerciseResponse(reqId, u.username, e.date, e.duration, e.description))
  {
    var v := Validate(duration, date);
    if v.Err? {
      res := Err(ErrorText(v.error));
    } else {
      var day := StoredDate(v.value, today, render);
      var data := u.AddExercise(reqId, description, duration.value, day);
      res := Ok(data);
    }
  }

  /** A new user given one exercise after another: the counter and the log
      length both equal the number of appends, and the unfiltered log shows
      the exercises in the order they were added. */
  method RecordExercises(id: string, username: string, entries: seq<LogEntry>) returns (u: User)
    ensures u.id == id && u.username == username
    ensures u.count == |entries| && |u.log| == |entries|
    ensures u.WithExercises().log == entries
    ensures forall i :: 0 <= i < |u.log| ==> u.log[i].username == username
  {
    u := new User(id, username);
    var i := 0;
    while i < |entries|
      invariant 0 <= i <= |entries|
      invariant u.id == id && u.username == username
      invariant u.count == i && |u.log| == i
      invariant Project(u.log) == entries[..i]
      invariant forall j :: 0 <= j < i ==> u.log[j].username == username
    {
      ghost var before := u.log;
      var _ := u.AddExercise(id, entries[i].description, entries[i].duration, entries[i].date);
      assert Project(u.log) == Project(before) + [entries[i]];
      assert entries[..i + 1] == entries[..i] + [entries[i]];
      i := i + 1;
    }
    assert entries[..i] == entries;
  }
}
