/**
 One user's session: the stored action log of its document and the session's
 history counter. Every command appends one event at the true end of the log
 and returns to the present; back and forward only move the counter. Every
 route answers with the tasks of the current view.
 */
module Sessions {
  import opened Wrappers
  import opened Reducer
  import opened History

  class Session {
    /** The `actions` list of the session's document. */
    var log: seq<Event>
    /** `session['history']`: how many of the latest events the view hides. */
    var history: int

    /** The first request of a session: a document whose log holds one task,
        with the id the caller draws, and the counter at the present. */
    constructor (firstId: string)
      ensures log == [Event.Add(firstId, "feed the cat")]
      ensures history == 0
    {
      log := [Event.Add(firstId, "feed the cat")];
      history := 0;
    }

    /** The `/todo` route: replay the current view. Changes nothing. */
    method Todo() returns (tasks: Tasks)
      ensures tasks == Replay(View(log, history))
    {
      var actions := View(log, history);
      tasks := Remake(actions);
    }

    /** The `/add` route. Missing or empty content adds nothing and keeps the
        counter; otherwise an add with the fresh id `newId` is appended. */
    method Add(newId: string, content: Option<string>) returns (tasks: Tasks)
      modifies this
      ensures content.Some? && content.value != "" ==>
                log == old(log) + [Event.Add(newId, content.value)] && history == 0
      ensures !(content.Some? && content.value != "") ==>
                log == old(log) && history == old(history)
      ensures tasks == Replay(View(log, history))
    {
      if content.Some? && content.value != "" {
        log := log + [Event.Add(newId, content.value)];
        history := 0;
      }
      tasks := Todo();
    }

    /** The `/delete/<id>` route. */
    method Delete(id: string) returns (tasks: Tasks)
      modifies this
      ensures log == old(log) + [Event.Delete(id)] && history == 0
      ensures tasks == Replay(log)
    {
      log := log + [Event.Delete(id)];
      history := 0;
      tasks := Todo();
    }

    /** The `/edit/<id>` route. */
    method Edit(id: string, content: string) returns (tasks: Tasks)
      modifies this
      ensures log == old(log) + [Event.Edit(id, content)] && history == 0
      ensures tasks == Replay(log)
    {
      log := log + [Event.Edit(id, content)];
      history := 0;
      tasks := Todo();
    }

    /** The `/check/<id>` route. */
    method Check(id: string) returns (tasks: Tasks)
      modifies this
      ensures log == old(log) + [Event.Check(id)] && history == 0
      ensures tasks == Replay(log)
    {
      log := log + [Event.Check(id)];
      history := 0;
      tasks := Todo();
    }

    /** The `/uncheck/<id>` route. */
    method Uncheck(id: string) returns (tasks: Tasks)
      modifies this
      ensures log == old(log) + [Event.Uncheck(id)] && history == 0
      ensures tasks == Replay(log)
    {
      log := log + [Event.Uncheck(id)];
      history := 0;
      tasks := Todo();
    }

    /** The `/back` route: hide one more event. The counter is not bounded. */
    method Back() returns (tasks: Tasks)
      modifies this
      ensures log == old(log) && history == old(history) + 1
      ensures tasks == Replay(View(log, history))
    {
      history := history + 1;
      tasks := Todo();
    }

    /** The `/forward` route: hide one event fewer. The counter may go below zero. */
    method Forward() returns (tasks: Tasks)
      modifies this
      ensures log == old(log) && history == old(history) - 1
      ensures tasks == Replay(View(log, history))
    {
      history := history - 1;
      tasks := Todo();
    }
  }
}
