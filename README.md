# Event-sourced todo core

A Dafny model of the core of a small todo web application. The application
never stores its tasks. Each session owns a document whose `actions` list is
an append-only log of events (`add`, `delete`, `edit`, `check`, `uncheck`).
The visible tasks are rebuilt on every request by replaying the log through a
reducer, `cqrs_remake`. Time travel is a per-session counter `history`: the
view hides the last `history` events of the log before replaying it.

The model has six modules:

- `Reducer` (reducer.dfy): the `Event` and `Task` types and the reducer. `Apply` is one arm of the
  reducer's `match` and `Replay` is the reducer as a fold. `Remake` is the
  source's loop over a local mapping, proved equal to `Replay`. Lemmas
  characterise which tasks exist after a replay (`ReplayKeys`) and show that a
  task's state depends only on the events that name it (`ReplayLocal`).
- `Records` (records.dfy): the stored dictionary shape of an action. `Decode` is the reducer's sorting
  of a dictionary into an arm, by its keys and `type`. `Encode` is the dictionary each
  route handler appends. The two form a round trip.
- `History` (history.dfy): Python's `s[:stop]` and the view expression
  `actions[:-hist] if hist else actions`, for every integer counter.
- `Sessions` (session.dfy): the class `Session` with fields `log` and `history`. It has one method per
  route (`Todo`, `Add`, `Delete`, `Edit`, `Check`, `Uncheck`, `Back`, `Forward`), and its
  constructor is the bootstrap of a new session.
- `Scenarios` (scenarios.dfy): concrete histories: overwrite, guarded edit, a
  task's full lifecycle, stepping back through a log, and a command issued
  after going back.
- `Wrappers` (wrappers.dfy): the `Option` type, for absent keys and form fields.

Two behaviours of the history counter are worth spelling out:

- The counter is not clamped. `back` and `forward` do `history += 1` and
  `history -= 1` with no bound (main.py:162, main.py:167). So the counter can
  pass the length of the log, and it can go below 0. At a negative counter,
  `actions[:-hist]` shows the *first* `-hist` events. `View`'s contract states
  this, and `ForwardFromPresent` shows that one `forward` from the present
  shows only the first event.
- Commands append first and then reset the counter to 0 (main.py:112-116).
  The appended event always goes at the true end of the log, so after going
  back, a command shows the whole log again: the timeline never forks.

## Model

| member | source | states |
|---|---|---|
| Reducer.Apply | main.py:23-35 | An unmatched event changes nothing. Only the named task can change. Add makes it `{content, unchecked}`, overwriting. Delete removes it and is a no-op when absent. Edit, check and uncheck never create or remove a task, do nothing to an absent one, and change only content, or set checked true or false. |
| Reducer.ReplaySnoc | main.py:22-35 | Replaying one more event applies that event to the mapping replayed so far. |
| Reducer.Remake | main.py:20-36 | The loop that updates the local dict returns exactly the fold `Replay` of the actions, from the empty mapping. |
| Reducer.ReplayKeys | main.py:24-27 | A task id is in the replayed mapping if and only if some add of it is followed by no delete of it. |
| Reducer.KeysComeFromAdds | main.py:24-25 | Only add inserts keys: every id in the mapping is the id of some add event in the replayed log. |
| Reducer.ApplyAtDependsOnlyAt | main.py:24-33 | What one event makes of task `k` depends only on the previous entry for `k`. |
| Reducer.ReplayLocal | main.py:22-35 | Replaying the whole log and replaying only the events naming `k` agree on `k`. Events about other tasks never affect it. |
| Records.Decode | main.py:23-35 | A dict is recognised exactly when an arm matches it: a delete, check or uncheck with an id (extra keys ignored), or an add or edit with an id and content. A recognised dict keeps its type, id and (add/edit) content. A dict with no id, no type or an unknown type is ignored, and so is an add or edit with no content. |
| Records.Encode | main.py:112-157 | Each handler writes a dict with the event's type and id, and a content key exactly for add and edit. |
| Records.DecodeEncode | main.py:24-33 | Every dict a handler appends is read back by the reducer as the same event. |
| History.View | main.py:60 | The view is always a prefix of the log. It is the whole log at counter 0, and all but the last `h` events (at least none) at `h > 0`. At `h < 0`, since nothing clamps, it is the first `min(len, -h)` events. |
| History.BackPastStartIsEmpty | main.py:60 | A counter at or beyond the log length gives the empty view, which replays to no tasks. |
| History.BackHidesOneEvent | main.py:60 | Within the log, one more step back hides exactly the next-latest visible event. |
| History.AppendKeepsPastViews | main.py:60 | After an append, the view `h + 1` steps back equals the view `h` steps back before the append. |
| History.ForwardFromPresent | main.py:60 | Counter -1, one `forward` from the present, shows only the first event of the log. |
| Sessions.Session.constructor | main.py:46-49 | A new session's log is one add of "feed the cat" with the caller's fresh id, and its counter is 0. |
| Sessions.Session.Todo | main.py:56-61 | The `/todo` route returns the replay of the current view and changes nothing. |
| Sessions.Session.Add | main.py:105-117 | With non-empty content it appends one add with the fresh id at the end and sets the counter to 0. With missing or empty content it changes neither. It returns the replay of the view. |
| Sessions.Session.Delete | main.py:119-127 | Appends exactly one delete at the end, keeps earlier events, sets the counter to 0, returns the replay of the whole log. |
| Sessions.Session.Edit | main.py:129-138 | Appends exactly one edit at the end, keeps earlier events, sets the counter to 0, returns the replay of the whole log. |
| Sessions.Session.Check | main.py:140-148 | Appends exactly one check at the end, keeps earlier events, sets the counter to 0, returns the replay of the whole log. |
| Sessions.Session.Uncheck | main.py:150-158 | Appends exactly one uncheck at the end, keeps earlier events, sets the counter to 0, returns the replay of the whole log. |
| Sessions.Session.Back | main.py:160-163 | The counter goes up by exactly 1, unbounded. The log is untouched. Returns the replay of the new view. |
| Sessions.Session.Forward | main.py:165-168 | The counter goes down by exactly 1, possibly below 0. The log is untouched. Returns the replay of the new view. |
| Scenarios.DeleteOfAbsentTask | main.py:26-27 | Deleting a never-added task is no error and leaves no tasks. |
| Scenarios.AddOverwrites | main.py:24-25 | Two adds with one id leave the second content, unchecked. |
| Scenarios.EditOfAbsentTask | main.py:28-29 | An edit of a never-added task is dropped. |
| Scenarios.Lifecycle | main.py:24-33 | Add, check, edit, uncheck of one task leaves the edited content, unchecked. |
| Scenarios.BackThenCommand | main.py:140-163 | A new session that goes back twice and then checks its task shows both events again, the task checked. |
| Scenarios.TimeTravel | main.py:60-61 | For add, check, delete of one task: counter 0 shows nothing, counter 1 shows the task checked, counter 3 shows nothing. |

## Left out

- Web plumbing: routing, async handling, request parsing, `render_template`,
  and the HTML/server-sent-event response (main.py:51-53, 62-103). Each route
  method returns the task mapping that the HTML is built from.
- Persistence in TinyDB (main.py:13-14, 46, 58, 112-115). The stored document
  is the `log` field. Atomicity of the read-modify-write and concurrent
  requests on one document are not modelled.
- Random user names (Faker) and `uuid.uuid4()` ids (main.py:43, 46, 111).
  The fresh ids are method parameters (`firstId`, `newId`). The user name
  stored in the document is not modelled.
- Session cookies and the `user_id`/`db_id` bootstrap (main.py:40-49). Only
  the initial log and the counter at 0 are modelled, as the constructor.
  `before_request` also sets the counter to 0 when it is 0 or absent; that
  changes nothing once the session exists.
- Dict insertion order. The source renders tasks in the order the dict holds
  them. The model's mapping is an unordered `map`, so display order is not
  captured.
- Sessions.Session.Edit: the form field `content` may be missing. The source then
  stores and replays a `None` content; the model takes content as a string.
- Records.Decode: it looks only at `type`, `id` and `content`, with string
  values. Keys with other value types, and extra keys (which every arm ignores),
  are not modelled.
- Determinism of the reducer is not stated as a lemma. `Replay` is a Dafny
  function, so equal logs always give equal mappings.
