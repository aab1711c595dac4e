/**
 Time travel: the part of the log a session shows, given its history counter.
 The view is the Python expression `actions[:-hist] if hist else actions`,
 so its meaning for every integer counter, negative ones included, follows
 Python's slice rules.
 */
module History {
  import opened Reducer

  function Min(a: int, b: int): int { if a <= b then a else b }
  function Max(a: int, b: int): int { if a <= b then b else a }

  /** Python's `s[:stop]`: a negative stop counts back from the end, and a stop
      past either end is cut to that end. */
  function SliceTo<T>(s: seq<T>, stop: int): seq<T>
  {
    if stop >= 0 then
      if stop <= |s| then s[..stop] else s
    else if |s| + stop >= 0 then s[..|s| + stop]
    else []
  }

  /** The events a session replays when its history counter is `h`. */
  function View(log: seq<Event>, h: int): (v: seq<Event>)
    // always the start of the log ...
    ensures v <= log
    // ... all of it when the counter is zero,
    ensures h == 0 ==> v == log
    // all but the last `h` events when it is positive,
    ensures h > 0 ==> |v| == Max(0, |log| - h)
    // and, since nothing clamps the counter, the first `-h` events when it is negative
    ensures h < 0 ==> |v| == Min(|log|, -h)
  {
    if h != 0 then SliceTo(log, -h) else log
  }

  /** Going back as far as the whole log, or further, shows no tasks at all. */
  lemma BackPastStartIsEmpty(log: seq<Event>, h: int)
    requires h >= |log|
    ensures View(log, h) == []
    ensures Replay(View(log, h)) == map[]
  {
  }

  /** One more step back hides exactly one more event, until none are left. */
  lemma BackHidesOneEvent(log: seq<Event>, h: int)
    requires 0 <= h < |log|
    ensures View(log, h + 1) + [log[|log| - h - 1]] == View(log, h)
  {
  }

  /** Appending to the log keeps every past view: the view `h` steps back before
      the append is the view `h + 1` steps back after it. */
  lemma AppendKeepsPastViews(log: seq<Event>, e: Event, h: int)
    requires h >= 0
    ensures View(log + [e], h + 1) == View(log, h)
  {
  }

  /** A counter driven below zero shows the first events of the log: one step
      forward from the present shows only the first event. */
  lemma ForwardFromPresent(log: seq<Event>)
    requires log != []
    ensures View(log, -1) == [log[0]]
  {
  }
}
