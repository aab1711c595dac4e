/**
 Concrete histories and what the reducer and the history counter make of them.
 */
module Scenarios {
  import opened Reducer
  import opened History
  import opened Sessions

  /** Deleting a task that was never added is not an error and leaves no tasks. */
  lemma DeleteOfAbsentTask()
    ensures Replay([Delete("1")]) == map[]
  {
  }

  /** A second add with the same id replaces the first. */
  lemma AddOverwrites()
    ensures Replay([Add("1", "a"), Add("1", "b")]) == map["1" := Task("b", false)]
  {
  }

  /** An edit of a task that was never added is dropped. */
  lemma EditOfAbsentTask()
    ensures Replay([Edit("1", "x")]) == map[]
  {
  }

  /** Add, check, edit and uncheck one task. */
  lemma Lifecycle()
    ensures Replay([Add("1", "milk"), Check("1"), Edit("1", "organic milk"), Uncheck("1")])
         == map["1" := Task("organic milk", false)]
  {
    assert Replay([Add("1", "milk")]) == map["1" := Task("milk", false)];
    ReplaySnoc([Add("1", "milk")], Check("1"));
    assert Replay([Add("1", "milk"), Check("1")]) == map["1" := Task("milk", true)];
    ReplaySnoc([Add("1", "milk"), Check("1")], Edit("1", "organic milk"));
    assert Replay([Add("1", "milk"), Check("1"), Edit("1", "organic milk")])
        == map["1" := Task("organic milk", true)];
    ReplaySnoc([Add("1", "milk"), Check("1"), Edit("1", "organic milk")], Uncheck("1"));
    assert [Add("1", "milk"), Check("1"), Edit("1", "organic milk")] + [Uncheck("1")]
        == [Add("1", "milk"), Check("1"), Edit("1", "organic milk"), Uncheck("1")];
  }

  /** Stepping back through a log that adds, checks and deletes one task. */
  lemma TimeTravel(c: string)
    ensures Replay(View([Add("1", c), Check("1"), Delete("1")], 0)) == map[]
    ensures Replay(View([Add("1", c), Check("1"), Delete("1")], 1)) == map["1" := Task(c, true)]
    ensures Replay(View([Add("1", c), Check("1"), Delete("1")], 3)) == map[]
  {
    var log := [Add("1", c), Check("1"), Delete("1")];
    assert View(log, 1) == [Add("1", c), Check("1")];
    ReplaySnoc([Add("1", c)], Check("1"));
    ReplaySnoc([Add("1", c), Check("1")], Delete("1"));
  }

  /** Going back and then issuing a command shows the whole log again, the new
      event included: time travel never forks the timeline. */
  method BackThenCommand(firstId: string) returns (t: Tasks)
    ensures t == map[firstId := Task("feed the cat", true)]
  {
    var s := new Session(firstId);
    t := s.Back();
    assert t == map[];
    t := s.Back();
    assert s.history == 2;
    t := s.Check(firstId);
    assert s.log == [Add(firstId, "feed the cat"), Check(firstId)] && s.history == 0;
    ReplaySnoc([Add(firstId, "feed the cat")], Check(firstId));
    assert t == map[firstId := Task("feed the cat", true)];
  }
}
