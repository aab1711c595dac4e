/**
 The event-sourced core of the todo application: the events a session's log
 records, the materialized task mapping, and the reducer that replays a log
 into that mapping.
 */
module Reducer {

  /** A materialized task: its text and whether it is ticked off. */
  datatype Task = Task(content: string, checked: bool)

  /** One record of the log, already sorted by the arm of the reducer's
      pattern match it falls into; `Other` is every record no arm matches. */
  datatype Event =
    | Add(id: string, content: string)
    | Delete(id: string)
    | Edit(id: string, content: string)
    | Check(id: string)
    | Uncheck(id: string)
    | Other

  /** The task mapping the reducer builds. */
  type Tasks = map<string, Task>

  /** The event names task `k`. */
  predicate Mentions(e: Event, k: string)
  {
    !e.Other? && e.id == k
  }

  /** `m` and `r` hold the same entry for `k`, or neither holds `k`. */
  ghost predicate AgreeAt(m: Tasks, r: Tasks, k: string)
  {
    (k in m <==> k in r) && (k in m ==> m[k] == r[k])
  }

  /** Every key other than `k` is present in both or neither, with the same task. */
  ghost predicate SameExcept(m: Tasks, r: Tasks, k: string)
  {
    forall x :: x != k ==> AgreeAt(m, r, x)
  }

  /** The effect of one event on the mapping: one arm of the reducer's match. */
  function Apply(m: Tasks, e: Event): (r: Tasks)
    // an event matching no arm leaves the mapping as it was
    ensures e.Other? ==> r == m
    // only the task the event names can change
    ensures !e.Other? ==> SameExcept(m, r, e.id)
    // add creates an unchecked task, replacing any task with that id
    ensures e.Add? ==> e.id in r && r[e.id] == Task(e.content, false)
    // delete removes the task, and is a no-op when it is absent
    ensures e.Delete? ==> e.id !in r
    ensures e.Delete? && e.id !in m ==> r == m
    // edit, check and uncheck never create or remove a task ...
    ensures (e.Edit? || e.Check? || e.Uncheck?) ==> (e.id in r <==> e.id in m)
    ensures (e.Edit? || e.Check? || e.Uncheck?) && e.id !in m ==> r == m
    // ... and on a present task change one field only
    ensures e.Edit? && e.id in m ==> r[e.id] == Task(e.content, m[e.id].checked)
    ensures e.Check? && e.id in m ==> r[e.id] == Task(m[e.id].content, true)
    ensures e.Uncheck? && e.id in m ==> r[e.id] == Task(m[e.id].content, false)
  {
    match e
    case Add(id, content) => m[id := Task(content, false)]
    case Delete(id) => m - {id}
    case Edit(id, content) => if id in m then m[id := m[id].(content := content)] else m
    case Check(id) => if id in m then m[id := m[id].(checked := true)] else m
    case Uncheck(id) => if id in m then m[id := m[id].(checked := false)] else m
    case Other => m
  }

  /** The reducer as a fold: replay `es` in order, starting from no tasks. */
  function Replay(es: seq<Event>): Tasks
  {
    if es == [] then map[] else Apply(Replay(es[..|es| - 1]), es[|es| - 1])
  }

  /** Replaying one more event applies it to the replay of the others. */
  lemma ReplaySnoc(es: seq<Event>, e: Event)
    ensures Replay(es + [e]) == Apply(Replay(es), e)
  {
  }

  /** The reducer as the source runs it: a loop updating a local mapping. */
  method Remake(actions: seq<Event>) returns (tasks: Tasks)
    ensures tasks == Replay(actions)
  {
    tasks := map[];
    for i := 0 to |actions|
      invariant tasks == Replay(actions[..i])
    {
      assert actions[..i + 1] == actions[..i] + [actions[i]];
      ReplaySnoc(actions[..i], actions[i]);
      match actions[i]
      case Add(id, content) =>
        tasks := tasks[id := Task(content, false)];
      case Delete(id) =>
        tasks := tasks - {id};
      case Edit(id, content) =>
        if id in tasks {
          tasks := tasks[id := tasks[id].(content := content)];
        }
      case Check(id) =>
        if id in tasks {
          tasks := tasks[id := tasks[id].(checked := true)];
        }
      case Uncheck(id) =>
        if id in tasks {
          tasks := tasks[id := tasks[id].(checked := false)];
        }
      case Other =>
    }
    assert actions[..|actions|] == actions;
  }

  /** Task `k` is live after `es`: some add of `k` is followed by no delete of `k`. */
  ghost predicate Live(es: seq<Event>, k: string)
  {
    exists i :: 0 <= i < |es| && es[i].Add? && es[i].id == k && NoDeleteAfter(es, k, i)
  }

  ghost predicate NoDeleteAfter(es: seq<Event>, k: string, i: nat)
  {
    forall j :: i < j < |es| ==> !(es[j].Delete? && es[j].id == k)
  }

  /** A task is in the replayed mapping exactly when it is live in the log. */
  lemma {:induction false} ReplayKeys(es: seq<Event>, k: string)
    ensures k in Replay(es) <==> Live(es, k)
  {
    if es != [] {
      var p, e := es[..|es| - 1], es[|es| - 1];
      assert es == p + [e];
      ReplayKeys(p, k);
      if e.Add? && e.id == k {
        assert NoDeleteAfter(es, k, |p|);
      } else if e.Delete? && e.id == k {
        assert !Live(es, k) by {
          forall i | 0 <= i < |es| && es[i].Add? && es[i].id == k
            ensures !NoDeleteAfter(es, k, i)
          {
            assert i < |p|;
            assert es[|p|] == e;
          }
        }
      } else {
        assert k in Replay(es) <==> k in Replay(p);
        if Live(p, k) {
          var i :| 0 <= i < |p| && p[i].Add? && p[i].id == k && NoDeleteAfter(p, k, i);
          assert es[i] == p[i];
          assert NoDeleteAfter(es, k, i) by {
            forall j | i < j < |es| ensures !(es[j].Delete? && es[j].id == k) {
              if j < |p| { assert es[j] == p[j]; }
            }
          }
        }
        if Live(es, k) {
          var i :| 0 <= i < |es| && es[i].Add? && es[i].id == k && NoDeleteAfter(es, k, i);
          assert i < |p|;
          assert p[i] == es[i];
          assert NoDeleteAfter(p, k, i) by {
            forall j | i < j < |p| ensures !(p[j].Delete? && p[j].id == k) {
              assert es[j] == p[j];
            }
          }
        }
      }
    }
  }

  /** Only add inserts keys: every task in the mapping was added by some event. */
  lemma KeysComeFromAdds(es: seq<Event>, k: string)
    requires k in Replay(es)
    ensures exists i :: 0 <= i < |es| && es[i].Add? && es[i].id == k
  {
    ReplayKeys(es, k);
    var i :| 0 <= i < |es| && es[i].Add? && es[i].id == k && NoDeleteAfter(es, k, i);
  }

  /** The events of `es` that name task `k`, in order. */
  function OnlyAbout(es: seq<Event>, k: string): (r: seq<Event>)
    ensures forall i :: 0 <= i < |r| ==> Mentions(r[i], k)
    ensures |r| <= |es|
  {
    if es == [] then []
    else OnlyAbout(es[..|es| - 1], k) + (if Mentions(es[|es| - 1], k) then [es[|es| - 1]] else [])
  }

  /** One event changes task `k` only as a function of what `k` was before. */
  lemma ApplyAtDependsOnlyAt(m1: Tasks, m2: Tasks, e: Event, k: string)
    requires AgreeAt(m1, m2, k)
    ensures AgreeAt(Apply(m1, e), Apply(m2, e), k)
  {
  }

  /** Locality: a task's state depends only on the events that name it;
      events about other tasks never disturb it. */
  lemma {:induction false} ReplayLocal(es: seq<Event>, k: string)
    ensures AgreeAt(Replay(es), Replay(OnlyAbout(es, k)), k)
  {
    if es != [] {
      var p, e := es[..|es| - 1], es[|es| - 1];
      ReplayLocal(p, k);
      if Mentions(e, k) {
        assert OnlyAbout(es, k) == OnlyAbout(p, k) + [e];
        ReplaySnoc(OnlyAbout(p, k), e);
        ApplyAtDependsOnlyAt(Replay(p), Replay(OnlyAbout(p, k)), e, k);
      } else {
        assert OnlyAbout(es, k) == OnlyAbout(p, k) + [];
        assert OnlyAbout(p, k) + [] == OnlyAbout(p, k);
      }
    }
  }
}
