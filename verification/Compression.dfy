/** Completion folds the tasks of a transition into its record and then deletes them;
    deletion removes the tasks before the record.  Both may stop after any step. */
module Compression {
  import opened TransitionModel
  import opened TransitionRecords
  import opened PagedStorage
  import opened EtcdStorage

  datatype Task = Task(id: nat, xname: string, status: TaskStatus, desc: string, error: string)

  /** The answer to a request for the transition. */
  datatype Response = Response(counts: Counts, tasks: seq<TaskResp>)

  function Infos(tasks: seq<Task>): seq<TaskResp> {
    seq(|tasks|, i requires 0 <= i < |tasks| => TaskResp(tasks[i].xname, tasks[i].status, tasks[i].desc, tasks[i].error))
  }

  function CountOf(tasks: seq<Task>, s: TaskStatus): nat {
    if tasks == [] then 0
    else CountOf(tasks[..|tasks| - 1], s) + (if tasks[|tasks| - 1].status == s then 1 else 0)
  }

  function CountsOf(tasks: seq<Task>): Counts {
    Counts(|tasks|, CountOf(tasks, TaskNew), CountOf(tasks, TaskInProgress), CountOf(tasks, TaskFailed),
           CountOf(tasks, TaskSucceeded), CountOf(tasks, TaskUnsupported))
  }

  /** Every task is counted in exactly one of the five categories. */
  lemma {:induction false} CountsAddUp(tasks: seq<Task>)
    ensures var c := CountsOf(tasks);
            c.total == c.new_ + c.inProgress + c.failed + c.succeeded + c.unsupported
  {
    if tasks != [] {
      CountsAddUp(tasks[..|tasks| - 1]);
    }
  }

  /** How many tasks have the status. */
  ghost function WithStatus(tasks: seq<Task>, s: TaskStatus): set<nat> {
    set i: nat | i < |tasks| && tasks[i].status == s
  }

  lemma {:induction false} CountIsExact(tasks: seq<Task>, s: TaskStatus)
    ensures CountOf(tasks, s) == |WithStatus(tasks, s)|
  {
    if tasks != [] {
      var n := |tasks| - 1;
      CountIsExact(tasks[..n], s);
      assert WithStatus(tasks, s) == WithStatus(tasks[..n], s) + (if tasks[n].status == s then {n} else {});
    } else {
      assert WithStatus(tasks, s) == {};
    }
  }

  /** Each category counts exactly the tasks with its status. */
  lemma CountsAreExact(tasks: seq<Task>)
    ensures var c := CountsOf(tasks);
            && c.total == |tasks|
            && c.new_ == |WithStatus(tasks, TaskNew)| && c.inProgress == |WithStatus(tasks, TaskInProgress)|
            && c.failed == |WithStatus(tasks, TaskFailed)| && c.succeeded == |WithStatus(tasks, TaskSucceeded)|
            && c.unsupported == |WithStatus(tasks, TaskUnsupported)|
  {
    forall s ensures CountOf(tasks, s) == |WithStatus(tasks, s)| {
      CountIsExact(tasks, s);
    }
  }

  /** What the record and the stored tasks show to a client. */
  function View(tr: Transition, tasks: seq<Task>): Response {
    if tr.compressed then Response(tr.counts, tr.tasks) else Response(CountsOf(tasks), Infos(tasks))
  }

  /** Builds the response from a record and the stored tasks. */
  method ToTransitionResp(tr: Transition, tasks: seq<Task>) returns (rsp: Response)
    ensures rsp == View(tr, tasks)
    ensures tr.compressed ==> rsp.counts == tr.counts && rsp.tasks == tr.tasks
    ensures !tr.compressed ==> |rsp.tasks| == |tasks| && forall i :: 0 <= i < |tasks| ==>
              && rsp.tasks[i].xname == tasks[i].xname && rsp.tasks[i].status == tasks[i].status
              && rsp.tasks[i].desc == tasks[i].desc && rsp.tasks[i].error == tasks[i].error
  {
    if tr.compressed {
      return Response(tr.counts, tr.tasks);
    }
    var c := Counts(0, 0, 0, 0, 0, 0);
    var infos := [];
    for i := 0 to |tasks|
      invariant c == CountsOf(tasks[..i]) && infos == Infos(tasks[..i])
    {
      assert tasks[..i + 1][..i] == tasks[..i];
      var t := tasks[i];
      match t.status {
        case TaskNew => c := c.(new_ := c.new_ + 1);
        case TaskInProgress => c := c.(inProgress := c.inProgress + 1);
        case TaskFailed => c := c.(failed := c.failed + 1);
        case TaskSucceeded => c := c.(succeeded := c.succeeded + 1);
        case TaskUnsupported => c := c.(unsupported := c.unsupported + 1);
      }
      c := c.(total := c.total + 1);
      infos := infos + [TaskResp(t.xname, t.status, t.desc, t.error)];
    }
    assert tasks[..|tasks|] == tasks;
    rsp := Response(c, infos);
  }

  /** The record that completion stores for a local copy of the transition. */
  function Compressed(local: Transition, status: Status, tasks: seq<Task>): Transition {
    local.(status := status, compressed := true, counts := View(local, tasks).counts, tasks := View(local, tasks).tasks)
  }

  /** What the client sees after the compressed record has gone through the store: the same
      counts, and the same tasks but for truncated messages; all tasks exactly when none
      are dropped by the paging. */
  lemma CompletionThroughTheStore(cfg: Settings, size: Transition -> nat, local: Transition, status: Status, tasks: seq<Task>)
    requires ValidSettings(cfg) && !local.compressed
    ensures var t := Compressed(local, status, tasks);
            var (first, pages) := Prepare(cfg, size, t);
            var shown := View(Assemble(first, pages), []);
            && shown.counts == CountsOf(tasks)
            && shown.tasks <= View(Expected(cfg, size, t), []).tasks
            && (shown.tasks == View(Expected(cfg, size, t), []).tasks <==> !DropsTasks(cfg, size, t))
            && (!cfg.sizeChecks || size(t) <= cfg.maxObjectSize ==> View(Expected(cfg, size, t), []).tasks == Infos(tasks))
            && |View(Expected(cfg, size, t), []).tasks| == |tasks|
  {
    StoreThenReadIff(cfg, size, Compressed(local, status, tasks));
    hide Split, AllTasks, AllLocations, AllTaskIDs, TruncateTask;
  }

  function Without(tasks: seq<Task>, id: nat): seq<Task> {
    if tasks == [] then []
    else
      var rest := Without(tasks[..|tasks| - 1], id);
      if tasks[|tasks| - 1].id == id then rest else rest + [tasks[|tasks| - 1]]
  }

  lemma {:induction false} WithoutKeeps(tasks: seq<Task>, id: nat)
    ensures forall t :: t in Without(tasks, id) <==> t in tasks && t.id != id
  {
    if tasks != [] {
      var n := |tasks| - 1;
      WithoutKeeps(tasks[..n], id);
      assert tasks == tasks[..n] + [tasks[n]];
    }
  }

  /** The deletion of the task is among the steps carried out. */
  ghost predicate Removed(list: seq<Task>, steps: nat, failing: set<nat>, t: Task) {
    exists j :: 0 <= j < |list| && j < steps && j !in failing && list[j].id == t.id
  }

  lemma RemovedOneMore(list: seq<Task>, i: nat, steps: nat, failing: set<nat>)
    requires i < |list|
    ensures forall t :: Removed(list[..i + 1], steps, failing, t) <==>
              Removed(list[..i], steps, failing, t) || (i < steps && i !in failing && list[i].id == t.id)
  {
    forall t ensures Removed(list[..i + 1], steps, failing, t) <==>
              Removed(list[..i], steps, failing, t) || (i < steps && i !in failing && list[i].id == t.id)
    {
      if Removed(list[..i], steps, failing, t) {
        var j :| 0 <= j < i && j < steps && j !in failing && list[..i][j].id == t.id;
        assert list[..i + 1][j].id == t.id;
      }
      if Removed(list[..i + 1], steps, failing, t) {
        var j :| 0 <= j < i + 1 && j < steps && j !in failing && list[..i + 1][j].id == t.id;
        assert j < i ==> list[..i][j].id == t.id;
      }
      if i < steps && i !in failing && list[i].id == t.id {
        assert list[..i + 1][i].id == t.id;
      }
    }
  }

  /** One transition in the store: its record, and its tasks in key order. */
  class TransitionStore {
    var record: Option<Transition>
    var tasks: seq<Task>

    /** What a client sees, if the transition exists. */
    function Shown(): Option<Response>
      reads this
    {
      if record.None? then None else Some(View(record.value, tasks))
    }

    /** Completion.  It may stop after any number of steps, and the deletions at the
        positions in `failing` have no effect.

        Whatever happens, the client sees the tasks that were stored, and so sees no
        change exactly when the record was not compressed before or its summary is the
        one the stored tasks give. */
    method CompressAndComplete(local: Transition, status: Status, steps: nat, failing: set<nat>)
      returns (stored: bool)
      requires record.Some? && !local.compressed
      modifies this
      ensures stored <==> steps > 0
      ensures !stored ==> record == old(record) && tasks == old(tasks)
      ensures stored ==> record == Some(Compressed(local, status, old(tasks)))
      ensures stored ==> record.value.compressed && record.value.status == status && record.value.taskIDs == local.taskIDs
      ensures stored ==> Shown() == Some(Response(CountsOf(old(tasks)), Infos(old(tasks))))
      ensures !old(record).value.compressed ==> Shown() == old(Shown())
      ensures stored ==>
                (Shown() == old(Shown()) <==>
                 !old(record).value.compressed ||
                 (old(record).value.counts == CountsOf(old(tasks)) && old(record).value.tasks == Infos(old(tasks))))
      ensures stored ==> forall t :: t in tasks <==> t in old(tasks) && !Removed(old(tasks), steps - 1, failing, t)
    {
      var rsp := ToTransitionResp(local, tasks);
      stored := steps > 0;
      if !stored {
        return;
      }
      var list := tasks;
      record := Some(local.(status := status, compressed := true, counts := rsp.counts, tasks := rsp.tasks));
      DeleteTasks(list, steps - 1, failing);
    }

    /** Deletes the listed tasks one by one. */
    method DeleteTasks(list: seq<Task>, steps: nat, failing: set<nat>)
      modifies this`tasks
      ensures forall t :: t in tasks <==> t in old(tasks) && !Removed(list, steps, failing, t)
    {
      for i := 0 to |list|
        invariant forall t :: t in tasks <==> t in old(tasks) && !Removed(list[..i], steps, failing, t)
      {
        RemovedOneMore(list, i, steps, failing);
        if i < steps && i !in failing {
          WithoutKeeps(tasks, list[i].id);
          tasks := Without(tasks, list[i].id);
        }
      }
      assert list[..|list|] == list;
    }

    /** Deletion.  At every point where it may stop, tasks are only left if the record is. */
    method DeleteTransition(steps: nat, failing: set<nat>) returns (deleted: bool)
      modifies this
      ensures record.None? ==> tasks == [] || old(record).None?
      ensures deleted ==> record.None? && tasks == []
      ensures !deleted ==> record == old(record)
      ensures deleted <==> |old(tasks)| < steps && forall j :: 0 <= j < |old(tasks)| ==> j !in failing
      ensures forall t :: t in tasks ==> t in old(tasks)
    {
      var list := tasks;
      assert forall t :: t in tasks ==> exists j :: 0 <= j < |list| && list[j] == t;
      for i := 0 to |list|
        invariant record == old(record)
        invariant forall t :: t in tasks ==> t in old(tasks)
        invariant forall t :: t in tasks ==> exists j :: i <= j < |list| && list[j] == t
        invariant i <= steps && forall j :: 0 <= j < i ==> j !in failing
      {
        if i >= steps || i in failing {
          return false;
        }
        WithoutKeeps(tasks, list[i].id);
        tasks := Without(tasks, list[i].id);
      }
      EmptyOrMember(tasks);
      if |list| >= steps {
        return false;
      }
      record := None;
      deleted := true;
    }
  }

  /** A second completion by a runner that carried on after its abort: the tasks are gone,
      and the record that listed them is replaced by one that lists none. */
  lemma SecondCompletionLosesTheTasks(record: Transition, local: Transition)
    requires record.compressed && record.tasks != [] && !local.compressed
    ensures View(Compressed(local, Completed, []), []).tasks == []
    ensures View(Compressed(local, Completed, []), []) != View(record, [])
  {
  }
}
