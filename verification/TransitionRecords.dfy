/** The stored record of a transition. */
module TransitionRecords {
  import opened TransitionModel

  datatype Status = New | InProgress | Completed | Aborted | AbortSignaled

  predicate Terminal(s: Status) {
    s == Completed || s == Aborted
  }

  datatype Counts = Counts(total: nat, new_: nat, inProgress: nat, failed: nat, succeeded: nat, unsupported: nat)

  /** A list of the record; a missing list and an empty one are encoded differently. */
  datatype Slice<T> = NilSlice | Slice(elems: seq<T>)

  function Elems<T>(s: Slice<T>): seq<T> {
    if s.NilSlice? then [] else s.elems
  }

  datatype TaskResp = TaskResp(xname: string, status: TaskStatus, desc: string, error: string)

  datatype Location = Location(xname: string, deputyKey: string)

  /** `counts` and `tasks` are only meaningful in a compressed record.  A missing and an
      empty task list have the same encoding. */
  datatype Transition = Transition(
    id: nat, operation: Operation, deadline: int, created: int, lastActive: int, expires: int, status: Status,
    compressed: bool, counts: Counts, location: Slice<Location>, taskIDs: Slice<nat>, tasks: seq<TaskResp>)

  /** A variable that holds no record yet. */
  const Blank: Transition :=
    Transition(0, OpNil, 0, 0, 0, 0, New, false, Counts(0, 0, 0, 0, 0, 0), NilSlice, NilSlice, [])
}
