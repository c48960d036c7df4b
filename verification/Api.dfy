/**
 Values shared by the node agent's components: the parts of `api.Task` and
 `api.TaskStatus` that the control plane reads or writes.
 */
module Api {

  datatype Option<+T> = None | Some(value: T)

  /** `api.TaskStatus`; `state` orders the life cycle (api/types.pb.go:73-99). */
  datatype Status = Status(state: int, message: string, err: string)

  /** `api.Task`; `spec` stands for every field the agent compares but never interprets. */
  datatype Task = Task(id: string, desired: int, status: Status, meta: int, spec: string)

  /** The zero `api.TaskStatus`, which `PutTask` stores in place of the real one. */
  const BLANK_STATUS := Status(0, "", "")

  /** `equality.TasksEqualStable`: equality up to status and metadata. */
  predicate EqualStable(a: Task, b: Task) {
    a.(status := b.status, meta := b.meta) == b
  }
}
