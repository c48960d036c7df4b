/**
 The agent's task database (agent/storage.go): one bucket per task with its data,
 its status and an assignment mark. A transaction is a working copy of the map.
 */
module Storage {
  import opened Api

  datatype Bucket = Bucket(data: Option<Task>, status: Option<Status>, mark: bool)
  type Db = map<string, Bucket>

  const NEW_BUCKET := Bucket(None, None, false)

  /** The stored form of a task: its status lives under its own key. */
  function Blank(t: Task): Task { t.(status := BLANK_STATUS) }

  function BucketOf(db: Db, id: string): Bucket { if id in db then db[id] else NEW_BUCKET }

  /** `PutTask`; a bucket cannot have an empty name. */
  function PutTask(db: Db, t: Task): Option<Db> {
    if t.id == "" then None else Some(db[t.id := BucketOf(db, t.id).(data := Some(Blank(t)))])
  }

  /** `PutTaskStatus`: never creates a bucket. */
  function PutTaskStatus(db: Db, id: string, st: Status): Option<Db> {
    if id in db then Some(db[id := db[id].(status := Some(st))]) else None
  }

  function SetTaskAssignment(db: Db, id: string, mark: bool): Option<Db> {
    if id in db then Some(db[id := db[id].(mark := mark)]) else None
  }

  function DeleteTask(db: Db, id: string): Option<Db> { if id in db then Some(db - {id}) else None }

  function GetTaskStatus(db: Db, id: string): Option<Status> { if id in db then db[id].status else None }

  /** All three keys are present and the data is that of the bucket's task. */
  predicate Complete(db: Db, id: string) {
    && id in db
    && db[id].data.Some? && db[id].data.value.id == id && db[id].data.value.status == BLANK_STATUS
    && db[id].status.Some? && db[id].mark
  }
}
