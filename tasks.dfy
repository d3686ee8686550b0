/**
  The task routes: create, list, update and delete tasks of the signed-in
  user, over one owner-scoped table.
*/
module Tasks {
  import opened Http
  import opened OwnedStore

  /** The mutable columns of a task. The request schema carries exactly these,
      with the same defaults: no description, not completed. */
  datatype TaskFields = TaskFields(title: string, description: Option<string> := None, isCompleted: bool := false)

  const TaskNotFound := HttpError(NOT_FOUND, "Task not found")

  /** POST /tasks: a new task for the caller, with the columns of the request. */
  method CreateTask(db: Store<TaskFields>, currentUser: nat, taskIn: TaskFields) returns (task: Row<TaskFields>)
    requires db.Valid()
    modifies db
    ensures db.Valid()
    ensures task.id !in old(db.rows) && task.userId == currentUser && task.fields == taskIn
    ensures db.rows == old(db.rows)[task.id := task]
  {
    task := db.Add(currentUser, taskIn);
  }

  /** GET /tasks: the caller's tasks, and no one else's. */
  function GetMyTasks(db: Store<TaskFields>, currentUser: nat): (tasks: set<Row<TaskFields>>)
    reads db
    requires db.Valid()
    ensures forall t :: t in tasks <==> t.id in db.rows && db.rows[t.id] == t && t.userId == currentUser
  {
    Owned(db.State(), currentUser)
  }

  /** PUT /tasks/{id}: a task that is missing or not the caller's is "Task not
      found" and nothing changes; otherwise title, description and completion
      are all replaced and id and owner kept. */
  method UpdateTask(db: Store<TaskFields>, taskId: int, taskIn: TaskFields, currentUser: nat)
    returns (r: Result<Row<TaskFields>>)
    requires db.Valid()
    modifies db
    ensures db.Valid() && db.nextId == old(db.nextId)
    ensures r.Err? <==> !(taskId in old(db.rows) && old(db.rows)[taskId].userId == currentUser)
    ensures r.Err? ==> r.error == TaskNotFound && db.rows == old(db.rows)
    ensures r.Ok? ==> r.value == Row(taskId, currentUser, taskIn) && db.rows == old(db.rows)[taskId := r.value]
  {
    var row := db.Replace(currentUser, taskId, taskIn);
    if row.None? {
      return Err(TaskNotFound);
    }
    r := Ok(row.value);
  }

  /** DELETE /tasks/{id}: a task that is missing or not the caller's is "Task
      not found" and nothing changes; otherwise exactly that task is removed. */
  method DeleteTask(db: Store<TaskFields>, taskId: int, currentUser: nat) returns (r: Result<()>)
    requires db.Valid()
    modifies db
    ensures db.Valid() && db.nextId == old(db.nextId)
    ensures r.Err? <==> !(taskId in old(db.rows) && old(db.rows)[taskId].userId == currentUser)
    ensures r.Err? ==> r.error == TaskNotFound && db.rows == old(db.rows)
    ensures r.Ok? ==> db.rows == old(db.rows) - {taskId}
  {
    var row := db.Remove(currentUser, taskId);
    if row.None? {
      return Err(TaskNotFound);
    }
    r := Ok(());
  }

  /** A client of the routes: one user's task cannot be deleted by another. */
  method TwoUsers(alice: nat, bob: nat)
    requires alice != bob
  {
    var db := new Store<TaskFields>();
    var task := CreateTask(db, alice, TaskFields("buy milk"));
    assert !task.fields.isCompleted && task.fields.description == None;
    var gone := DeleteTask(db, task.id, bob);
    assert gone == Err(TaskNotFound);
    assert GetMyTasks(db, alice) == {task};
    gone := DeleteTask(db, task.id, alice);
    assert gone.Ok? && GetMyTasks(db, alice) == {};
  }
}
