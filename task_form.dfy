/**
 * The task form component: the same date, time and deadline handling as the
 * appointment form, without the pet fields, against `/api/tasks`.
 */
module TaskForm {
  import opened Wrappers
  import opened Js
  import opened ListOps
  import opened Scheduling

  datatype Task = Task(id: Id, title: string, description: string, deadline: string)

  datatype TaskFormData = TaskFormData(title: string, description: string, date: string, time: string)

  const EmptyTaskForm := TaskFormData("", "", "", "")

  datatype TaskPayload = TaskPayload(title: string, description: string, deadline: string)

  /** The body `handleSubmit` sends. */
  function Payload(f: TaskFormData, toIso: string -> string): (p: TaskPayload)
    ensures p.title == f.title && p.description == f.description
    ensures f.date == "" || f.time == "" ==> p.deadline == ""
    ensures f.date != "" && f.time != "" ==> p.deadline == toIso(f.date + "T" + f.time)
  {
    TaskPayload(f.title, f.description, Deadline(f.date, f.time, toIso))
  }

  datatype Request = Put(id: Id, payload: TaskPayload) | Post(payload: TaskPayload)

  function TaskKey(t: Task): Id {
    t.id
  }

  class TaskFormState {
    var form: TaskFormData
    var tasks: seq<Task>
    var editing: Option<Task>

    constructor (tasks: seq<Task>)
      ensures form == EmptyTaskForm && this.tasks == tasks && editing == None
    {
      form := EmptyTaskForm;
      this.tasks := tasks;
      editing := None;
    }

    /** The effect that runs when `editingTask` becomes null: an empty form. */
    method EditingCleared()
      modifies this
      ensures editing == None && form == EmptyTaskForm && tasks == old(tasks)
    {
      editing := None;
      form := EmptyTaskForm;
    }

    /** `handleSubmit`. `response` is the server's reply data, or `None` when
        the request failed (an alert, and no state change). */
    method Submit(toIso: string -> string, response: Option<Task>) returns (request: Request)
      modifies this
      ensures request == if old(editing).Some?
        then Put(old(editing).value.id, Payload(old(form), toIso))
        else Post(Payload(old(form), toIso))
      ensures response.None? ==> form == old(form) && tasks == old(tasks) && editing == old(editing)
      ensures response.Some? && old(editing).Some? ==> tasks == ReplaceById(old(tasks), TaskKey, response.value)
      ensures response.Some? && old(editing).None? ==> tasks == Append(old(tasks), response.value)
      ensures response.Some? ==> form == EmptyTaskForm && editing == None
    {
      var payload := Payload(form, toIso);
      if editing.Some? {
        request := Put(editing.value.id, payload);
      } else {
        request := Post(payload);
      }
      if response.None? {
        return;
      }
      if editing.Some? {
        tasks := ReplaceById(tasks, TaskKey, response.value);
      } else {
        tasks := Append(tasks, response.value);
      }
      editing := None;
      form := EmptyTaskForm;
    }
  }
}
