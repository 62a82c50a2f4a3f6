/** The task entity: a mutable object whose fields the mapper writes through setters. */
module TaskModel {
  import opened Wrappers
  import opened Entities
  import opened StatusModel

  /** The value of every field of a task at one moment. `id` is None until storage
      generates it, `createdAt` until the auditing listener assigns it. */
  datatype TaskValue = TaskValue(id: Option<Int64>,
                                 name: string,
                                 index: Option<Int32>,
                                 description: Option<string>,
                                 taskStatus: TaskStatus,
                                 assignee: Option<User>,
                                 createdAt: Option<LocalDate>,
                                 labels: set<Label>)

  /** A task. `name` and `taskStatus` are never null; `index`, `description` and
      `assignee` may be; `labels` is a set, so it holds no duplicates. */
  class Task {
    var id: Option<Int64>
    var name: string
    var index: Option<Int32>
    var description: Option<string>
    var taskStatus: TaskStatus
    var assignee: Option<User>
    var createdAt: Option<LocalDate>
    var labels: set<Label>

    /** A freshly constructed task carrying its two required fields: it has no id,
        no creation date, no assignee and an empty label set. */
    constructor (name: string, taskStatus: TaskStatus)
      ensures Value() == TaskValue(None, name, None, None, taskStatus, None, None, {})
    {
      this.id := None;
      this.name := name;
      this.index := None;
      this.description := None;
      this.taskStatus := taskStatus;
      this.assignee := None;
      this.createdAt := None;
      this.labels := {};
    }

    /** The current field values of this task. */
    function Value(): TaskValue
      reads this
    {
      TaskValue(id, name, index, description, taskStatus, assignee, createdAt, labels)
    }
  }
}
