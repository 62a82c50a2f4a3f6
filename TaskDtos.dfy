/** The external shapes of a task: the create payload, the update payload and the read view. */
module TaskDtos {
  import opened Wrappers
  import opened Entities

  /** The payload of a create request. Every field is a nullable Java reference.
      `taskLabelIds` is initialised to the empty set, so it is empty when a client omits it. */
  datatype TaskCreateDTO = TaskCreateDTO(title: Option<string>,
                                         index: Option<Int32>,
                                         content: Option<string>,
                                         status: Option<string>,
                                         assigneeId: Option<Int64>,
                                         taskLabelIds: Option<set<Int64>>)
  {
    /** The bean-validation constraints: a title of at least one character and a status. */
    predicate Valid() {
      title.Some? && |title.value| >= 1 && status.Some?
    }
  }

  /** A create payload before any field is set. */
  const EmptyCreateDTO := TaskCreateDTO(None, None, None, None, None, Some({}))

  /** One field of an update payload: left out of the request, or sent with a value
      (which for a nullable field may itself be null). */
  datatype Patch<+T> = Absent | Present(value: T)

  /** The payload of an update request: every field is a Patch. */
  datatype TaskUpdateDTO = TaskUpdateDTO(title: Patch<Option<string>>,
                                         index: Patch<Option<Int32>>,
                                         content: Patch<Option<string>>,
                                         status: Patch<Option<string>>,
                                         assigneeId: Patch<Option<Int64>>,
                                         taskLabelIds: Patch<Option<set<Int64>>>)

  /** An update payload that mentions no field. */
  const NoChanges := TaskUpdateDTO(Absent, Absent, Absent, Absent, Absent, Absent)

  /** The external view of a task. */
  datatype TaskDTO = TaskDTO(id: Option<Int64>,
                             title: string,
                             index: Option<Int32>,
                             content: Option<string>,
                             status: string,
                             assigneeId: Option<Int64>,
                             taskLabelIds: set<Int64>,
                             createdAt: Option<LocalDate>)
}
