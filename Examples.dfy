/** The startup data of the application as a fixture, and the create and update
    scenarios of the task controller tests stated over it. */
module Examples {
  import opened Wrappers
  import opened Entities
  import opened StatusModel
  import opened Repositories
  import opened TaskModel
  import opened TaskDtos
  import opened TaskMapper
  import opened TaskMapperProperties

  const Admin := User(1, "hexlet@example.com", None, None, None)
  const Draft := TaskStatus(1, "Draft", "draft", None)
  const ToReview := TaskStatus(2, "To review", "to_review", None)
  const ToBeFixed := TaskStatus(3, "To be fixed", "to_be_fixed", None)
  const ToPublish := TaskStatus(4, "To publish", "to_publish", None)
  const Published := TaskStatus(5, "Published", "published", None)
  const Feature := Label(1, "feature", None)
  const Bug := Label(2, "bug", None)

  /** The repositories after startup: one user, five statuses, two labels. */
  const Seeded := Repositories(map[1 := Admin],
                               map[1 := Draft, 2 := ToReview, 3 := ToBeFixed, 4 := ToPublish, 5 := Published],
                               map[1 := Feature, 2 := Bug])

  lemma SeededValid()
    ensures Seeded.Valid()
  {
  }

  /** The create scenario: the created task reads back with the sent title, index, content,
      status and assignee. */
  lemma CreateScenario()
    ensures var dto := EmptyCreateDTO.(index := Some(9000), assigneeId := Some(1), title := Some("Task 1"),
                                       content := Some("Description of task 1"), status := Some("to_be_fixed"));
            && MapCreate(Seeded, dto).Ok?
            && MapCreate(Seeded, dto).value.taskStatus == ToBeFixed
            && MapCreate(Seeded, dto).value.assignee == Some(Admin)
            && MapToDto(MapCreate(Seeded, dto).value)
                 == TaskDTO(None, "Task 1", Some(9000), Some("Description of task 1"),
                            "to_be_fixed", Some(1), {}, None)
  {
    SeededValid();
    var dto := EmptyCreateDTO.(index := Some(9000), assigneeId := Some(1), title := Some("Task 1"),
                               content := Some("Description of task 1"), status := Some("to_be_fixed"));
    assert Seeded.statuses[3].slug == "to_be_fixed";
    CreateThenRead(Seeded, dto);
    var t := MapCreate(Seeded, dto).value;
    StoredStatusIdentity(Seeded, t.taskStatus, ToBeFixed);
  }

  /** A slug that no status carries makes the create mapping fail. */
  lemma CreateWithUnknownStatus()
    ensures MapCreate(Seeded, TaskCreateDTO(Some("Task 1"), None, None, Some("done"), None, Some({})))
              == Err(NotFound)
  {
    SeededValid();
  }

  /** A failed lookup is reported before a null title: an update sending a null title together
      with an unknown status or an unknown assignee fails with NotFound; with known ones it fails
      with InvalidInput. */
  lemma UpdateNullTitleOrder(t: TaskValue)
    ensures ApplyUpdate(Seeded, t, NoChanges.(title := Present(None), status := Present(Some("done"))))
              == Err(NotFound)
    ensures ApplyUpdate(Seeded, t, NoChanges.(title := Present(None), assigneeId := Present(Some(42))))
              == Err(NotFound)
    ensures ApplyUpdate(Seeded, t, NoChanges.(title := Present(None), status := Present(Some("draft"))))
              == Err(InvalidInput)
  {
    SeededValid();
    assert Seeded.statuses[1].slug == "draft";
  }

  /** An unknown label id is dropped: asking for labels 1 and 99 gives the task label 1 only. */
  lemma CreateWithUnknownLabel()
    ensures var dto := TaskCreateDTO(Some("Task 1"), None, None, Some("draft"), None, Some({1, 99}));
            && MapCreate(Seeded, dto).Ok?
            && MapCreate(Seeded, dto).value.labels == {Feature}
  {
    SeededValid();
    var dto := TaskCreateDTO(Some("Task 1"), None, None, Some("draft"), None, Some({1, 99}));
    assert Seeded.statuses[1].slug == "draft";
    var ls := MapLabels(Seeded, dto.taskLabelIds);
    assert Feature in ls;
    assert forall l :: l in ls ==> l == Feature;
  }

  /** The update scenario: five fields are sent, and the task reads back with them.
      The task's labels, which the payload does not mention, are kept. */
  lemma UpdateScenario(t: TaskValue)
    ensures var p := TaskUpdateDTO(Present(Some("Task 1")), Present(Some(9000)),
                                   Present(Some("Description of task 1")), Present(Some("to_be_fixed")),
                                   Present(Some(1)), Absent);
            && ApplyUpdate(Seeded, t, p).Ok?
            && var view := MapToDto(ApplyUpdate(Seeded, t, p).value);
               && view.title == "Task 1" && view.index == Some(9000)
               && view.content == Some("Description of task 1")
               && view.status == "to_be_fixed" && view.assigneeId == Some(1)
               && view.taskLabelIds == MapToDto(t).taskLabelIds
               && view.id == t.id
  {
    SeededValid();
    var p := TaskUpdateDTO(Present(Some("Task 1")), Present(Some(9000)),
                           Present(Some("Description of task 1")), Present(Some("to_be_fixed")),
                           Present(Some(1)), Absent);
    assert Seeded.statuses[3].slug == "to_be_fixed";
    UpdateThenRead(Seeded, t, p);
  }

  /** A client of the entity: after an update that sends only a status, the task has the new
      status and keeps its name and labels. */
  method UpdateOnlyStatus()
  {
    SeededValid();
    var task := new Task("first task", Draft);
    task.labels := {Bug};
    assert Seeded.statuses[5].slug == "published";
    var r := Update(Seeded, TaskUpdateDTO(Absent, Absent, Absent, Present(Some("published")), Absent, Absent), task);
    assert r.Pass?;
    assert task.taskStatus == Published;
    assert task.name == "first task" && task.labels == {Bug} && task.assignee == None;
  }
}
