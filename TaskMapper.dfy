/** The translation between the external task payloads and the task entity:
    the three reference resolvers, the create and read mappings, and the partial update. */
module TaskMapper {
  import opened Wrappers
  import opened Entities
  import opened StatusModel
  import opened Repositories
  import opened TaskModel
  import opened TaskDtos

  /** Some stored status has this slug (a null slug matches none, since stored slugs are not null). */
  predicate SlugKnown(repo: Repositories, slug: Option<string>) {
    slug.Some? && exists k :: k in repo.statuses && repo.statuses[k].slug == slug.value
  }

  /** The assignee id is null or names a stored user. */
  predicate AssigneeKnown(repo: Repositories, id: Option<Int64>) {
    id.None? || id.value in repo.users
  }

  /** mapTaskStatus: the stored status whose slug is `slug`, or NotFound. */
  function MapTaskStatus(repo: Repositories, slug: Option<string>): (r: Result<TaskStatus>)
    requires repo.Valid()
    ensures r.Ok? <==> SlugKnown(repo, slug)
    ensures r.Err? ==> r.error == NotFound
    ensures r.Ok? ==> r.value in repo.statuses.Values && r.value.slug == slug.value
    ensures r.Ok? ==> forall s :: s in repo.statuses.Values && s.slug == slug.value ==> s == r.value
  {
    if SlugKnown(repo, slug) then
      var k :| k in repo.statuses && repo.statuses[k].slug == slug.value;
      Ok(repo.statuses[k])
    else
      Err(NotFound)
  }

  /** mapAssignee: a null id means no assignee; otherwise the stored user with that id, or NotFound. */
  function MapAssignee(repo: Repositories, id: Option<Int64>): (r: Result<Option<User>>)
    requires repo.Valid()
    ensures r.Ok? <==> AssigneeKnown(repo, id)
    ensures r.Err? ==> r.error == NotFound
    ensures id.None? ==> r == Ok(None)
    ensures r.Ok? && id.Some? ==>
              r.value.Some? && r.value.value in repo.users.Values && r.value.value.id == id.value
  {
    match id
    case None => Ok(None)
    case Some(k) => if k in repo.users then Ok(Some(repo.users[k])) else Err(NotFound)
  }

  /** mapLabels: a null id set means no labels; otherwise every stored label whose id is
      in the set. Ids that match no label are dropped; this never fails. */
  function MapLabels(repo: Repositories, ids: Option<set<Int64>>): (r: set<Label>)
    requires repo.Valid()
    ensures ids.None? ==> r == {}
    ensures forall l :: l in r ==> l in repo.labels.Values && ids.Some? && l.id in ids.value
    ensures ids.Some? ==> forall k :: k in ids.value && k in repo.labels ==> repo.labels[k] in r
  {
    match ids
    case None => {}
    case Some(s) => set l | l in repo.labels.Values && l.id in s
  }

  /** mapLabelIds: the ids of the given labels. */
  function MapLabelIds(labels: set<Label>): (r: set<Int64>)
    ensures labels == {} ==> r == {}
    ensures forall l :: l in labels ==> l.id in r
    ensures forall k :: k in r ==> exists l :: l in labels && l.id == k
  {
    set l | l in labels :: l.id
  }

  /** The create mapping: title becomes name, content becomes description, index is copied,
      and the status, assignee and labels come from the three resolvers. It fails exactly when
      the status or the assignee cannot be resolved. Id and creation date stay unassigned. */
  function MapCreate(repo: Repositories, dto: TaskCreateDTO): (r: Result<TaskValue>)
    requires repo.Valid() && dto.Valid()
    ensures r.Ok? <==> SlugKnown(repo, dto.status) && AssigneeKnown(repo, dto.assigneeId)
    ensures r.Err? ==> r.error == NotFound
    ensures r.Ok? ==> && r.value.id.None? && r.value.createdAt.None?
                      && r.value.name == dto.title.value
                      && r.value.index == dto.index
                      && r.value.description == dto.content
                      && r.value.taskStatus in repo.statuses.Values
                      && r.value.taskStatus.slug == dto.status.value
                      && (dto.assigneeId.None? ==> r.value.assignee.None?)
                      && (dto.assigneeId.Some? ==> r.value.assignee == Some(repo.users[dto.assigneeId.value]))
                      && r.value.labels == MapLabels(repo, dto.taskLabelIds)
  {
    var status :- MapTaskStatus(repo, dto.status);
    var assignee :- MapAssignee(repo, dto.assigneeId);
    Ok(TaskValue(id := None,
                 name := dto.title.value,
                 index := dto.index,
                 description := dto.content,
                 taskStatus := status,
                 assignee := assignee,
                 createdAt := None,
                 labels := MapLabels(repo, dto.taskLabelIds)))
  }

  /** There are never more label ids than labels. */
  lemma {:induction false} LabelIdsCardinality(labels: set<Label>)
    ensures |MapLabelIds(labels)| <= |labels|
    decreases |labels|
  {
    if labels != {} {
      var l :| l in labels;
      var rest := labels - {l};
      LabelIdsCardinality(rest);
      assert MapLabelIds(labels) == MapLabelIds(rest) + {l.id};
    }
  }

  /** No two labels in the set share an id. */
  predicate DistinctIds(labels: set<Label>) {
    forall a, b :: a in labels && b in labels && a.id == b.id ==> a == b
  }

  /** When no two labels share an id, there are exactly as many ids as labels. */
  lemma {:induction false} LabelIdsCardinalityDistinct(labels: set<Label>)
    ensures DistinctIds(labels) ==> |MapLabelIds(labels)| == |labels|
    decreases |labels|
  {
    if labels != {} && DistinctIds(labels) {
      var l :| l in labels;
      var rest := labels - {l};
      LabelIdsCardinalityDistinct(rest);
      assert l.id !in MapLabelIds(rest);
      assert MapLabelIds(labels) == MapLabelIds(rest) + {l.id};
    }
  }

  /** The read mapping: name becomes title, description becomes content, the status becomes
      its slug, the assignee its id and the labels their ids; the other fields are copied.
      The view has no more label ids than the task has labels, and loses none of them when
      no two of the task's labels share an id. */
  function MapToDto(t: TaskValue): (r: TaskDTO)
    ensures r.assigneeId.None? <==> t.assignee.None?
    ensures |r.taskLabelIds| <= |t.labels|
    ensures DistinctIds(t.labels) ==> |r.taskLabelIds| == |t.labels|
  {
    LabelIdsCardinality(t.labels);
    LabelIdsCardinalityDistinct(t.labels);
    TaskDTO(id := t.id,
            title := t.name,
            index := t.index,
            content := t.description,
            status := t.taskStatus.slug,
            assigneeId := if t.assignee.Some? then Some(t.assignee.value.id) else None,
            taskLabelIds := MapLabelIds(t.labels),
            createdAt := t.createdAt)
  }

  /** The new value of a field that a payload may leave out. */
  function Patched<T>(current: T, p: Patch<T>): T {
    match p
    case Absent => current
    case Present(v) => v
  }

  /** Every status and assignee the update payload carries names a stored entity. */
  predicate UpdateReferencesKnown(repo: Repositories, p: TaskUpdateDTO) {
    && (p.status.Present? ==> SlugKnown(repo, p.status.value))
    && (p.assigneeId.Present? ==> AssigneeKnown(repo, p.assigneeId.value))
  }

  /** The effect of an update payload on a task's value. A field left out of the payload
      keeps its value; a present field is converted as the create mapping converts it.
      Id and creation date are never written. A failed status or assignee lookup gives
      NotFound; when both lookups succeed, a null title, which would break the not-null
      constraint on the name, is rejected as InvalidInput. */
  function ApplyUpdate(repo: Repositories, t: TaskValue, p: TaskUpdateDTO): (r: Result<TaskValue>)
    requires repo.Valid()
    ensures r.Ok? <==> p.title != Present(None) && UpdateReferencesKnown(repo, p)
    ensures r.Err? && !UpdateReferencesKnown(repo, p) ==> r.error == NotFound
    ensures r.Err? && UpdateReferencesKnown(repo, p) ==> r.error == InvalidInput
    ensures r.Ok? ==> r.value.id == t.id && r.value.createdAt == t.createdAt
    ensures r.Ok? && p.title.Absent? ==> r.value.name == t.name
    ensures r.Ok? && p.index.Absent? ==> r.value.index == t.index
    ensures r.Ok? && p.content.Absent? ==> r.value.description == t.description
    ensures r.Ok? && p.status.Absent? ==> r.value.taskStatus == t.taskStatus
    ensures r.Ok? && p.assigneeId.Absent? ==> r.value.assignee == t.assignee
    ensures r.Ok? && p.taskLabelIds.Absent? ==> r.value.labels == t.labels
    ensures r.Ok? && p.title.Present? ==> Some(r.value.name) == p.title.value
    ensures r.Ok? && p.index.Present? ==> r.value.index == p.index.value
    ensures r.Ok? && p.content.Present? ==> r.value.description == p.content.value
    ensures r.Ok? && p.status.Present? ==>
              r.value.taskStatus in repo.statuses.Values && Some(r.value.taskStatus.slug) == p.status.value
    ensures r.Ok? && p.assigneeId.Present? && p.assigneeId.value.None? ==> r.value.assignee.None?
    ensures r.Ok? && p.assigneeId.Present? && p.assigneeId.value.Some? ==>
              r.value.assignee == Some(repo.users[p.assigneeId.value.value])
    ensures r.Ok? && p.taskLabelIds.Present? ==> r.value.labels == MapLabels(repo, p.taskLabelIds.value)
  {
    var status :- if p.status.Present? then MapTaskStatus(repo, p.status.value) else Ok(t.taskStatus);
    var assignee :- if p.assigneeId.Present? then MapAssignee(repo, p.assigneeId.value) else Ok(t.assignee);
    if p.title == Present(None) then
      Err(InvalidInput)
    else
      Ok(t.(name := if p.title.Present? then p.title.value.value else t.name,
            index := Patched(t.index, p.index),
            description := Patched(t.description, p.content),
            taskStatus := status,
            assignee := assignee,
            labels := if p.taskLabelIds.Present? then MapLabels(repo, p.taskLabelIds.value) else t.labels))
  }

  /** map(TaskCreateDTO): builds a new task entity from a create payload. */
  method Create(repo: Repositories, dto: TaskCreateDTO) returns (r: Result<Task>)
    requires repo.Valid() && dto.Valid()
    ensures r.Ok? <==> MapCreate(repo, dto).Ok?
    ensures r.Err? ==> r.error == MapCreate(repo, dto).error
    ensures r.Ok? ==> fresh(r.value) && r.value.Value() == MapCreate(repo, dto).value
  {
    var status := MapTaskStatus(repo, dto.status);
    if status.Err? {
      return Err(status.error);
    }
    var assignee := MapAssignee(repo, dto.assigneeId);
    if assignee.Err? {
      return Err(assignee.error);
    }
    var task := new Task(dto.title.value, status.value);
    task.index := dto.index;
    task.description := dto.content;
    task.assignee := assignee.value;
    task.labels := MapLabels(repo, dto.taskLabelIds);
    return Ok(task);
  }

  /** update(TaskUpdateDTO, Task): writes the fields present in the payload into `task`.
      The references are resolved, and a null title rejected, before anything is written,
      so a failed update leaves the task as it was. */
  method Update(repo: Repositories, p: TaskUpdateDTO, task: Task) returns (r: Outcome)
    requires repo.Valid()
    modifies task
    ensures r.Pass? <==> ApplyUpdate(repo, old(task.Value()), p).Ok?
    ensures r.Pass? ==> task.Value() == ApplyUpdate(repo, old(task.Value()), p).value
    ensures r.Fail? ==> r.error == ApplyUpdate(repo, old(task.Value()), p).error && unchanged(task)
    ensures task.id == old(task.id) && task.createdAt == old(task.createdAt)
  {
    var status := task.taskStatus;
    if p.status.Present? {
      var s := MapTaskStatus(repo, p.status.value);
      if s.Err? {
        return Fail(s.error);
      }
      status := s.value;
    }
    var assignee := task.assignee;
    if p.assigneeId.Present? {
      var a := MapAssignee(repo, p.assigneeId.value);
      if a.Err? {
        return Fail(a.error);
      }
      assignee := a.value;
    }
    if p.title == Present(None) {
      return Fail(InvalidInput);
    }
    if p.title.Present? {
      task.name := p.title.value.value;
    }
    if p.index.Present? {
      task.index := p.index.value;
    }
    if p.content.Present? {
      task.description := p.content.value;
    }
    task.taskStatus := status;
    task.assignee := assignee;
    if p.taskLabelIds.Present? {
      task.labels := MapLabels(repo, p.taskLabelIds.value);
    }
    return Pass;
  }
}
