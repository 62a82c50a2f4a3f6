/** Properties of the task mapper that relate several of its operations. */
module TaskMapperProperties {
  import opened Wrappers
  import opened Entities
  import opened StatusModel
  import opened Repositories
  import opened TaskModel
  import opened TaskDtos
  import opened TaskMapper

  /** Reading back the labels resolved from an id set yields exactly the requested ids
      that name stored labels: the unknown ones are gone. */
  lemma ResolvedLabelIds(repo: Repositories, ids: set<Int64>)
    requires repo.Valid()
    ensures MapLabelIds(MapLabels(repo, Some(ids))) == ids * repo.labels.Keys
  {
    var got := MapLabelIds(MapLabels(repo, Some(ids)));
    forall k | k in ids * repo.labels.Keys
      ensures k in got
    {
      assert repo.labels[k] in MapLabels(repo, Some(ids));
    }
    forall k | k in got
      ensures k in ids * repo.labels.Keys
    {
      var l :| l in MapLabels(repo, Some(ids)) && l.id == k;
      var j :| j in repo.labels && repo.labels[j] == l;
    }
  }

  /** Resolved labels never share an id, so reading them back loses none of them. */
  lemma ResolvedLabelsCardinality(repo: Repositories, ids: Option<set<Int64>>)
    requires repo.Valid()
    ensures |MapLabelIds(MapLabels(repo, ids))| == |MapLabels(repo, ids)|
  {
    var ls := MapLabels(repo, ids);
    forall a, b | a in ls && b in ls && a.id == b.id
      ensures a == b
    {
      var ka :| ka in repo.labels && repo.labels[ka] == a;
      var kb :| kb in repo.labels && repo.labels[kb] == b;
    }
    LabelIdsCardinalityDistinct(ls);
  }

  /** An id that names no stored label does not make the label resolution fail; it is
      silently dropped, so the task's label ids differ from the requested ones. */
  lemma UnknownLabelIdDropped(repo: Repositories, ids: set<Int64>, k: Int64)
    requires repo.Valid()
    requires k in ids && k !in repo.labels
    ensures k !in MapLabelIds(MapLabels(repo, Some(ids)))
    ensures MapLabelIds(MapLabels(repo, Some(ids))) != ids
  {
    ResolvedLabelIds(repo, ids);
  }

  /** The label ids a create payload reads back as: the requested ids that name stored
      labels, or none when the payload's id set is null. */
  function ExpectedLabelIds(repo: Repositories, ids: Option<set<Int64>>): set<Int64> {
    if ids.None? then {} else ids.value * repo.labels.Keys
  }

  /** The label ids read back from resolved labels. */
  lemma LabelRoundTrip(repo: Repositories, ids: Option<set<Int64>>)
    requires repo.Valid()
    ensures MapLabelIds(MapLabels(repo, ids)) == ExpectedLabelIds(repo, ids)
  {
    if ids.Some? {
      ResolvedLabelIds(repo, ids.value);
    }
  }

  /** Creating a task and reading it back reproduces the payload's title, index, content,
      status slug and assignee id; the label ids come back filtered to the stored labels,
      so all of them come back when every requested id names a stored label. */
  lemma CreateThenRead(repo: Repositories, dto: TaskCreateDTO)
    requires repo.Valid() && dto.Valid()
    requires SlugKnown(repo, dto.status) && AssigneeKnown(repo, dto.assigneeId)
    ensures MapCreate(repo, dto).Ok?
    ensures var view := MapToDto(MapCreate(repo, dto).value);
            && view.id.None? && view.createdAt.None?
            && Some(view.title) == dto.title
            && view.index == dto.index
            && view.content == dto.content
            && Some(view.status) == dto.status
            && view.assigneeId == dto.assigneeId
            && view.taskLabelIds == ExpectedLabelIds(repo, dto.taskLabelIds)
            && (dto.taskLabelIds.Some? && dto.taskLabelIds.value <= repo.labels.Keys ==>
                  Some(view.taskLabelIds) == dto.taskLabelIds)
  {
    LabelRoundTrip(repo, dto.taskLabelIds);
    var t := MapCreate(repo, dto).value;
    if dto.taskLabelIds.Some? && dto.taskLabelIds.value <= repo.labels.Keys {
      assert dto.taskLabelIds.value * repo.labels.Keys == dto.taskLabelIds.value;
    }
    if dto.assigneeId.Some? {
      assert t.assignee.value.id == dto.assigneeId.value;
    }
  }

  /** An update payload that mentions every field of a create payload. */
  function FullPatch(dto: TaskCreateDTO): TaskUpdateDTO {
    TaskUpdateDTO(Present(dto.title), Present(dto.index), Present(dto.content),
                  Present(dto.status), Present(dto.assigneeId), Present(dto.taskLabelIds))
  }

  /** A present field is written with the same renames and resolvers as the create mapping:
      updating any task with every field of a create payload gives the task that payload
      creates, keeping only the id and creation date of the target. */
  lemma UpdateAgreesWithCreate(repo: Repositories, t: TaskValue, dto: TaskCreateDTO)
    requires repo.Valid() && dto.Valid()
    ensures ApplyUpdate(repo, t, FullPatch(dto)).Ok? <==> MapCreate(repo, dto).Ok?
    ensures MapCreate(repo, dto).Ok? ==>
              ApplyUpdate(repo, t, FullPatch(dto)).value
                == MapCreate(repo, dto).value.(id := t.id, createdAt := t.createdAt)
  {
  }

  /** An update that mentions no field changes nothing. */
  lemma NoChangesIsIdentity(repo: Repositories, t: TaskValue)
    requires repo.Valid()
    ensures ApplyUpdate(repo, t, NoChanges) == Ok(t)
  {
  }

  /** Applying the same update twice has the effect of applying it once. */
  lemma UpdateIdempotent(repo: Repositories, t: TaskValue, p: TaskUpdateDTO)
    requires repo.Valid()
    requires ApplyUpdate(repo, t, p).Ok?
    ensures ApplyUpdate(repo, ApplyUpdate(repo, t, p).value, p) == ApplyUpdate(repo, t, p)
  {
  }

  /** Reading a task back after a successful update shows each present field as sent and each
      absent field as it was before; label ids come back filtered to the stored labels. */
  lemma UpdateThenRead(repo: Repositories, t: TaskValue, p: TaskUpdateDTO)
    requires repo.Valid()
    requires ApplyUpdate(repo, t, p).Ok?
    ensures var before := MapToDto(t);
            var after := MapToDto(ApplyUpdate(repo, t, p).value);
            && after.id == before.id && after.createdAt == before.createdAt
            && Some(after.title) == Patched(Some(before.title), p.title)
            && after.index == Patched(before.index, p.index)
            && after.content == Patched(before.content, p.content)
            && Some(after.status) == Patched(Some(before.status), p.status)
            && after.assigneeId == Patched(before.assigneeId, p.assigneeId)
            && after.taskLabelIds == (if p.taskLabelIds.Present?
                                      then ExpectedLabelIds(repo, p.taskLabelIds.value)
                                      else before.taskLabelIds)
  {
    var t' := ApplyUpdate(repo, t, p).value;
    if p.taskLabelIds.Present? {
      LabelRoundTrip(repo, p.taskLabelIds.value);
    }
    if p.assigneeId.Present? && p.assigneeId.value.Some? {
      assert t'.assignee.value.id == p.assigneeId.value.value;
    }
  }
}
