# Task translation layer of a task tracker, in Dafny

This project models the task mapper of a task-tracking backend: the layer that turns the
external task payloads into task entities and back. It covers

- the three **reference resolvers**: a status slug to the stored status, an assignee id to the
  stored user (a null id meaning "unassigned"), a label id set to the stored labels;
- the **create mapping** from a create payload to a new task (`title` becomes `name`,
  `content` becomes `description`, references go through the resolvers);
- the **read mapping** from a task to its external view (status as slug, assignee as id,
  labels as a set of ids);
- the **partial update**, which writes into an existing task only the fields that the update
  payload carries;
- the entities and payloads these work on: the task (a mutable object), the task status with its
  uniqueness constraints, the create payload with its validation rule.

The repositories are finite maps from id to entity (`Repositories.Repositories`), with an
invariant (`Valid`) that every entity is stored under its own id and that status names and
slugs are non-empty and unique. Java `null` is `Option.None`. An update-payload field is a
`Patch`: `Absent` when the request leaves it out, `Present(v)` when it sends it, where `v` may
itself be null for a nullable field. A resolver that would throw returns `Err(NotFound)`.

Modules: `Wrappers` (Option, Result, error kinds), `Entities` (Java integer widths, users,
labels), `StatusModel`, `Repositories`, `TaskModel` (the `Task` class and its value),
`TaskDtos` (payloads and view), `TaskMapper` (the mapper), `TaskMapperProperties` (lemmas that
relate its operations) and `Examples` (the startup data and the controller-test scenarios).

Two behaviours of the code shape the model:

- Label resolution asks the label repository for all labels whose id is in the set
  (TaskMapper.java:77), so unknown ids are dropped and resolution never fails (`MapLabels`,
  `UnknownLabelIdDropped`, `Examples.CreateWithUnknownLabel`).
- The mapper does not validate the create payload; the controller's `@Valid` does
  (TasksController.java:44), so `MapCreate` requires `TaskCreateDTO.Valid`.

What the read mapping `TaskMapper.MapToDto` produces field by field is stated by the
round-trip lemmas `CreateThenRead` and `UpdateThenRead`.

## Model

| member | source | states |
|---|---|---|
| `TaskMapper.MapTaskStatus` | src/main/java/hexlet/code/mapper/TaskMapper.java:62-66 | Succeeds iff some stored status has the slug (never for a null slug), else NotFound; the result is stored, has that slug, and is the only stored status with it. |
| `TaskMapper.MapAssignee` | src/main/java/hexlet/code/mapper/TaskMapper.java:68-72 | A null id gives no assignee; a known id gives the stored user with that id; an unknown id fails with NotFound. |
| `TaskMapper.MapLabels` | src/main/java/hexlet/code/mapper/TaskMapper.java:74-78 | A null set gives no labels; otherwise every returned label is stored and has a requested id, and every requested id that is stored yields its label; it never fails. |
| `TaskMapper.MapLabelIds` | src/main/java/hexlet/code/mapper/TaskMapper.java:80-84 | The result holds the id of every given label and nothing else; no labels give no ids. |
| `TaskMapper.LabelIdsCardinality` | src/main/java/hexlet/code/mapper/TaskMapper.java:80-84 | There are never more label ids than labels. |
| `TaskMapper.LabelIdsCardinalityDistinct` | src/main/java/hexlet/code/mapper/TaskMapper.java:80-84 | When no two labels share an id there are exactly as many ids as labels. |
| `TaskMapperProperties.ResolvedLabelIds` | src/main/java/hexlet/code/mapper/TaskMapper.java:74-84 | Reading back the labels resolved from an id set gives exactly the requested ids that name stored labels. |
| `TaskMapperProperties.ResolvedLabelsCardinality` | src/main/java/hexlet/code/mapper/TaskMapper.java:74-84 | Resolved labels never share an id, so reading them back loses none of them. |
| `TaskMapperProperties.UnknownLabelIdDropped` | src/main/java/hexlet/code/mapper/TaskMapper.java:77 | An id naming no label does not make resolution fail; it is dropped, so the read-back ids differ from the requested ones. |
| `TaskMapperProperties.LabelRoundTrip` | src/main/java/hexlet/code/mapper/TaskMapper.java:74-84 | Label ids read back after resolution are the requested stored ids, or none for a null set. |
| `TaskMapper.MapCreate` | src/main/java/hexlet/code/mapper/TaskMapper.java:41-46 | Fails (NotFound) exactly when the status or the assignee cannot be resolved; otherwise name is the title, description the content, index copied, status the stored one with the slug, no assignee for a null id and the stored user with the sent id otherwise, labels from the label resolver, id and creation date unassigned. |
| `TaskMapper.MapToDto` | src/main/java/hexlet/code/mapper/TaskMapper.java:48-53 | The assignee id is null iff the task has no assignee; the view has no more label ids than the task has labels, and exactly as many when their ids are distinct. With `CreateThenRead` and `UpdateThenRead`: title is the name, content the description, status the slug, assignee id the user's id, label ids the labels' ids. |
| `TaskMapper.Create` | src/main/java/hexlet/code/mapper/TaskMapper.java:41-46 | Builds a fresh task object whose fields are those of the create mapping, or reports its error. |
| `TaskMapperProperties.CreateThenRead` | src/main/java/hexlet/code/mapper/TaskMapper.java:41-53 | For a valid payload with a known slug and assignee, reading the created task back reproduces title, index, content, status and assignee id; label ids come back filtered to stored labels, so all of them when all are stored. |
| `TaskMapper.ApplyUpdate` | src/main/java/hexlet/code/mapper/TaskMapper.java:55-60 | Succeeds iff the title is not explicitly null and each present status and assignee resolves; a failed lookup gives NotFound, and only when both lookups succeed does a null title give InvalidInput; id and creation date are never written; every absent field keeps its value (null source properties are ignored, line 28); a present title, index or content is written as sent, a present status is the stored one with the sent slug, a present assignee id is the stored user with it (or none for null), present label ids go through the label resolver. |
| `TaskMapper.Update` | src/main/java/hexlet/code/mapper/TaskMapper.java:55-60 | Writes the task object to exactly the value `ApplyUpdate` gives; on failure reports the same error and leaves the object unchanged; id and creation date never change. |
| `TaskMapperProperties.UpdateAgreesWithCreate` | src/main/java/hexlet/code/mapper/TaskMapper.java:41-60 | A present field is written with the same renames and resolvers as the create mapping: an update carrying every field of a create payload yields the created task, keeping only the target's id and creation date, and fails exactly when the create does. |
| `TaskMapperProperties.NoChangesIsIdentity` | src/main/java/hexlet/code/mapper/TaskMapper.java:28 | An update that mentions no field leaves the task as it was. |
| `TaskMapperProperties.UpdateIdempotent` | src/main/java/hexlet/code/mapper/TaskMapper.java:55-60 | Applying a successful update a second time changes nothing more. |
| `TaskMapperProperties.UpdateThenRead` | src/main/java/hexlet/code/mapper/TaskMapper.java:48-60 | After a successful update the view shows each present field as sent and each absent field as before; id and creation date are kept. |
| `TaskModel.Task.constructor` | src/main/java/hexlet/code/model/Task.java:29-53 | A new task has its name and status, no id, creation date, index, description or assignee, and an empty label set. |
| `Repositories.StoredStatusIdentity` | src/main/java/hexlet/code/model/TaskStatus.java:28-44 | Among stored statuses, id-only equality, equality of slugs and equality of names each coincide with equality of the whole status. |
| `Examples.SeededValid` | src/main/java/hexlet/code/component/DataInitializer.java:30-45 | The startup data (one user, five statuses, two labels) satisfies the repository invariant. |
| `Examples.CreateScenario` | src/test/java/hexlet/code/controller/api/TasksControllerTests.java:119-142 | Creating "Task 1" with status `to_be_fixed` and assignee 1 gives that status and user, and reads back with every sent field. |
| `Examples.CreateWithUnknownStatus` | src/main/java/hexlet/code/mapper/TaskMapper.java:62-66 | A create payload whose slug no status carries fails with NotFound. |
| `Examples.UpdateNullTitleOrder` | src/main/java/hexlet/code/mapper/TaskMapper.java:55-72 | A null title sent with an unknown status or an unknown assignee fails with NotFound; with a known status it fails with InvalidInput. |
| `Examples.CreateWithUnknownLabel` | src/main/java/hexlet/code/mapper/TaskMapper.java:74-78 | Asking for labels 1 and 99 gives the task label 1 only. |
| `Examples.UpdateScenario` | src/test/java/hexlet/code/controller/api/TasksControllerTests.java:152-173 | The update sending title, index, content, status and assignee succeeds on any task and reads back with those values, the task's labels and id kept. |

## Left out

- Task filtering (the `titleCont`, `assigneeId`, `status`, `labelId` parameters): the code that combines them into a query is not part of this model, only the parameter holder is.
- Controllers, services, HTTP status codes and the `X-Total-Count` header: transport and one-line repository delegation.
- JSON binding, including the external name `assignee_id` of the assignee id: serialization is library behaviour.
- The JSON-nullable and reference mappers are not part of this model. An explicitly null update field is assumed to be passed to the same resolver as a create field: it clears `index`, `content` and the assignee, empties the labels, and makes the status lookup fail.
- `TaskMapper.ApplyUpdate`: an explicitly null title is reported as InvalidInput once the status and assignee lookups have succeeded (a failed lookup throws first in the source); in the source the null is written and the not-null constraint on the task name rejects it when the task is persisted.
- `TaskMapper.Update`: the source writes fields one at a time in an order generated by the mapping library and may throw after writing some of them, leaving the rollback to the transaction; the model resolves every reference first and writes nothing on failure.
- `TaskModel.Task.constructor`: `Task` has only the implicit no-arg constructor, whose new object has a null name and status until the mapper's setters run; a task whose name or status is null cannot be represented, so the model's constructor takes those two fields.
- Persistence: id generation, the clock behind `createdAt`, cascades, eager fetching and transactions. Ids and creation dates are only carried along, never produced.
- The debug output of the label resolvers.
- Label equality: `Label` is not part of this model beyond its id, name and creation date, and labels are compared as whole values. Status equality by id is the predicate `SameStatus`; Dafny compares datatypes field by field, and `StoredStatusIdentity` shows the two agree for stored statuses.
- Integer widths: `Integer` and `Long` are range-restricted types; nothing in the mapper does arithmetic, so no wrap-around arises.
- User, label and status payload validation, credentials and the startup data loader, which serves only as a fixture here.
