/** The three repositories the task mapper reads, as finite maps from id to entity. */
module Repositories {
  import opened Wrappers
  import opened Entities
  import opened StatusModel

  /** Every user is stored under its own id. */
  predicate UsersKeyed(users: map<Int64, User>) {
    forall k :: k in users ==> users[k].id == k
  }

  /** Every label is stored under its own id. */
  predicate LabelsKeyed(labels: map<Int64, Label>) {
    forall k :: k in labels ==> labels[k].id == k
  }

  /** Every status is stored under its own id, satisfies its size constraints,
      and no two statuses share a name or a slug. */
  predicate StatusesValid(statuses: map<Int64, TaskStatus>) {
    && (forall k :: k in statuses ==> statuses[k].id == k && WellFormed(statuses[k]))
    && (forall k1, k2 :: k1 in statuses && k2 in statuses && k1 != k2 ==>
          statuses[k1].name != statuses[k2].name && statuses[k1].slug != statuses[k2].slug)
  }

  /** The user, status and label repositories the mapper is wired to. */
  datatype Repositories = Repositories(users: map<Int64, User>,
                                       statuses: map<Int64, TaskStatus>,
                                       labels: map<Int64, Label>)
  {
    predicate Valid() {
      UsersKeyed(users) && StatusesValid(statuses) && LabelsKeyed(labels)
    }
  }

  /** Among stored statuses, id-only equality coincides with equality of every field,
      and so does equality of slugs. */
  lemma StoredStatusIdentity(repo: Repositories, a: TaskStatus, b: TaskStatus)
    requires repo.Valid()
    requires a in repo.statuses.Values && b in repo.statuses.Values
    ensures SameStatus(a, b) <==> a == b
    ensures a.slug == b.slug <==> a == b
    ensures a.name == b.name <==> a == b
  {
    var ka :| ka in repo.statuses && repo.statuses[ka] == a;
    var kb :| kb in repo.statuses && repo.statuses[kb] == b;
    assert a.id == ka && b.id == kb;
  }
}
