/** The task status entity: a named workflow state with a unique slug. */
module StatusModel {
  import opened Wrappers
  import opened Entities

  /** A stored task status. The slug is the identifier clients use for it. */
  datatype TaskStatus = TaskStatus(id: Int64, name: string, slug: string, createdAt: Option<LocalDate>)

  /** The size constraints on a status: name and slug each have at least one character. */
  predicate WellFormed(s: TaskStatus) {
    |s.name| >= 1 && |s.slug| >= 1
  }

  /** Entity equality of statuses, which compares ids only. */
  predicate SameStatus(a: TaskStatus, b: TaskStatus) {
    a.id == b.id
  }
}
