/** Scalar types of the JVM and the two entities the task mapper only looks up. */
module Entities {
  import opened Wrappers

  /** A Java `Integer` value. */
  type Int32 = x: int | -0x8000_0000 <= x < 0x8000_0000

  /** A Java `Long` value: the type of every entity id. */
  type Int64 = x: int | -0x8000_0000_0000_0000 <= x < 0x8000_0000_0000_0000

  /** A `java.time.LocalDate`, as a count of days since the epoch. */
  datatype LocalDate = LocalDate(epochDay: int)

  /** A user, as far as a task refers to one (credentials are not part of this model). */
  datatype User = User(id: Int64, email: string, firstName: Option<string>, lastName: Option<string>,
                       createdAt: Option<LocalDate>)

  /** A label that tasks may carry. */
  datatype Label = Label(id: Int64, name: string, createdAt: Option<LocalDate>)
}
