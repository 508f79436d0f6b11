/** The shapes of the stored records the core works on. */
module Models {
  import opened Wrappers

  /** A point in time, as JavaScript's `Date` holds it: milliseconds since the Unix epoch. */
  type Date = int

  /**
   * A user row as the data store holds it (app/models/User.ts). Role and status are
   * kept as the strings the store returns; the controller never inspects them.
   */
  datatype User = User(
    id: string,
    name: string,
    email: string,
    password: string,
    role: string,
    status: string,
    phone: Option<string>,
    address: Option<string>,
    createdAt: Date,
    updatedAt: Date)
}
