/**
 * The user controller: reads and writes of users through the data store, with the
 * password replaced by its hash before it is written, a `select` that leaves the
 * password out of every answer, and one rule for turning a failure into an error.
 *
 * The data store is a parameter: reads see a snapshot of the rows, writes are told
 * what the store answers for the payload sent. `hash` stands for bcrypt.
 */
module UserController {
  import opened Wrappers
  import opened Models

  // ---- the projection ----

  /** A user as the controller returns it: every field but `password`. */
  datatype UserView = UserView(
    id: string,
    name: string,
    email: string,
    role: string,
    status: string,
    phone: Option<string>,
    address: Option<string>,
    createdAt: Date,
    updatedAt: Date)

  /** The `select` clause of getUsers, getUserById, createUser and updateUser. */
  function Select(u: User): UserView
  {
    UserView(u.id, u.name, u.email, u.role, u.status, u.phone, u.address, u.createdAt, u.updatedAt)
  }

  /** The row a projection came from, given the password it left out. */
  function WithPassword(v: UserView, password: string): User
  {
    User(v.id, v.name, v.email, password, v.role, v.status, v.phone, v.address, v.createdAt, v.updatedAt)
  }

  /**
   * The projection keeps everything but the password: the row can be rebuilt from
   * it and its password, and rebuilding then projecting gives the projection back.
   */
  lemma SelectRoundTrip(u: User, v: UserView, password: string)
    ensures WithPassword(Select(u), u.password) == u
    ensures Select(WithPassword(v, password)) == v
  {
  }

  /** Two rows project alike exactly when they differ at most in their passwords. */
  lemma SelectForgetsOnlyPassword(u: User, w: User)
    ensures Select(u) == Select(w) <==> u.(password := w.password) == w
  {
    if Select(u) == Select(w) {
      SelectRoundTrip(u, Select(w), w.password);
      SelectRoundTrip(w, Select(w), w.password);
    }
  }

  function SelectAll(rows: seq<User>): (vs: seq<UserView>)
    ensures |vs| == |rows| && forall i :: 0 <= i < |rows| ==> vs[i] == Select(rows[i])
  {
    if |rows| == 0 then [] else [Select(rows[0])] + SelectAll(rows[1..])
  }

  // ---- failures ----

  /** What a `catch` clause receives: an `Error` with its message, or any other thrown value. */
  datatype Cause = ErrorValue(message: string) | OtherValue

  /** The `Error` the controller throws. */
  datatype Error = Error(message: string)

  const FetchUsersFailed := "Failed to fetch users"
  const FetchUserFailed := "Failed to fetch user"
  const CreateUserFailed := "Failed to create user"
  const UpdateUserFailed := "Failed to update user"
  const DeleteUserFailed := "Failed to delete user"

  /** `new Error(error instanceof Error ? error.message : fallback)`. */
  function Rethrow(cause: Cause, fallback: string): (e: Error)
    ensures cause.ErrorValue? ==> e.message == cause.message
    ensures cause.OtherValue? ==> e.message == fallback
  {
    match cause
    case ErrorValue(message) => Error(message)
    case OtherValue => Error(fallback)
  }

  /** The store's answer to a write, projected, or its failure rethrown. */
  function Answer(stored: Result<User, Cause>, fallback: string): (r: Result<UserView, Error>)
    ensures r.Success? <==> stored.Success?
    ensures stored.Success? ==> r.value == Select(stored.value)
    ensures stored.Failure? ==> r.error == Rethrow(stored.error, fallback)
  {
    match stored
    case Success(u) => Success(Select(u))
    case Failure(cause) => Failure(Rethrow(cause, fallback))
  }

  // ---- getUsers ----

  /** Newest first: `createdAt` never increases along the list. */
  predicate NewestFirst(vs: seq<UserView>)
  {
    forall i, j :: 0 <= i < j < |vs| ==> vs[i].createdAt >= vs[j].createdAt
  }

  /** Every member of `vs` is at most as new as `t`. */
  predicate NoNewerThan(vs: seq<UserView>, t: Date)
  {
    forall i :: 0 <= i < |vs| ==> vs[i].createdAt <= t
  }

  lemma NoNewerThanPermutation(vs: seq<UserView>, ws: seq<UserView>, t: Date)
    requires multiset(vs) == multiset(ws) && NoNewerThan(ws, t)
    ensures NoNewerThan(vs, t)
  {
    forall i | 0 <= i < |vs|
      ensures vs[i].createdAt <= t
    {
      assert vs[i] in multiset(ws);
      var j :| 0 <= j < |ws| && ws[j] == vs[i];
    }
  }

  function InsertNewestFirst(v: UserView, vs: seq<UserView>): (r: seq<UserView>)
    requires NewestFirst(vs)
    ensures NewestFirst(r)
    ensures multiset(r) == multiset(vs) + multiset{v}
  {
    if |vs| == 0 then [v]
    else if vs[0].createdAt <= v.createdAt then [v] + vs
    else
      var rest := InsertNewestFirst(v, vs[1..]);
      assert vs == [vs[0]] + vs[1..];
      NoNewerThanPermutation(rest, vs[1..] + [v], vs[0].createdAt);
      [vs[0]] + rest
  }

  /** `orderBy: { createdAt: 'desc' }`; the order among equal dates is the store's to choose. */
  function SortNewestFirst(vs: seq<UserView>): (r: seq<UserView>)
    ensures NewestFirst(r)
    ensures multiset(r) == multiset(vs)
  {
    if |vs| == 0 then []
    else
      assert vs == [vs[0]] + vs[1..];
      InsertNewestFirst(vs[0], SortNewestFirst(vs[1..]))
  }

  /**
   * getUsers over the stored rows (or the failure reading them): all users, newest
   * first, each projected without its password.
   */
  function GetUsers(read: Result<seq<User>, Cause>): (r: Result<seq<UserView>, Error>)
    ensures r.Success? <==> read.Success?
    ensures read.Success? ==> NewestFirst(r.value) && multiset(r.value) == multiset(SelectAll(read.value))
    ensures read.Failure? ==> r.error == Rethrow(read.error, FetchUsersFailed)
  {
    match read
    case Success(rows) => Success(SortNewestFirst(SelectAll(rows)))
    case Failure(cause) => Failure(Rethrow(cause, FetchUsersFailed))
  }

  // ---- getUserById ----

  /** `findUnique({ where: { id } })` over the stored rows: the row with that id, if any. */
  function FindById(rows: seq<User>, id: string): (found: Option<User>)
    ensures found.Some? ==> found.value in rows && found.value.id == id
    ensures found.None? <==> forall i :: 0 <= i < |rows| ==> rows[i].id != id
  {
    if |rows| == 0 then None
    else if rows[0].id == id then Some(rows[0])
    else FindById(rows[1..], id)
  }

  /** getUserById: the projected user with that id, `null` when there is none, or the failure rethrown. */
  function GetUserById(read: Result<seq<User>, Cause>, id: string): (r: Result<Option<UserView>, Error>)
    ensures r.Success? <==> read.Success?
    ensures read.Success? && r.value.Some? ==>
      r.value.value.id == id && exists u :: u in read.value && u.id == id && Select(u) == r.value.value
    ensures read.Success? ==> (r.value.None? <==> forall i :: 0 <= i < |read.value| ==> read.value[i].id != id)
    ensures read.Failure? ==> r.error == Rethrow(read.error, FetchUserFailed)
  {
    match read
    case Success(rows) =>
      (match FindById(rows, id)
       case Some(u) => Success(Some(Select(u)))
       case None => Success(None))
    case Failure(cause) => Failure(Rethrow(cause, FetchUserFailed))
  }

  // ---- createUser ----

  /** What createUser receives: a user without `id`, `createdAt` and `updatedAt`. */
  datatype NewUser = NewUser(
    name: string,
    email: string,
    password: string,
    role: string,
    status: string,
    phone: Option<string>,
    address: Option<string>)

  /** `{ ...data, password: hashedPassword }`: always hashed, every other field copied. */
  function CreatePayload(data: NewUser, hash: string -> string): (p: NewUser)
    ensures p.password == hash(data.password)
    ensures p.(password := data.password) == data
  {
    data.(password := hash(data.password))
  }

  /** createUser: the store is sent the hashed payload; its answer comes back projected. */
  function CreateUser(data: NewUser, hash: string -> string, store: NewUser -> Result<User, Cause>): (r: Result<UserView, Error>)
    ensures r.Success? <==> store(CreatePayload(data, hash)).Success?
    ensures r.Success? ==> r.value == Select(store(CreatePayload(data, hash)).value)
    ensures r.Failure? ==> r.error == Rethrow(store(CreatePayload(data, hash)).error, CreateUserFailed)
  {
    Answer(store(CreatePayload(data, hash)), CreateUserFailed)
  }

  // ---- updateUser ----

  /** What updateUser receives: any subset of a user's fields. */
  datatype UserPatch = UserPatch(
    id: Option<string>,
    name: Option<string>,
    email: Option<string>,
    password: Option<string>,
    role: Option<string>,
    status: Option<string>,
    phone: Option<string>,
    address: Option<string>,
    createdAt: Option<Date>,
    updatedAt: Option<Date>)

  /** JavaScript truthiness of an optional string: present and not empty. */
  predicate Truthy(s: Option<string>)
  {
    s.Some? && s.value != ""
  }

  /**
   * The payload updateUser sends: the patch, with its password hashed only when it is
   * truthy. An absent or empty password is passed on as it came.
   */
  function UpdatePayload(data: UserPatch, hash: string -> string): (p: UserPatch)
    ensures Truthy(data.password) ==> p.password == Some(hash(data.password.value))
    ensures !Truthy(data.password) ==> p == data
    ensures data.password == Some("") ==> p.password == Some("")
    ensures p.(password := data.password) == data
  {
    if Truthy(data.password) then data.(password := Some(hash(data.password.value))) else data
  }

  /**
   * updateUser: copies the patch, overwrites the copy's password with its hash when the
   * patch's password is truthy, sends it to the store, and projects the answer.
   */
  method UpdateUser(id: string, data: UserPatch, hash: string -> string,
                    store: (string, UserPatch) -> Result<User, Cause>) returns (r: Result<UserView, Error>)
    ensures r == Answer(store(id, UpdatePayload(data, hash)), UpdateUserFailed)
  {
    var updateData := data;
    if data.password.Some? && data.password.value != "" {
      updateData := updateData.(password := Some(hash(data.password.value)));
    }
    var stored := store(id, updateData);
    match stored {
      case Success(u) =>
        r := Success(Select(u));
      case Failure(cause) =>
        r := Failure(Rethrow(cause, UpdateUserFailed));
    }
  }

  // ---- deleteUser ----

  /**
   * deleteUser has no `select`: the deleted row comes back whole, so unlike every other
   * answer of the controller it carries the stored password hash.
   */
  function DeleteUser(id: string, store: string -> Result<User, Cause>): (r: Result<User, Error>)
    ensures r.Success? <==> store(id).Success?
    ensures store(id).Success? ==> r.value == store(id).value
    ensures store(id).Failure? ==> r.error == Rethrow(store(id).error, DeleteUserFailed)
  {
    match store(id)
    case Success(u) => Success(u)
    case Failure(cause) => Failure(Rethrow(cause, DeleteUserFailed))
  }
}
