/** The user collection (src/models/user.ts) shared by the charging store,
    the admin controller and the admin bootstrap. */
module Users {
  import opened Common

  datatype Role = AdminRole | UserRole

  /** A user document; `password` holds the stored (hashed) password. */
  datatype User = User(
    name: string,
    email: string,
    password: string,
    region: Option<string>,
    role: Role,
    vehicles: seq<string>,
    tickets: seq<string>)

  /** The unique index on `email`. */
  ghost predicate EmailsUnique(users: map<string, User>)
  {
    forall a, b :: a in users && b in users && a != b ==> users[a].email != users[b].email
  }

  /** Some user holds this email (User.findOne({ email })). */
  predicate EmailTaken(users: map<string, User>, email: string)
  {
    exists id :: id in users && users[id].email == email
  }

  /** Some user is an admin (User.findOne({ role: "admin" })). */
  predicate HasAdmin(users: map<string, User>)
  {
    exists id :: id in users && users[id].role == AdminRole
  }

  /** The user table as a mutable collection. */
  class UserTable {
    var users: map<string, User>

    constructor (initial: map<string, User>)
      ensures users == initial
    {
      users := initial;
    }
  }
}
