/** The admin bootstrap at startup (src/startup/ensure-admin.ts): when no
    admin exists and ADMIN_EMAIL and ADMIN_PASSWORD are set, the user with
    that email is promoted, or else a new admin is created. */
module EnsureAdmin {
  import opened Common
  import opened Users

  /** The ADMIN_* environment variables; `None` is unset. */
  datatype AdminEnv = AdminEnv(email: Option<string>, password: Option<string>, name: Option<string>, region: Option<string>)

  datatype AdminSeedConfig = AdminSeedConfig(email: string, password: string, name: string, region: string)

  const DefaultAdminName: string := "Admin"

  /** getAdminSeedConfig: none unless email and password are set and
      non-empty; an unset or empty name is "Admin", an unset or empty region "". */
  function GetAdminSeedConfig(env: AdminEnv): (c: Option<AdminSeedConfig>)
    ensures c.None? <==> !Truthy(env.email) || !Truthy(env.password)
    ensures c.Some? ==> c.value.email == env.email.value && c.value.password == env.password.value
    ensures c.Some? ==> c.value.name == (if Truthy(env.name) then env.name.value else DefaultAdminName)
    ensures c.Some? ==> c.value.region == (if Truthy(env.region) then env.region.value else "")
    ensures c.Some? ==> c.value.email != "" && c.value.password != "" && c.value.name != ""
  {
    if !Truthy(env.email) || !Truthy(env.password) then None
    else Some(AdminSeedConfig(
      env.email.value,
      env.password.value,
      if Truthy(env.name) then env.name.value else DefaultAdminName,
      if Truthy(env.region) then env.region.value else ""))
  }

  /** The user `id` made an admin, nothing else changed. */
  function Promote(users: map<string, User>, id: string): (r: map<string, User>)
    requires id in users
    ensures HasAdmin(r)
    ensures r.Keys == users.Keys && r[id] == users[id].(role := AdminRole)
    ensures forall k :: k in users && k != id ==> r[k] == users[k]
    ensures EmailsUnique(users) ==> EmailsUnique(r)
  {
    var r := users[id := users[id].(role := AdminRole)];
    assert r[id].role == AdminRole;
    r
  }

  /** The new admin document of the seed config. */
  function NewAdmin(c: AdminSeedConfig, hashOf: string -> string): (u: User)
    ensures u.email == c.email && u.password == hashOf(c.password) && u.role == AdminRole
    ensures u.name == c.name && u.region == Some(c.region) && u.vehicles == [] && u.tickets == []
  {
    User(c.name, c.email, hashOf(c.password), Some(c.region), AdminRole, [], [])
  }

  /** The collection with the new admin stored under the fresh id. */
  function Create(users: map<string, User>, freshId: string, c: AdminSeedConfig, hashOf: string -> string): (r: map<string, User>)
    requires freshId !in users
    ensures HasAdmin(r)
    ensures r.Keys == users.Keys + {freshId} && r[freshId] == NewAdmin(c, hashOf)
    ensures forall k :: k in users ==> r[k] == users[k]
    ensures EmailsUnique(users) && !EmailTaken(users, c.email) ==> EmailsUnique(r)
  {
    var r := users[freshId := NewAdmin(c, hashOf)];
    assert r[freshId].role == AdminRole;
    r
  }

  /** What the bootstrap did; `Failed` is an error it logged and swallowed. */
  datatype AdminOutcome = AdminExists | NoConfig | PromotedUser | CreatedAdmin | Failed

  /** Where a store call or the hasher can fail. */
  datatype AdminFault = NoAdminFault | FindAdminFails | FindUserFails | HashFails | SaveFails

  /** ensureAdminUser over the user table. `freshId` is the id the new
      document is given. */
  method EnsureAdminUser(table: UserTable, env: AdminEnv, freshId: string, hashOf: string -> string, fault: AdminFault)
    returns (outcome: AdminOutcome)
    requires freshId !in table.users
    modifies table
    ensures fault == FindAdminFails ==> outcome == Failed && table.users == old(table.users)
    ensures fault != FindAdminFails && HasAdmin(old(table.users)) ==> outcome == AdminExists && table.users == old(table.users)
    ensures fault != FindAdminFails && !HasAdmin(old(table.users)) && GetAdminSeedConfig(env).None? ==>
              outcome == NoConfig && table.users == old(table.users)
    ensures outcome == PromotedUser ==>
              exists id :: id in old(table.users) && old(table.users)[id].email == GetAdminSeedConfig(env).value.email
                           && table.users == Promote(old(table.users), id)
    ensures outcome == CreatedAdmin ==>
              !EmailTaken(old(table.users), GetAdminSeedConfig(env).value.email)
              && table.users == Create(old(table.users), freshId, GetAdminSeedConfig(env).value, hashOf)
    ensures outcome == Failed ==> table.users == old(table.users)
    ensures fault == NoAdminFault && GetAdminSeedConfig(env).Some? ==> HasAdmin(table.users)
    ensures !HasAdmin(old(table.users)) && GetAdminSeedConfig(env).Some? && fault == NoAdminFault ==>
              (outcome == PromotedUser <==> EmailTaken(old(table.users), GetAdminSeedConfig(env).value.email))
              && (outcome == CreatedAdmin <==> !EmailTaken(old(table.users), GetAdminSeedConfig(env).value.email))
    ensures EmailsUnique(old(table.users)) ==> EmailsUnique(table.users)
  {
    if fault == FindAdminFails {
      return Failed;
    }
    if HasAdmin(table.users) {
      return AdminExists;
    }
    var seedConfig := GetAdminSeedConfig(env);
    if seedConfig.None? {
      return NoConfig;
    }
    var config := seedConfig.value;
    if fault == FindUserFails {
      return Failed;
    }
    if EmailTaken(table.users, config.email) {
      var id :| id in table.users && table.users[id].email == config.email;
      if fault == SaveFails {
        return Failed;
      }
      table.users := Promote(table.users, id);
      return PromotedUser;
    }
    if fault == HashFails {
      return Failed;
    }
    if fault == SaveFails {
      return Failed;
    }
    table.users := Create(table.users, freshId, config, hashOf);
    outcome := CreatedAdmin;
  }
}
