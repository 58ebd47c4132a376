/** The admin user update (updateUser in src/controllers/admin-controllers.ts,
    with the request checks of src/routes/admin-routes.ts): the request is
    checked, the user looked up, then email, name, region, role and password
    are merged field by field behind their guards and the user saved. */
module AdminUpdate {
  import opened Common
  import opened Users

  /** A body field as the controller sees it: absent, a string, or some
      other JSON value, carried with the text the request checks read of it. */
  datatype BodyValue = Missing | Str(s: string) | NonString(text: string)

  /** The text the request checks read of a present field. */
  function TextOf(v: BodyValue): string
    requires !v.Missing?
  {
    if v.Str? then v.s else v.text
  }

  datatype UpdateBody = UpdateBody(name: BodyValue, region: BodyValue, email: BodyValue, role: BodyValue, password: BodyValue)

  /** The route's checks: a non-empty user id, then every present field
      checked as optional().…: name and region not empty, email accepted by
      normalizeEmail().isEmail() (the parameter `emailCheck`, which gives the
      normalised address), role one of "admin" and "user", password at
      least 6 characters. */
  predicate Validate(userId: string, body: UpdateBody, emailCheck: string -> Option<string>)
  {
    && userId != ""
    && (body.name.Missing? || TextOf(body.name) != "")
    && (body.region.Missing? || TextOf(body.region) != "")
    && (body.email.Missing? || emailCheck(TextOf(body.email)).Some?)
    && (body.role.Missing? || TextOf(body.role) == "admin" || TextOf(body.role) == "user")
    && (body.password.Missing? || |TextOf(body.password)| >= 6)
  }

  /** The email the controller reads after the sanitiser ran: the
      normalised address when one was sent. */
  function SanitizedEmail(body: UpdateBody, emailCheck: string -> Option<string>): Option<string>
  {
    if body.email.Missing? then None
    else emailCheck(TextOf(body.email))
  }

  /** The request carries an email other than the user's; only then is
      the collection searched for it. */
  predicate ChangesEmail(u: User, body: UpdateBody, emailCheck: string -> Option<string>)
  {
    SanitizedEmail(body, emailCheck).Some? && SanitizedEmail(body, emailCheck).value != u.email
  }

  /** The user as returned, without its password. */
  datatype UserView = UserView(id: string, name: string, email: string, region: Option<string>, role: Role,
                               vehicles: seq<string>, tickets: seq<string>)

  function ViewOf(id: string, u: User): (v: UserView)
    ensures v.id == id && v.name == u.name && v.email == u.email && v.region == u.region && v.role == u.role
    ensures v.vehicles == u.vehicles && v.tickets == u.tickets
  {
    UserView(id, u.name, u.email, u.region, u.role, u.vehicles, u.tickets)
  }

  datatype UpdateResponse = Updated(view: UserView) | Failed(status: int)

  /** Where a call into the store or the hasher can fail (a 500). */
  datatype UpdateFault = NoUpdateFault | FindByIdFails | FindEmailFails | HashFails | SaveFails

  /** The fields the request changes on `u`, email excluded. */
  function MergeFields(u: User, body: UpdateBody, hashOf: string -> string): (m: User)
    ensures m.email == u.email && m.vehicles == u.vehicles && m.tickets == u.tickets
    ensures m.name == (if body.name.Str? then body.name.s else u.name)
    ensures m.region == (if body.region.Str? then Some(body.region.s) else u.region)
    ensures (body.role == Str("admin") ==> m.role == AdminRole)
         && (body.role == Str("user") ==> m.role == UserRole)
         && (body.role != Str("admin") && body.role != Str("user") ==> m.role == u.role)
    ensures body.password.Str? ==> m.password == hashOf(body.password.s)
    ensures !body.password.Str? ==> m.password == u.password
  {
    u.(name := if body.name.Str? then body.name.s else u.name,
       region := if body.region.Str? then Some(body.region.s) else u.region,
       role := if body.role == Str("admin") then AdminRole else if body.role == Str("user") then UserRole else u.role,
       password := if body.password.Str? then hashOf(body.password.s) else u.password)
  }

  datatype UpdateResult = UpdateResult(response: UpdateResponse, users: map<string, User>)

  /** The request's effect on the user collection and its response. */
  function UpdateUserOutcome(users: map<string, User>, userId: string, body: UpdateBody,
                             emailCheck: string -> Option<string>, hashOf: string -> string,
                             fault: UpdateFault): (r: UpdateResult)
    ensures !Validate(userId, body, emailCheck) ==> r == UpdateResult(Failed(422), users)
    ensures Validate(userId, body, emailCheck) && fault == FindByIdFails ==> r == UpdateResult(Failed(500), users)
    ensures Validate(userId, body, emailCheck) && fault != FindByIdFails && userId !in users ==>
              r == UpdateResult(Failed(404), users)
    ensures r.response.Failed? ==> r.users == users
    ensures var e := SanitizedEmail(body, emailCheck);
            Validate(userId, body, emailCheck) && fault != FindByIdFails && fault != FindEmailFails && userId in users
            && e.Some? && e.value != users[userId].email && EmailTaken(users, e.value) ==>
              r == UpdateResult(Failed(422), users)
    ensures r.response.Updated? ==>
              && userId in users && r.users.Keys == users.Keys
              && r.users == users[userId := r.users[userId]]
              && r.response.view == ViewOf(userId, r.users[userId])
              && r.users[userId].email == (if SanitizedEmail(body, emailCheck).Some? then SanitizedEmail(body, emailCheck).value
                                           else users[userId].email)
              && r.users[userId] == MergeFields(users[userId], body, hashOf).(email := r.users[userId].email)
    ensures r.response.Updated? <==>
              && Validate(userId, body, emailCheck) && userId in users
              && fault != FindByIdFails && fault != SaveFails
              && !(ChangesEmail(users[userId], body, emailCheck)
                   && (fault == FindEmailFails || EmailTaken(users, SanitizedEmail(body, emailCheck).value)))
              && !(body.password.Str? && fault == HashFails)
  {
    if !Validate(userId, body, emailCheck) then UpdateResult(Failed(422), users)
    else if fault == FindByIdFails then UpdateResult(Failed(500), users)
    else if userId !in users then UpdateResult(Failed(404), users)
    else
      var u := users[userId];
      var e := SanitizedEmail(body, emailCheck);
      var changesEmail := ChangesEmail(u, body, emailCheck);
      if changesEmail && fault == FindEmailFails then UpdateResult(Failed(500), users)
      else if changesEmail && EmailTaken(users, e.value) then UpdateResult(Failed(422), users)
      else
        var merged := MergeFields(u.(email := if changesEmail then e.value else u.email), body, hashOf);
        if body.password.Str? && fault == HashFails then UpdateResult(Failed(500), users)
        else if fault == SaveFails then UpdateResult(Failed(500), users)
        else UpdateResult(Updated(ViewOf(userId, merged)), users[userId := merged])
  }

  /** Sequential updates keep the unique-email rule of the collection. */
  lemma UpdateKeepsEmailsUnique(users: map<string, User>, userId: string, body: UpdateBody,
                                emailCheck: string -> Option<string>, hashOf: string -> string, fault: UpdateFault)
    requires EmailsUnique(users)
    ensures EmailsUnique(UpdateUserOutcome(users, userId, body, emailCheck, hashOf, fault).users)
  {
    var r := UpdateUserOutcome(users, userId, body, emailCheck, hashOf, fault);
    if r.response.Updated? {
      var n := r.users[userId];
      forall a, b | a in r.users && b in r.users && a != b
        ensures r.users[a].email != r.users[b].email
      {
        if a == userId || b == userId {
          var other := if a == userId then b else a;
          assert r.users[other] == users[other];
          if n.email != users[userId].email {
            assert !EmailTaken(users, n.email);
          }
        }
      }
    }
  }

  /** updateUser over the user table: the guards run in the source's
      order, the user is changed field by field and saved once at the end. */
  method UpdateUser(table: UserTable, userId: string, body: UpdateBody,
                    emailCheck: string -> Option<string>, hashOf: string -> string, fault: UpdateFault)
    returns (response: UpdateResponse)
    modifies table
    ensures var r := UpdateUserOutcome(old(table.users), userId, body, emailCheck, hashOf, fault);
            response == r.response && table.users == r.users
  {
    if !Validate(userId, body, emailCheck) {
      return Failed(422);
    }
    if fault == FindByIdFails {
      return Failed(500);
    }
    if userId !in table.users {
      return Failed(404);
    }
    var user := table.users[userId];
    var email := SanitizedEmail(body, emailCheck);
    if email.Some? && email.value != user.email {
      if fault == FindEmailFails {
        return Failed(500);
      }
      if EmailTaken(table.users, email.value) {
        return Failed(422);
      }
      user := user.(email := email.value);
    }
    if body.name.Str? {
      user := user.(name := body.name.s);
    }
    if body.region.Str? {
      user := user.(region := Some(body.region.s));
    }
    if body.role == Str("admin") {
      user := user.(role := AdminRole);
    } else if body.role == Str("user") {
      user := user.(role := UserRole);
    }
    if body.password.Str? {
      if fault == HashFails {
        return Failed(500);
      }
      user := user.(password := hashOf(body.password.s));
    }
    if fault == SaveFails {
      return Failed(500);
    }
    table.users := table.users[userId := user];
    response := Updated(ViewOf(userId, user));
  }
}
