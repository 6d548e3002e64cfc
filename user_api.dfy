/**
 * The users-permissions user controller (extensions/users-permissions/controllers/user/api.js):
 * `create` admits an invited person as a user and enrols a Trainee in a
 * cohort-program; `update` validates and applies a change to a user.
 */
module UserApi {
  import opened Wrappers
  import opened Json
  import opened Store
  import opened Http
  import opened Database
  import opened Query
  import opened DatabaseWrites
  import opened Selector
  import Email

  /** The users-permissions `hashPassword` applied to a password. */
  type Hasher = Value -> Value

  function Filter(key: string, v: Value): Value {
    Obj(map[key := v])
  }

  // ---------------------------------------------------------------------
  // create
  // ---------------------------------------------------------------------

  /** `cohortProgram || defaultCohortProgram`: the invite's own schedule when it names
      one that exists, the default otherwise. */
  function Schedule(t: Tables, invite: Record, default: Option<Record>): (r: Option<Record>)
    ensures var schedule := Get(invite, "cohort_program_schedule");
      r == if Truthy(schedule) && FindOne(t, CohortProgramCollection, ById(schedule)).Some?
           then FindOne(t, CohortProgramCollection, ById(schedule)) else default
  {
    var schedule := Get(invite, "cohort_program_schedule");
    var explicit := if Truthy(schedule) then GetOne(t, "cohort-program", Filter("id", schedule)) else None;
    if explicit.Some? then explicit else default
  }

  /** The role of the user who sent the invite, when it has an inviter. Reading `role`
      of a missing user, or `name` of a missing role, throws. */
  function InviterRole(t: Tables, invite: Record): (r: Outcome<Option<(Record, Record)>>)
    ensures r.Ok? && r.value.None? <==> !Truthy(Get(invite, "inviter"))
    ensures r.Ok? && r.value.Some? ==>
      var (user, role) := r.value.value;
      && user in Rows(t, UserCollection) && Get(user, "id") == Get(invite, "inviter")
      && role in Rows(t, RoleCollection) && Get(role, "id") == Get(user, "role")
    ensures r.Err? ==> Truthy(Get(invite, "inviter"))
  {
    var inviter := Get(invite, "inviter");
    if !Truthy(inviter) then Ok(None)
    else
      var invitingUser := GetOne(t, "user", Filter("id", inviter));
      if invitingUser.None? then Err(TypeError(CannotRead("role", Null)))
      else
        var inviterRole := GetOne(t, "role", Filter("id", Get(invitingUser.value, "role")));
        if inviterRole.None? then Err(TypeError(CannotRead("name", Null)))
        else Ok(Some((invitingUser.value, inviterRole.value)))
  }

  /** `manager`: `[invitingUser.id]` when the inviter's role is named exactly "Manager",
      undefined otherwise. */
  function Sponsor(t: Tables, invite: Record): (r: Outcome<Value>)
    ensures r.Err? <==> InviterRole(t, invite).Err?
    ensures r.Ok? ==> r.value == Undefined || r.value.Arr?
    ensures r.Ok? && r.value.Arr? <==>
      InviterRole(t, invite).Ok? && InviterRole(t, invite).value.Some?
      && Get(InviterRole(t, invite).value.value.1, "name") == Str("Manager")
    ensures r.Ok? && r.value.Arr? ==> r.value.items == [Get(InviterRole(t, invite).value.value.0, "id")]
  {
    var found :- InviterRole(t, invite);
    if found.Some? && StrictEquals(Get(found.value.1, "name"), Str("Manager")) then
      Ok(Arr([Get(found.value.0, "id")]))
    else Ok(Undefined)
  }

  /** `invite.role ? [invite.role, "id"] : [advanced.default_role, "type"]`. */
  function RoleFilter(invite: Record, advanced: Record): (w: Value)
    ensures forall role :: Matches(role, w) <==>
      if Truthy(Get(invite, "role")) then Get(role, "id") == Get(invite, "role")
      else Get(role, "type") == Get(advanced, "default_role")
  {
    if Truthy(Get(invite, "role")) then Filter("id", Get(invite, "role"))
    else Filter("type", Get(advanced, "default_role"))
  }

  /** What `create` has worked out once every check has passed. */
  datatype Admission = Admission(invite: Record, cohortProgram: Option<Record>, manager: Value,
                                 role: Option<Record>, user: Record)

  /** Why `create` turns a person away. */
  datatype Refusal =
    | MissingEmail | MissingUsername | MissingPassword | NotInvited | UsernameTaken | EmailTaken
    | Threw(error: Thrown)

  function RefusalResponse(r: Refusal): Response {
    match r
    case MissingEmail => BadRequest("missing.email")
    case MissingUsername => BadRequest("missing.username")
    case MissingPassword => BadRequest("missing.password")
    case NotInvited => BadRequest("Auth.form.error.email.notFound")
    case UsernameTaken => BadRequest("Auth.form.error.username.taken")
    case EmailTaken => BadRequest("Auth.form.error.email.taken")
    case Threw(e) => ServerError(e)
  }

  /** `{ ...body, provider: "local", role }` with its email lowered. */
  function UserRecord(body: Record, role: Option<Record>, lower: Value): (u: Record)
    ensures u.Keys == body.Keys + {"email", "provider", "role"}
    ensures u["email"] == lower && u["provider"] == Str("local") && u["role"] == AsValue(role)
    ensures forall k :: k in body && k !in {"email", "provider", "role"} ==> u[k] == body[k]
  {
    (body + map["provider" := Str("local"), "role" := AsValue(role)])["email" := lower]
  }

  /** The checks of `create` in their order, ending in the user record to add. */
  function Admit(t: Tables, advanced: Record, body: Record, parseDate: DateParser, now: int): (r: Result<Admission, Refusal>)
    ensures r.Ok? ==> Truthy(Get(body, "email")) && Truthy(Get(body, "username")) && Truthy(Get(body, "password"))
    ensures r.Ok? ==> DefaultCohortProgram(t, parseDate, now).Ok?
  {
    if !Truthy(Get(body, "email")) then Err(MissingEmail)
    else if !Truthy(Get(body, "username")) then Err(MissingUsername)
    else if !Truthy(Get(body, "password")) then Err(MissingPassword)
    else Screened(t, advanced, body, DefaultCohortProgram(t, parseDate, now))
  }

  /** The checks after the required fields, given the default cohort-program (or the
      error computing it threw): the invite is looked up by the email as given. */
  function Screened(t: Tables, advanced: Record, body: Record, default: Outcome<Option<Record>>)
    : (r: Result<Admission, Refusal>)
    ensures default.Err? ==> r == Err(Threw(default.error))
    ensures default.Ok? && GetOne(t, "invite", Filter("email", Get(body, "email"))).None? ==> r == Err(NotInvited)
    ensures r.Ok? ==> GetOne(t, "invite", Filter("email", Get(body, "email"))) == Some(r.value.invite)
  {
    match default
    case Err(e) => Err(Threw(e))
    case Ok(d) =>
      match GetOne(t, "invite", Filter("email", Get(body, "email")))
      case None => Err(NotInvited)
      case Some(invite) => Invited(t, advanced, body, Schedule(t, invite, d), invite)
  }

  /** The checks after the invite is found. */
  function Invited(t: Tables, advanced: Record, body: Record, cohortProgram: Option<Record>, invite: Record)
    : (r: Result<Admission, Refusal>)
    ensures Sponsor(t, invite).Err? ==> r == Err(Threw(Sponsor(t, invite).error))
    ensures Sponsor(t, invite).Ok? && GetOne(t, "user", Filter("username", Get(body, "username"))).Some? ==>
      r == Err(UsernameTaken)
    ensures r.Ok? ==> r.value.invite == invite && r.value.cohortProgram == cohortProgram
                      && Get(body, "email").Str? && r.value.user == UserRecord(body, r.value.role, Str(Lower(body["email"].s)))
  {
    match Sponsor(t, invite)
    case Err(e) => Err(Threw(e))
    case Ok(manager) =>
      var role := GetOne(t, "role", RoleFilter(invite, advanced));
      if GetOne(t, "user", Filter("username", Get(body, "username"))).Some? then Err(UsernameTaken)
      else
        match ToLowerCase(Get(body, "email"))
        case Err(e) => Err(Threw(e))
        case Ok(lower) =>
          if Truthy(Get(advanced, "unique_email")) && GetOne(t, "user", Filter("email", lower)).Some? then
            Err(EmailTaken)
          else
            Ok(Admission(invite, cohortProgram, manager, role, UserRecord(body, role, lower)))
  }

  /** The three required fields are checked first, in order, before the store is read. */
  lemma MissingFieldsFirst(t: Tables, t': Tables, advanced: Record, body: Record, parseDate: DateParser, now: int)
    requires !Truthy(Get(body, "email")) || !Truthy(Get(body, "username")) || !Truthy(Get(body, "password"))
    ensures Admit(t, advanced, body, parseDate, now) == Admit(t', advanced, body, parseDate, now)
    ensures Admit(t, advanced, body, parseDate, now) == Err(
      if !Truthy(Get(body, "email")) then MissingEmail
      else if !Truthy(Get(body, "username")) then MissingUsername
      else MissingPassword)
  {
  }

  /** Without an invite for the email exactly as given, the person is not let in. */
  lemma UninvitedRejected(t: Tables, advanced: Record, body: Record, parseDate: DateParser, now: int)
    requires Truthy(Get(body, "email")) && Truthy(Get(body, "username")) && Truthy(Get(body, "password"))
    requires DefaultCohortProgram(t, parseDate, now).Ok?
    requires forall i :: 0 <= i < |Rows(t, InviteCollection)| ==> Get(Rows(t, InviteCollection)[i], "email") != Get(body, "email")
    ensures Admit(t, advanced, body, parseDate, now) == Err(NotInvited)
  {
    var rows := Rows(t, InviteCollection);
    var where := Filter("email", Get(body, "email"));
    forall i | 0 <= i < |rows| ensures !Matches(rows[i], where) {
      assert "email" in where.fields;
    }
  }

  /** An admitted person was invited under the email as given and has the invite's
      schedule or else the default. */
  lemma AdmittedInvite(t: Tables, advanced: Record, body: Record, default: Outcome<Option<Record>>)
    requires Screened(t, advanced, body, default).Ok?
    ensures var a := Screened(t, advanced, body, default).value;
      && default.Ok?
      && GetOne(t, "invite", Filter("email", Get(body, "email"))) == Some(a.invite)
      && a.cohortProgram == Schedule(t, a.invite, default.value)
      && Invited(t, advanced, body, a.cohortProgram, a.invite) == Ok(a)
  {
  }

  /** Once invited, the person gets the sponsor and role the invite leads to, needs a free
      username (and a free lower-case email when emails must be unique), and becomes a
      local user with the lower-case email and that role. */
  lemma InvitedFacts(t: Tables, advanced: Record, body: Record, cohortProgram: Option<Record>, invite: Record)
    requires Invited(t, advanced, body, cohortProgram, invite).Ok?
    ensures var a := Invited(t, advanced, body, cohortProgram, invite).value;
      && a.invite == invite && a.cohortProgram == cohortProgram
      && Sponsor(t, invite) == Ok(a.manager)
      && a.role == GetOne(t, "role", RoleFilter(invite, advanced))
      && GetOne(t, "user", Filter("username", Get(body, "username"))).None?
      && Get(body, "email").Str?
      && (Truthy(Get(advanced, "unique_email")) ==>
            GetOne(t, "user", Filter("email", Str(Lower(body["email"].s)))).None?)
      && a.user == UserRecord(body, a.role, Str(Lower(body["email"].s)))
  {
  }

  /** The enrolment `create` makes after adding the user: none unless the role is named
      exactly "Trainee", and the manager is attached only when there is one. Reading the
      cohort-program's id, or the role's name, of nothing throws. */
  function Enrolment(a: Admission, trainee: Value): (r: Outcome<Option<Record>>)
    ensures r.Err? <==> a.cohortProgram.None? || a.role.None?
    ensures r.Ok? && r.value.Some? <==> r.Ok? && Get(a.role.value, "name") == Str("Trainee")
    ensures r.Ok? && r.value.Some? ==>
      && r.value.value.Keys == {"trainee", "cohort_program_id"} + (if Truthy(a.manager) then {"manager"} else {})
      && r.value.value["trainee"] == trainee
      && r.value.value["cohort_program_id"] == Get(a.cohortProgram.value, "id")
      && (Truthy(a.manager) ==> r.value.value["manager"] == a.manager)
  {
    if a.cohortProgram.None? then Err(TypeError(CannotRead("id", Undefined)))
    else if a.role.None? then Err(TypeError(CannotRead("name", Null)))
    else if StrictEquals(Get(a.role.value, "name"), Str("Trainee")) then
      var userProgram := map["trainee" := trainee, "cohort_program_id" := Get(a.cohortProgram.value, "id")];
      Ok(Some(if Truthy(a.manager) then userProgram["manager" := a.manager] else userProgram))
    else Ok(None)
  }

  /** The users-permissions `add` and `edit`: a truthy password is stored hashed, and
      every other field as given. */
  function Hashed(user: Record, hash: Hasher): (r: Record)
    ensures r.Keys == user.Keys
    ensures Truthy(Get(user, "password")) ==> r["password"] == hash(user["password"])
    ensures forall k :: k in user && (k != "password" || !Truthy(user[k])) ==> r[k] == user[k]
  {
    if Truthy(Get(user, "password")) then user["password" := hash(user["password"])] else user
  }

  /** After the user is added: the enrolment, if any, is created as a user-program. Any
      error thrown here turns the response into a bad request carrying its message. */
  method Enrol(cfg: Email.Config, store: EntityStore, outbox: Email.Outbox, valid: Validator,
               a: Admission, added: Record)
    returns (resp: Response)
    modifies store, outbox
    ensures outbox.started == old(outbox.started)
    ensures var enrolment := Enrolment(a, Get(added, "id"));
      && (enrolment.Err? ==> store.tables == old(store.tables) && store.nextId == old(store.nextId)
                             && resp == BadRequest(Message(enrolment.error)))
      && (enrolment.Ok? && enrolment.value.None? ==>
            store.tables == old(store.tables) && store.nextId == old(store.nextId) && resp == Created(added))
    ensures var enrolment := Enrolment(a, Get(added, "id"));
      enrolment.Ok? && enrolment.value.Some? ==>
        var data := enrolment.value.value;
        var p := Prepared(old(store.tables), UserProgramCollection, data);
        && World(store.tables, store.nextId) == Stored(old(World(store.tables, store.nextId)), valid, "user-program", data)
        && (!valid("user-program", data) ==> resp == BadRequest(Message(ValidationError)))
        && (valid("user-program", data) && p.Err? ==> resp == BadRequest(Message(p.error)))
        && (valid("user-program", data) && p.Ok? ==> resp == Created(added))
  {
    var enrolment := Enrolment(a, Get(added, "id"));
    if enrolment.Err? {
      return BadRequest(Message(enrolment.error));
    }
    resp := Created(added);
    if enrolment.value.Some? {
      assert ApiCollection("user-program") == UserProgramCollection;
      var r := DatabaseWrites.Create(cfg, store, outbox, valid, "user-program", enrolment.value.value, false);
      if r.Err? {
        return BadRequest(Message(r.error));
      }
    }
  }

  /** The users-permissions `add` of an admitted person's record, then the enrolment. */
  method AddUser(cfg: Email.Config, store: EntityStore, outbox: Email.Outbox, valid: Validator,
                 a: Admission, user: Record)
    returns (resp: Response)
    modifies store, outbox
    ensures outbox.started == old(outbox.started)
    ensures var row := NewRow(UserCollection, user, old(store.nextId));
      && Rows(store.tables, UserCollection) == Rows(old(store.tables), UserCollection) + [row]
      && var enrolment := Enrolment(a, IdFor(old(store.nextId)));
         && (enrolment.Err? || enrolment.value.None? ==>
               && store.tables == Inserted(old(store.tables), UserCollection, row)
               && store.nextId == old(store.nextId) + 1)
         && (enrolment.Err? ==> resp == BadRequest(Message(enrolment.error)))
         && (enrolment.Ok? && enrolment.value.None? ==>
               resp == Created(Populate(store.tables, UserCollection, row)))
  {
    var doc := new Doc(user);
    assert Prepared(store.tables, UserCollection, doc.fields) == Ok(doc.fields);
    var created := CreateRecord(cfg, store, outbox, UserCollection, doc);
    assert Notified(UserCollection, created.value.fields) == [];
    var added := created.value.fields;
    assert "id" !in Relations(UserCollection);
    assert Get(added, "id") == IdFor(old(store.nextId));
    resp := Enrol(cfg, store, outbox, valid, a, added);
  }

  /** `create(ctx)`: a refused person changes nothing; an admitted one is added as a user
      under the next id (the response is `created` with that user) and then enrolled. */
  method Create(cfg: Email.Config, store: EntityStore, outbox: Email.Outbox, valid: Validator, hash: Hasher,
                advanced: Record, body: Record, parseDate: DateParser, now: int)
    returns (resp: Response)
    modifies store, outbox
    ensures outbox.started == old(outbox.started)
    ensures var admitted := Admit(old(store.tables), advanced, body, parseDate, now);
      admitted.Err? ==> && resp == RefusalResponse(admitted.error)
                        && store.tables == old(store.tables) && store.nextId == old(store.nextId)
    ensures var admitted := Admit(old(store.tables), advanced, body, parseDate, now);
      admitted.Ok? ==>
        var row := NewRow(UserCollection, Hashed(admitted.value.user, hash), old(store.nextId));
        && Rows(store.tables, UserCollection) == Rows(old(store.tables), UserCollection) + [row]
        && var enrolment := Enrolment(admitted.value, IdFor(old(store.nextId)));
           && (enrolment.Err? || enrolment.value.None? ==>
                 && store.tables == Inserted(old(store.tables), UserCollection, row)
                 && store.nextId == old(store.nextId) + 1)
           && (enrolment.Err? ==> resp == BadRequest(Message(enrolment.error)))
           && (enrolment.Ok? && enrolment.value.None? ==>
                 resp == Created(Populate(store.tables, UserCollection, row)))
  {
    var admitted := Admit(store.tables, advanced, body, parseDate, now);
    if admitted.Err? {
      return RefusalResponse(admitted.error);
    }
    resp := AddUser(cfg, store, outbox, valid, admitted.value, Hashed(admitted.value.user, hash));
  }

  // ---------------------------------------------------------------------
  // update
  // ---------------------------------------------------------------------

  /** `a != b` between ids: null and undefined are equal to each other; a number and a
      string are compared by the number's decimal numeral. */
  predicate LooselyDiffer(a: Value, b: Value)
    ensures a.Str? && b.Str? ==> (LooselyDiffer(a, b) <==> a != b)
    ensures StrictEquals(a, b) ==> !LooselyDiffer(a, b)
    ensures (a.Null? || a.Undefined?) && (b.Null? || b.Undefined?) ==> !LooselyDiffer(a, b)
  {
    !(|| ((a.Null? || a.Undefined?) && (b.Null? || b.Undefined?))
      || StrictEquals(a, b)
      || (a.Num? && b.Str? && b.s == Decimal(a.n))
      || (a.Str? && b.Num? && a.s == Decimal(b.n)))
  }

  /** Another user than user `id`, found by `where`, already holds the value. */
  predicate TakenByOther(t: Tables, where: Value, id: Value) {
    var found := FindOne(t, UserCollection, where);
    found.Some? && LooselyDiffer(Get(found.value, "id"), id)
  }

  /** Why `update` refuses a change. */
  datatype Objection =
    | EmailNull | UsernameNull | PasswordNull | UsernameInUse | EmailInUse
    | Failed(error: Thrown)

  function ObjectionResponse(o: Objection): Response {
    match o
    case EmailNull => BadRequest("email.notNull")
    case UsernameNull => BadRequest("username.notNull")
    case PasswordNull => BadRequest("password.notNull")
    case UsernameInUse => BadRequest("Auth.form.error.username.taken")
    case EmailInUse => BadRequest("Auth.form.error.email.taken")
    case Failed(e) => ServerError(e)
  }

  /** The checks of `update` in their order, ending in the data to save. Reading the
      provider or the password of a user that does not exist throws. */
  function Revision(t: Tables, advanced: Record, id: Value, body: Record): (r: Result<Record, Objection>)
    ensures r.Ok? ==> ("email" in body ==> Truthy(body["email"])) && ("username" in body ==> Truthy(body["username"]))
    ensures r.Ok? ==> !("username" in body && TakenByOther(t, Filter("username", body["username"]), id))
    ensures r.Ok? ==> r.value.Keys <= body.Keys
  {
    var user := FindOne(t, UserCollection, ById(id));
    var email, username, password := Get(body, "email"), Get(body, "username"), Get(body, "password");
    if "email" in body && !Truthy(email) then Err(EmailNull)
    else if "username" in body && !Truthy(username) then Err(UsernameNull)
    else if "password" in body && !Truthy(password) && user.None? then Err(Failed(TypeError(CannotRead("provider", Null))))
    else if "password" in body && !Truthy(password) && StrictEquals(Get(user.value, "provider"), Str("local")) then
      Err(PasswordNull)
    else if "username" in body && TakenByOther(t, Filter("username", username), id) then Err(UsernameInUse)
    else
      var checked :- EmailRevision(t, advanced, id, body);
      if "password" in body && user.None? then Err(Failed(TypeError(CannotRead("password", Null))))
      else if "password" in body && StrictEquals(password, Get(user.value, "password")) then Ok(checked - {"password"})
      else Ok(checked)
  }

  /** With unique emails, a sent email must not belong to another user, and is then
      written back in lower case; otherwise the body is kept as sent. */
  function EmailRevision(t: Tables, advanced: Record, id: Value, body: Record): (r: Result<Record, Objection>)
    ensures !("email" in body && Truthy(Get(advanced, "unique_email"))) ==> r == Ok(body)
    ensures r.Ok? && "email" in body && Truthy(Get(advanced, "unique_email")) ==>
      && body["email"].Str?
      && !TakenByOther(t, Filter("email", Str(Lower(body["email"].s))), id)
      && r.value == body["email" := Str(Lower(body["email"].s))]
  {
    if "email" in body && Truthy(Get(advanced, "unique_email")) then
      match ToLowerCase(body["email"])
      case Err(e) => Err(Failed(e))
      case Ok(lower) =>
        if TakenByOther(t, Filter("email", lower), id) then Err(EmailInUse)
        else Ok(body["email" := lower])
    else Ok(body)
  }

  /** A present but empty email or username is refused, and so is an empty password of
      a local user (and only of one); these checks come before any uniqueness check. */
  lemma EmptyFieldsRefused(t: Tables, advanced: Record, id: Value, body: Record)
    ensures "email" in body && !Truthy(body["email"]) ==> Revision(t, advanced, id, body) == Err(EmailNull)
    ensures ("email" in body ==> Truthy(body["email"])) && "username" in body && !Truthy(body["username"]) ==>
      Revision(t, advanced, id, body) == Err(UsernameNull)
    ensures var user := FindOne(t, UserCollection, ById(id));
      (&& ("email" in body ==> Truthy(body["email"])) && ("username" in body ==> Truthy(body["username"]))
       && "password" in body && !Truthy(body["password"]) && user.Some?) ==>
        (Revision(t, advanced, id, body) == Err(PasswordNull) <==> StrictEquals(Get(user.value, "provider"), Str("local")))
  {
  }

  /** A user keeping their own username or email is no conflict: only another user's
      record with a different id counts. */
  lemma OwnValuesNoConflict(t: Tables, advanced: Record, id: Value, body: Record)
    ensures Revision(t, advanced, id, body) == Err(UsernameInUse) ==>
      "username" in body && TakenByOther(t, Filter("username", body["username"]), id)
    ensures Revision(t, advanced, id, body) == Err(EmailInUse) ==>
      && "email" in body && body["email"].Str? && Truthy(Get(advanced, "unique_email"))
      && TakenByOther(t, Filter("email", Str(Lower(body["email"].s))), id)
  {
  }

  /** Once the emptiness checks pass, a username held by another user is refused; so is,
      when emails must be unique and the username is free, an email whose lower-case form
      another user holds. */
  lemma ConflictsRefused(t: Tables, advanced: Record, id: Value, body: Record)
    requires "email" in body ==> Truthy(body["email"])
    requires "username" in body ==> Truthy(body["username"])
    requires var user := FindOne(t, UserCollection, ById(id));
      !("password" in body && !Truthy(body["password"]))
      || (user.Some? && !StrictEquals(Get(user.value, "provider"), Str("local")))
    ensures "username" in body && TakenByOther(t, Filter("username", body["username"]), id) ==>
      Revision(t, advanced, id, body) == Err(UsernameInUse)
    ensures (&& "email" in body && body["email"].Str? && Truthy(Get(advanced, "unique_email"))
             && !("username" in body && TakenByOther(t, Filter("username", body["username"]), id))
             && TakenByOther(t, Filter("email", Str(Lower(body["email"].s))), id)) ==>
      Revision(t, advanced, id, body) == Err(EmailInUse)
  {
  }

  /** The saved data is the body as sent, with the email lowered only when emails must be
      unique, and without the password when it equals the stored one. */
  lemma RevisionKeepsBody(t: Tables, advanced: Record, id: Value, body: Record)
    requires Revision(t, advanced, id, body).Ok?
    ensures var data := Revision(t, advanced, id, body).value;
      var user := FindOne(t, UserCollection, ById(id));
      && ("password" in body ==> user.Some?)
      && ("password" in data <==> "password" in body && !StrictEquals(body["password"], Get(user.value, "password")))
      && data.Keys == body.Keys - (if "password" in data then {} else {"password"})
      && (forall k :: k in data && k != "email" ==> data[k] == body[k])
      && ("email" in body ==>
            data["email"] == (if Truthy(Get(advanced, "unique_email")) then Str(Lower(body["email"].s)) else body["email"]))
  {
  }

  /** `update(ctx)`: the user service's `edit` reports a missing user as `entry.notFound`. */
  method Update(store: EntityStore, hash: Hasher, advanced: Record, id: Value, body: Record)
    returns (resp: Response)
    modifies store
    ensures var revised := Revision(old(store.tables), advanced, id, body);
      revised.Err? ==> resp == ObjectionResponse(revised.error) && store.tables == old(store.tables)
    ensures var revised := Revision(old(store.tables), advanced, id, body);
      var found := FindOne(old(store.tables), UserCollection, ById(id));
      revised.Ok? ==>
        && (found.None? ==> resp == ServerError(ServiceError("entry.notFound")) && store.tables == old(store.tables))
        && (found.Some? ==>
              var patch := StoredForm(UserCollection, Hashed(revised.value, hash));
              && store.tables == old(store.tables)[UserCollection :=
                   Patched(Rows(old(store.tables), UserCollection), ById(id), patch)]
              && resp == Sent(Populate(store.tables, UserCollection, found.value + patch)))
    ensures store.nextId == old(store.nextId)
  {
    var revised := Revision(store.tables, advanced, id, body);
    if revised.Err? {
      return ObjectionResponse(revised.error);
    }
    var entry := store.Update(UserCollection, ById(id), Hashed(revised.value, hash));
    if entry.None? {
      return ServerError(ServiceError("entry.notFound"));
    }
    resp := Sent(Populate(store.tables, UserCollection, entry.value));
  }
}
