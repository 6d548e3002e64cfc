/**
 * The users-permissions `register` action
 * (extensions/users-permissions/controllers/Auth.js): a person registers only
 * when registration is open, with a password and an email, the password does
 * not look hashed, an invite exists for the email exactly as given, its role
 * exists and the email is well formed. The user is then stored with the email
 * in lower case, the invite's role, a hashed password and the local provider.
 */
module Auth {
  import opened Wrappers
  import opened Json
  import opened Store
  import opened Http
  import opened Query
  import Email

  /** The users-permissions `isHashed` check on a password. */
  type PasswordCheck = Value -> bool
  /** `emailRegExp.test(email)`. */
  type EmailCheck = Value -> bool
  /** The users-permissions `hashPassword(params)`. */
  type PasswordHasher = Record -> Value
  /** The message of the error the database throws when it refuses to add a user, if it does. */
  type Refuser = Record -> Option<string>
  /** The message of the error `sendConfirmationEmail` throws for a user, if it does. */
  type Confirmer = Record -> Option<string>
  /** The users-permissions `jwt.issue({ id })`. */
  type Issuer = Value -> Value

  function Filter(key: string, v: Value): Value {
    Obj(map[key := v])
  }

  /** Why `register` turns a person away. */
  datatype Refusal =
    | RegisterDisabled | PasswordMissing | EmailMissing | PasswordFormat
    | NotInvited | RoleNotFound | EmailFormat | EmailTaken
    | Threw(error: Thrown)

  function RefusalResponse(r: Refusal): Response {
    match r
    case RegisterDisabled => BadRequest("Auth.advanced.allow_register")
    case PasswordMissing => BadRequest("Auth.form.error.password.provide")
    case EmailMissing => BadRequest("Auth.form.error.email.provide")
    case PasswordFormat => BadRequest("Auth.form.error.password.format")
    case NotInvited => BadRequest("Auth.form.error.email.notFound")
    case RoleNotFound => BadRequest("Auth.form.error.role.notFound")
    case EmailFormat => BadRequest("Auth.form.error.email.format")
    case EmailTaken => BadRequest("Auth.form.error.email.taken")
    case Threw(e) => ServerError(e)
  }

  /** The body fields a person may not set. */
  const Protected: set<string> := {"confirmed", "confirmationToken", "resetPasswordToken"}

  /** `{ ..._.omit(body, [protected]), provider: "local" }`. */
  function Params(body: Record): (p: Record)
    ensures p.Keys == body.Keys - Protected + {"provider"}
    ensures p["provider"] == Str("local")
    ensures forall k :: k in body && k !in Protected && k != "provider" ==> p[k] == body[k]
  {
    (map k | k in body && k !in Protected :: body[k])["provider" := Str("local")]
  }

  /** `invite.role ? { id: invite.role } : { name: "Trainee" }`. */
  function RoleQuery(invite: Record): (w: Value)
    ensures forall role :: Matches(role, w) <==>
      if Truthy(Get(invite, "role")) then Get(role, "id") == Get(invite, "role") else Get(role, "name") == Str("Trainee")
  {
    if Truthy(Get(invite, "role")) then Filter("id", Get(invite, "role")) else Filter("name", Str("Trainee"))
  }

  /** The checks of `register` in their order, ending in the user to add. */
  function Registration(t: Tables, settings: Record, body: Record, isHashed: PasswordCheck, isEmail: EmailCheck,
                        hashPassword: PasswordHasher): (r: Result<Record, Refusal>)
    ensures r.Ok? ==> && Truthy(Get(settings, "allow_register"))
                      && Truthy(Get(body, "password")) && Truthy(Get(body, "email"))
                      && !isHashed(Get(body, "password"))
  {
    var params := Params(body);
    if !Truthy(Get(settings, "allow_register")) then Err(RegisterDisabled)
    else if !Truthy(Get(params, "password")) then Err(PasswordMissing)
    else if !Truthy(Get(params, "email")) then Err(EmailMissing)
    else if isHashed(Get(params, "password")) then Err(PasswordFormat)
    else Invited(t, settings, body, isEmail, hashPassword)
  }

  /** The checks that read the store: the invite is looked up by the email as sent,
      the role by the invite. */
  function Invited(t: Tables, settings: Record, body: Record, isEmail: EmailCheck, hashPassword: PasswordHasher)
    : (r: Result<Record, Refusal>)
    ensures var invite := FindOne(t, InviteCollection, Filter("email", Get(body, "email")));
      r.Ok? ==> && invite.Some? && FindOne(t, RoleCollection, RoleQuery(invite.value)).Some?
                && isEmail(Get(body, "email")) && Get(body, "email").Str?
  {
    var params := Params(body);
    match FindOne(t, InviteCollection, Filter("email", Get(body, "email")))
    case None => Err(NotInvited)
    case Some(invite) =>
      match FindOne(t, RoleCollection, RoleQuery(invite))
      case None => Err(RoleNotFound)
      case Some(role) =>
        if !isEmail(Get(params, "email")) then Err(EmailFormat)
        else
          match ToLowerCase(Get(params, "email"))
          case Err(e) => Err(Threw(e))
          case Ok(lower) => Completed(t, settings, Named(body, lower, role), hashPassword)
  }

  /** The parameters once the email is lowered and the role's id is set. */
  function Named(body: Record, lower: Value, role: Record): (p: Record)
    ensures p.Keys == body.Keys - Protected + {"provider", "email", "role"}
    ensures p["email"] == lower && p["role"] == Get(role, "id") && p["provider"] == Str("local")
    ensures forall k :: k in body && k !in Protected && k !in {"provider", "email", "role"} ==> p[k] == body[k]
  {
    Params(body)["email" := lower]["role" := Get(role, "id")]
  }

  /** The last steps: the password is hashed, an existing local user with the email, or
      with unique emails any existing user with it, refuses the registration, and the
      user is confirmed at once when no confirmation email is sent. */
  function Completed(t: Tables, settings: Record, params: Record, hashPassword: PasswordHasher)
    : (r: Result<Record, Refusal>)
    ensures r.Err? ==> r == Err(EmailTaken)
    ensures var user := FindOne(t, UserCollection, Filter("email", Get(params, "email")));
      r.Ok? ==> && (user.Some? ==> !StrictEquals(Get(user.value, "provider"), Get(params, "provider")))
                && (user.Some? ==> !Truthy(Get(settings, "unique_email")))
                && "password" in r.value && r.value["password"] == hashPassword(params)
  {
    var hashed := params["password" := hashPassword(params)];
    var user := FindOne(t, UserCollection, Filter("email", Get(params, "email")));
    if user.Some? && StrictEquals(Get(user.value, "provider"), Get(params, "provider")) then Err(EmailTaken)
    else if user.Some? && !StrictEquals(Get(user.value, "provider"), Get(params, "provider"))
         && Truthy(Get(settings, "unique_email"))
    then Err(EmailTaken)
    else if !Truthy(Get(settings, "email_confirmation")) then Ok(hashed["confirmed" := Bool(true)])
    else Ok(hashed)
  }

  /** The four checks on the request alone come first, in this order, before the store is read. */
  lemma RequestChecksFirst(t: Tables, t': Tables, settings: Record, body: Record, isHashed: PasswordCheck,
                           isEmail: EmailCheck, hashPassword: PasswordHasher)
    ensures var r := Registration(t, settings, body, isHashed, isEmail, hashPassword);
      var open, password, email := Truthy(Get(settings, "allow_register")), Get(body, "password"), Get(body, "email");
      && (!open ==> r == Err(RegisterDisabled))
      && (open && !Truthy(password) ==> r == Err(PasswordMissing))
      && (open && Truthy(password) && !Truthy(email) ==> r == Err(EmailMissing))
      && (open && Truthy(password) && Truthy(email) && isHashed(password) ==> r == Err(PasswordFormat))
      && (!open || !Truthy(password) || !Truthy(email) || isHashed(password) ==>
            r == Registration(t', settings, body, isHashed, isEmail, hashPassword))
  {
    var params := Params(body);
    assert Get(params, "password") == Get(body, "password") && Get(params, "email") == Get(body, "email");
  }

  /** Then: no invite, then no role, then a malformed email. */
  lemma StoreChecksNext(t: Tables, settings: Record, body: Record, isEmail: EmailCheck, hashPassword: PasswordHasher)
    ensures var r := Invited(t, settings, body, isEmail, hashPassword);
      var invite := FindOne(t, InviteCollection, Filter("email", Get(body, "email")));
      && (invite.None? ==> r == Err(NotInvited))
      && (invite.Some? && FindOne(t, RoleCollection, RoleQuery(invite.value)).None? ==> r == Err(RoleNotFound))
      && (invite.Some? && FindOne(t, RoleCollection, RoleQuery(invite.value)).Some? && !isEmail(Get(body, "email")) ==>
            r == Err(EmailFormat))
  {
    assert Get(Params(body), "email") == Get(body, "email");
  }

  /** The invite is looked up by the email exactly as sent: an invite stored under a
      different spelling does not let the person in, even when it only differs in case. */
  lemma InviteLookupUsesEmailAsSent(t: Tables, settings: Record, body: Record, isEmail: EmailCheck,
                                    hashPassword: PasswordHasher)
    requires forall i :: 0 <= i < |Rows(t, InviteCollection)| ==> Get(Rows(t, InviteCollection)[i], "email") != Get(body, "email")
    ensures Invited(t, settings, body, isEmail, hashPassword) == Err(NotInvited)
  {
    var rows := Rows(t, InviteCollection);
    var where := Filter("email", Get(body, "email"));
    forall i | 0 <= i < |rows| ensures !Matches(rows[i], where) {
      assert "email" in where.fields;
    }
  }

  /** An existing user with the lower-case email refuses the registration when it is a
      local user, and a user of another provider refuses it exactly when emails must be unique. */
  lemma ExistingUserRule(t: Tables, settings: Record, params: Record, hashPassword: PasswordHasher)
    requires "provider" in params && params["provider"] == Str("local")
    ensures var user := FindOne(t, UserCollection, Filter("email", Get(params, "email")));
      Completed(t, settings, params, hashPassword).Err? <==>
        user.Some? && (Get(user.value, "provider") == Str("local") || Truthy(Get(settings, "unique_email")))
    ensures Completed(t, settings, params, hashPassword).Err? ==> Completed(t, settings, params, hashPassword) == Err(EmailTaken)
  {
  }

  /** The user a successful registration adds: the request's fields but the protected
      ones, the lower-case email, the role found for the invite, the local provider, the
      password hashed from the rest of the record, and `confirmed` exactly when no
      confirmation email is sent. */
  lemma RegisteredUser(t: Tables, settings: Record, body: Record, isEmail: EmailCheck, hashPassword: PasswordHasher,
                        u: Record)
    requires Invited(t, settings, body, isEmail, hashPassword) == Ok(u)
    ensures var invite := FindOne(t, InviteCollection, Filter("email", Get(body, "email")));
      && invite.Some? && FindOne(t, RoleCollection, RoleQuery(invite.value)).Some?
      && Get(body, "email").Str?
      && u["email"] == Str(Lower(body["email"].s))
      && u["role"] == Get(FindOne(t, RoleCollection, RoleQuery(invite.value)).value, "id")
      && u["provider"] == Str("local")
      && u["password"] == hashPassword(Named(body, Str(Lower(body["email"].s)), FindOne(t, RoleCollection, RoleQuery(invite.value)).value))
    ensures u.Keys == body.Keys - Protected + {"provider", "email", "role", "password"}
                      + (if Truthy(Get(settings, "email_confirmation")) then {} else {"confirmed"})
    ensures "confirmed" in u ==> u["confirmed"] == Bool(true)
    ensures forall k :: k in body && k !in Protected && k !in {"provider", "email", "role", "password"} ==> u[k] == body[k]
  {
    assert Get(Params(body), "email") == Get(body, "email");
    var invite := FindOne(t, InviteCollection, Filter("email", Get(body, "email"))).value;
    var role := FindOne(t, RoleCollection, RoleQuery(invite)).value;
    assert Completed(t, settings, Named(body, Str(Lower(body["email"].s)), role), hashPassword) == Ok(u);
    NamedUser(t, settings, body, Str(Lower(body["email"].s)), role, hashPassword, u);
  }

  lemma NamedUser(t: Tables, settings: Record, body: Record, lower: Value, role: Record, hashPassword: PasswordHasher,
                  u: Record)
    requires Completed(t, settings, Named(body, lower, role), hashPassword) == Ok(u)
    ensures u.Keys == body.Keys - Protected + {"provider", "email", "role", "password"}
                      + (if Truthy(Get(settings, "email_confirmation")) then {} else {"confirmed"})
    ensures u["email"] == lower && u["role"] == Get(role, "id") && u["provider"] == Str("local")
    ensures "confirmed" in u ==> u["confirmed"] == Bool(true)
    ensures forall k :: k in body && k !in Protected && k !in {"provider", "email", "role", "password"} ==> u[k] == body[k]
  {
    CompletedKeeps(t, settings, Named(body, lower, role), hashPassword);
  }

  /** The last steps add the hashed password, and `confirmed` when no confirmation email
      is sent, and keep every other field. */
  lemma CompletedKeeps(t: Tables, settings: Record, params: Record, hashPassword: PasswordHasher)
    requires Completed(t, settings, params, hashPassword).Ok?
    ensures var u := Completed(t, settings, params, hashPassword).value;
      && u.Keys == params.Keys + {"password"} + (if Truthy(Get(settings, "email_confirmation")) then {} else {"confirmed"})
      && (!Truthy(Get(settings, "email_confirmation")) ==> u["confirmed"] == Bool(true))
      && (forall k :: k in params && k != "password" && k != "confirmed" ==> u[k] == params[k])
  {
  }

  /** The password stored is the hash of the record it sits in, as it was before hashing. */
  lemma PasswordHashedFromParams(t: Tables, settings: Record, params: Record, hashPassword: PasswordHasher)
    requires "password" in params && Completed(t, settings, params, hashPassword).Ok?
    ensures var u := Completed(t, settings, params, hashPassword).value;
      && "password" in u && u["password"] == hashPassword(params)
      && (u - {"confirmed"})["password" := params["password"]] == params - {"confirmed"}
  {
    var u := Completed(t, settings, params, hashPassword).value;
    var hashed := params["password" := hashPassword(params)];
    assert u - {"confirmed"} == hashed - {"confirmed"};
  }

  /** The error a refused insert is reported as: a message naming the username means the
      username is taken, any other means the email is. */
  function AdminError(message: string): (id: string)
    ensures id == "Auth.form.error.username.taken" <==> Contains(message, "username")
    ensures id == "Auth.form.error.username.taken" || id == "Auth.form.error.email.taken"
  {
    assert "Auth.form.error.username.taken" != "Auth.form.error.email.taken" by {
      assert "Auth.form.error.username.taken"[16] != "Auth.form.error.email.taken"[16];
    }
    if Contains(message, "username") then "Auth.form.error.username.taken" else "Auth.form.error.email.taken"
  }

  /** `register(ctx)`: a refused person changes nothing. Otherwise the user is added
      unless the database refuses it; with confirmation emails on, the response waits on
      the email, and otherwise carries a token for the new user. */
  method Register(cfg: Email.Config, store: EntityStore, outbox: Email.Outbox, settings: Record, body: Record,
                  isHashed: PasswordCheck, isEmail: EmailCheck, hashPassword: PasswordHasher,
                  refuse: Refuser, confirm: Confirmer, issue: Issuer)
    returns (resp: Response)
    modifies store, outbox
    ensures outbox.started == old(outbox.started)
    ensures var r := Registration(old(store.tables), settings, body, isHashed, isEmail, hashPassword);
      (r.Err? || refuse(r.value).Some?) ==>
        && store.tables == old(store.tables) && store.nextId == old(store.nextId)
        && resp == (if r.Err? then RefusalResponse(r.error) else BadRequest(AdminError(refuse(r.value).value)))
    ensures var r := Registration(old(store.tables), settings, body, isHashed, isEmail, hashPassword);
      r.Ok? && refuse(r.value).None? ==>
        var row := NewRow(UserCollection, r.value, old(store.nextId));
        var user := Populate(store.tables, UserCollection, row);
        && store.tables == Inserted(old(store.tables), UserCollection, row)
        && store.nextId == old(store.nextId) + 1
        && (Truthy(Get(settings, "email_confirmation")) ==>
              resp == if confirm(user).Some? then BadRequest(confirm(user).value) else Sent(map["user" := Obj(user)]))
        && (!Truthy(Get(settings, "email_confirmation")) ==>
              resp == Sent(map["jwt" := issue(Get(user, "id")), "user" := Obj(user)]))
  {
    var r := Registration(store.tables, settings, body, isHashed, isEmail, hashPassword);
    if r.Err? {
      return RefusalResponse(r.error);
    }
    var refused := refuse(r.value);
    if refused.Some? {
      return BadRequest(AdminError(refused.value));
    }
    var params := new Doc(r.value);
    var created := CreateRecord(cfg, store, outbox, UserCollection, params);
    var user := created.value.fields;
    if Truthy(Get(settings, "email_confirmation")) {
      var failed := confirm(user);
      if failed.Some? {
        return BadRequest(failed.value);
      }
      return Sent(map["user" := Obj(user)]);
    }
    resp := Sent(map["jwt" := issue(Get(user, "id")), "user" := Obj(user)]);
  }
}
