/**
 * The invite controller's `create` (api/invite/controllers/invite.js): an
 * invitation is refused when no email is given, when a user already has the
 * email, or when an invitation was already sent to it; both lookups use the
 * lower-case email. Otherwise the invite service creates exactly one invite,
 * whose `beforeCreate` hook stores the email in lower case.
 */
module InviteController {
  import opened Wrappers
  import opened Json
  import opened Store
  import opened Http
  import opened Query
  import opened DatabaseWrites
  import Email
  import InviteModel

  /** `JSON.parse` on a string: none when it throws a SyntaxError. */
  type JsonParser = string -> Option<Value>

  const InviteModelName := "invite"

  /** The request: its body, and for a multipart request the `data` that
      `parseMultipartData` extracts from it. */
  datatype Request = Request(body: Record, multipart: Option<Record>)

  /** `const { email } = params.data ? JSON.parse(params.data) : params`. */
  function RequestedEmail(parse: JsonParser, body: Record): (r: Outcome<Value>)
    ensures !Truthy(Get(body, "data")) ==> r == Ok(Get(body, "email"))
    ensures r.Err? ==> Truthy(Get(body, "data"))
  {
    var data := Get(body, "data");
    if !Truthy(data) then Ok(Get(body, "email"))
    else
      match parse(Show(data))
      case None => Err(SyntaxError)
      case Some(parsed) => Prop(parsed, "email")
  }

  function ByEmail(email: Value): Value {
    Obj(map["email" := email])
  }

  /** Why the controller stops before creating anything. */
  datatype Refusal = Threw(error: Thrown) | NoEmail | UserExists | InviteSent

  /** The refusal, checked in the controller's order, or none when it goes on to create the invite. */
  function Refused(t: Tables, parse: JsonParser, body: Record): (r: Option<Refusal>)
    ensures var email := RequestedEmail(parse, body);
      && (r == Some(NoEmail) <==> email.Ok? && !Truthy(email.value))
      && (r.None? ==> email.Ok? && email.value.Str?
                      && FindOne(t, UserCollection, ByEmail(Str(Lower(email.value.s)))).None?
                      && FindOne(t, InviteCollection, ByEmail(Str(Lower(email.value.s)))).None?)
  {
    match RequestedEmail(parse, body)
    case Err(e) => Some(Threw(e))
    case Ok(email) =>
      if !Truthy(email) then Some(NoEmail)
      else
        match ToLowerCase(email)
        case Err(e) => Some(Threw(e))
        case Ok(lower) =>
          if FindOne(t, UserCollection, ByEmail(lower)).Some? then Some(UserExists)
          else if FindOne(t, InviteCollection, ByEmail(lower)).Some? then Some(InviteSent)
          else None
  }

  /** The response for a refusal of a request for `email`. */
  function Respond(r: Refusal, email: Value): (resp: Response)
    ensures resp.ServerError? <==> r.Threw?
    ensures r == NoEmail ==> resp == BadRequest("please specify the email")
  {
    match r
    case Threw(e) => ServerError(e)
    case NoEmail => BadRequest("please specify the email")
    case UserExists => BadRequest("user with email " + Show(email) + " exists")
    case InviteSent => BadRequest("invite to " + Show(email) + " already sent")
  }

  function Rejection(t: Tables, parse: JsonParser, body: Record): Option<Response> {
    match Refused(t, parse, body)
    case None => None
    case Some(r) =>
      var email := RequestedEmail(parse, body);
      Some(Respond(r, if email.Ok? then email.value else Undefined))
  }

  /** The data handed to the invite service, and whether files come with it. */
  function Payload(req: Request): Record {
    if req.multipart.Some? then req.multipart.value else req.body
  }

  /** `create(ctx)`. The invite service validates, runs the lifecycle hooks and
      inserts; with a multipart request the entry is read back after the upload. */
  method Create(cfg: Email.Config, store: EntityStore, outbox: Email.Outbox, valid: Validator,
                parse: JsonParser, req: Request)
    returns (resp: Response)
    modifies store, outbox
    ensures var rejected := Rejection(old(store.tables), parse, req.body);
      rejected.Some? ==> && resp == rejected.value
                         && store.tables == old(store.tables) && store.nextId == old(store.nextId)
                         && outbox.started == old(outbox.started)
    ensures Rejection(old(store.tables), parse, req.body).None? ==>
      World(store.tables, store.nextId) == Stored(old(World(store.tables, store.nextId)), valid, InviteModelName, Payload(req))
    ensures var data := Payload(req);
      Rejection(old(store.tables), parse, req.body).None? ==>
        && (resp.Sent? <==> valid(InviteModelName, data) && InviteModel.Lowercased(data).Ok?)
        && (!valid(InviteModelName, data) ==> resp == ServerError(ValidationError))
        && (valid(InviteModelName, data) && InviteModel.Lowercased(data).Err? ==>
              resp == ServerError(InviteModel.Lowercased(data).error))
    ensures var data := Payload(req);
      Rejection(old(store.tables), parse, req.body).None? && req.multipart.None? && resp.Sent? ==>
        var row := NewRow(InviteCollection, InviteModel.Lowercased(data).value, old(store.nextId));
        && resp.entity == Email.PatchInvite(Populate(store.tables, InviteCollection, row))
        && outbox.started == old(outbox.started)
             + [Email.Delivery(Get(resp.entity, "email"), resp.entity)]
    ensures var data := Payload(req);
      Rejection(old(store.tables), parse, req.body).None? && req.multipart.Some? && resp.Sent? ==>
        var row := NewRow(InviteCollection, InviteModel.Lowercased(data).value, old(store.nextId));
        && FindOne(store.tables, InviteCollection, ById(row["id"])).Some?
        && resp.entity == Populate(store.tables, InviteCollection, FindOne(store.tables, InviteCollection, ById(row["id"])).value)
    ensures var data := Payload(req);
      Rejection(old(store.tables), parse, req.body).None? && resp.Sent? ==>
        var row := NewRow(InviteCollection, InviteModel.Lowercased(data).value, old(store.nextId));
        var sent := Email.PatchInvite(Populate(store.tables, InviteCollection, row));
        outbox.started == old(outbox.started) + [Email.Delivery(Get(sent, "email"), sent)]
    ensures !resp.Sent? ==> outbox.started == old(outbox.started)
  {
    var rejected := Rejection(store.tables, parse, req.body);
    if rejected.Some? {
      return rejected.value;
    }
    var data := Payload(req);
    assert ApiCollection(InviteModelName) == InviteCollection;
    var entity := DatabaseWrites.Create(cfg, store, outbox, valid, InviteModelName, data, req.multipart.Some?);
    if entity.Err? {
      return ServerError(entity.error);
    }
    resp := Sent(entity.value.fields);
  }

  /** Without a `data` field the email is the body's own and the parser plays no part;
      with one, the body's own email plays no part. */
  lemma EmailSource(parse: JsonParser, parse': JsonParser, body: Record, other: Value)
    ensures !Truthy(Get(body, "data")) ==>
      RequestedEmail(parse, body) == RequestedEmail(parse', body) == Ok(Get(body, "email"))
    ensures Truthy(Get(body, "data")) ==>
      RequestedEmail(parse, body["email" := other]) == RequestedEmail(parse, body)
  {
    assert Get(body["email" := other], "data") == Get(body, "data");
  }

  /** A missing or empty email is refused before the store is consulted. */
  lemma MissingEmailBeforeLookups(t: Tables, t': Tables, parse: JsonParser, body: Record)
    requires RequestedEmail(parse, body).Ok? && !Truthy(RequestedEmail(parse, body).value)
    ensures Refused(t, parse, body) == Refused(t', parse, body) == Some(NoEmail)
    ensures Rejection(t, parse, body) == Some(BadRequest("please specify the email"))
  {
  }

  /** An existing user with the email is reported even when an invite was sent too. */
  lemma ExistingUserTakesPrecedence(t: Tables, parse: JsonParser, body: Record, e: string)
    requires RequestedEmail(parse, body) == Ok(Str(e)) && e != ""
    requires FindOne(t, UserCollection, ByEmail(Str(Lower(e)))).Some?
    ensures Refused(t, parse, body) == Some(UserExists)
    ensures Rejection(t, parse, body) == Some(BadRequest("user with email " + e + " exists"))
  {
  }

  /** Both lookups see the email only through its lower-case form: requests whose
      emails differ in letter case alone are refused for the same reason, or both go on. */
  lemma VerdictIgnoresCase(t: Tables, parse: JsonParser, body: Record, body': Record, e: string, e': string)
    requires RequestedEmail(parse, body) == Ok(Str(e)) && RequestedEmail(parse, body') == Ok(Str(e'))
    requires Lower(e) == Lower(e')
    ensures Refused(t, parse, body) == Refused(t, parse, body')
  {
    if e == "" {
      assert |e'| == |Lower(e')| == 0;
    } else {
      assert |e'| == |Lower(e')| > 0;
    }
  }

  /** The store after an accepted request: one invite more, holding the lower-case
      email, and nothing else; a failed create changes nothing. */
  lemma AcceptedRequestAddsOneInvite(w: World, valid: Validator, data: Record)
    ensures var after := Stored(w, valid, InviteModelName, data);
      && (valid(InviteModelName, data) && InviteModel.Lowercased(data).Ok? ==>
            var row := NewRow(InviteCollection, InviteModel.Lowercased(data).value, w.nextId);
            && Rows(after.tables, InviteCollection) == Rows(w.tables, InviteCollection) + [row]
            && (forall c :: c != InviteCollection ==> Rows(after.tables, c) == Rows(w.tables, c))
            && row["email"] == Str(Lower(data["email"].s))
            && after.nextId == w.nextId + 1)
      && (!valid(InviteModelName, data) || InviteModel.Lowercased(data).Err? ==> after == w)
  {
    assert ApiCollection(InviteModelName) == InviteCollection;
    if valid(InviteModelName, data) && InviteModel.Lowercased(data).Ok? {
      assert "email" !in Relations(InviteCollection);
    }
  }

  /** Once an invite was created for an email, a request for any case variant of it is
      refused: the stored email is lower case and the lookup lowercases too. */
  lemma CaseVariantRefused(w: World, valid: Validator, data: Record, parse: JsonParser, body: Record, e: string)
    requires valid(InviteModelName, data) && Get(data, "email").Str?
    requires RequestedEmail(parse, body) == Ok(Str(e)) && e != ""
    requires Lower(e) == Lower(data["email"].s)
    ensures var r := Refused(Stored(w, valid, InviteModelName, data).tables, parse, body);
      r == Some(UserExists) || r == Some(InviteSent)
  {
    AcceptedRequestAddsOneInvite(w, valid, data);
    var t := Stored(w, valid, InviteModelName, data).tables;
    var rows := Rows(t, InviteCollection);
    var row := rows[|rows| - 1];
    assert row["email"] == Str(Lower(e));
    assert Matches(row, ByEmail(Str(Lower(e))));
    assert FindOne(t, InviteCollection, ByEmail(Str(Lower(e)))).Some?;
  }
}
