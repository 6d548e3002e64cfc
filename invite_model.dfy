/** The invite model's lifecycle hooks (api/invite/models/invite.js). */
module InviteModel {
  import opened Wrappers
  import opened Json
  import Email

  /** The data after `beforeCreate`: its email in lower case. Reading `toLowerCase`
      of a missing email, or calling it on a non-string, throws. */
  function Lowercased(data: Record): (r: Outcome<Record>)
    ensures r.Ok? <==> Get(data, "email").Str?
    ensures r.Err? ==> r == Err(ToLowerCase(Get(data, "email")).error)
    ensures r.Ok? ==> r.value.Keys == data.Keys
    ensures r.Ok? ==> r.value["email"] == Str(Lower(data["email"].s))
    ensures r.Ok? ==> IsLowercase(r.value["email"].s)
    ensures r.Ok? ==> forall k :: k in data && k != "email" ==> r.value[k] == data[k]
  {
    var email :- ToLowerCase(Get(data, "email"));
    LowerMakesLowercase(email.s);
    Ok(data["email" := email])
  }

  /** A second `beforeCreate` changes nothing. */
  lemma LowercasedIdempotent(data: Record)
    requires Lowercased(data).Ok?
    ensures Lowercased(Lowercased(data).value) == Lowercased(data)
  {
    var once := Lowercased(data).value;
    LowerIdempotent(data["email"].s);
    assert once["email" := Str(Lower(once["email"].s))] == once;
  }

  /** Two emails differing only in letter case are stored the same. */
  lemma CaseVariantsCollide(data: Record, other: string)
    requires Get(data, "email").Str?
    requires Lower(other) == Lower(data["email"].s)
    ensures Lowercased(data["email" := Str(other)]).value["email"] == Lowercased(data).value["email"]
  {
  }

  /** `beforeCreate(data)`: rewrites `data.email` in place. */
  method BeforeCreate(data: Doc) returns (r: Outcome<()>)
    modifies data
    ensures Lowercased(old(data.fields)).Ok? ==> r == Ok(()) && data.fields == Lowercased(old(data.fields)).value
    ensures Lowercased(old(data.fields)).Err? ==> r == Err(Lowercased(old(data.fields)).error) && data.fields == old(data.fields)
  {
    var lowered := ToLowerCase(Get(data.fields, "email"));
    if lowered.Err? {
      return Err(lowered.error);
    }
    data.fields := data.fields["email" := lowered.value];
    r := Ok(());
  }

  /** `afterCreate(result)`: starts one invitation email for the created record. */
  method AfterCreate(cfg: Email.Config, result: Doc, outbox: Email.Outbox)
    modifies result, outbox
    ensures result.fields == Email.PatchInvite(old(result.fields))
    ensures outbox.started == old(outbox.started)
      + [Email.Delivery(Get(result.fields, "email"), result.fields)]
  {
    Email.SendEmailInvite(cfg, result, outbox);
  }
}
