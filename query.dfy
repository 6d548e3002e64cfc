/**
 * `strapi.query(model).create(data)` as the core's models see it: the model's
 * `beforeCreate` hook runs on the data, the record is inserted, and the
 * inserted record, with its relations populated, is handed to `afterCreate`
 * and returned. Only the invite, cohort-program and user-program models have
 * hooks that do anything on this path.
 */
module Query {
  import opened Wrappers
  import opened Json
  import opened Store
  import Email
  import InviteModel
  import CohortProgramModel
  import UserProgramModel

  /** The data as `beforeCreate` leaves it, or the error it throws. */
  function Prepared(t: Tables, c: Collection, data: Record): (r: Outcome<Record>)
    ensures c != InviteCollection && c != CohortProgramCollection && c != UserProgramCollection ==> r == Ok(data)
    ensures r.Ok? && c == InviteCollection ==>
      "email" in data && data["email"].Str? && r.value.Keys == data.Keys && r.value["email"] == Str(Lower(data["email"].s))
    ensures r.Ok? && (c == CohortProgramCollection || c == UserProgramCollection) ==> r.value.Keys == data.Keys + {"name"}
    ensures r.Ok? ==> forall k :: k in data && k != "email" && k != "name" ==> r.value[k] == data[k]
  {
    if c == InviteCollection then InviteModel.Lowercased(data)
    else if c == CohortProgramCollection then CohortProgramModel.Named(t, data)
    else if c == UserProgramCollection then UserProgramModel.Named(t, data)
    else Ok(data)
  }

  /** The tables with `row` appended to collection `c`. */
  function Inserted(t: Tables, c: Collection, row: Record): (t': Tables)
    ensures Rows(t', c) == Rows(t, c) + [row]
    ensures forall c' :: c' != c ==> Rows(t', c') == Rows(t, c')
  {
    t[c := Rows(t, c) + [row]]
  }

  /** The returned record after `afterCreate`: the invite hook patches it while building its email. */
  function Returned(c: Collection, entry: Record): (r: Record)
    ensures entry.Keys <= r.Keys
    ensures forall k :: k in entry && !(c == InviteCollection && (k == "inviter" || k == "role")) ==> r[k] == entry[k]
  {
    if c == InviteCollection then Email.PatchInvite(entry) else entry
  }

  /** The emails `afterCreate` starts. */
  function Notified(c: Collection, entry: Record): (s: seq<Email.Delivery>)
    ensures |s| == if c == InviteCollection then 1 else 0
  {
    if c == InviteCollection then
      [Email.Delivery(Get(Email.PatchInvite(entry), "email"), Email.PatchInvite(entry))]
    else []
  }

  /** The invite hook's email goes to the lowercased address that was stored. */
  lemma InviteEmailIsStored(t: Tables, data: Record, n: nat)
    requires Prepared(t, InviteCollection, data).Ok?
    ensures var row := NewRow(InviteCollection, Prepared(t, InviteCollection, data).value, n);
      var sent := Notified(InviteCollection, Populate(Inserted(t, InviteCollection, row), InviteCollection, row));
      && |sent| == 1
      && sent[0].to == Str(Lower(data["email"].s))
      && IsLowercase(sent[0].to.s)
  {
    var p := Prepared(t, InviteCollection, data).value;
    assert "email" !in Relations(InviteCollection);
    assert StoredForm(InviteCollection, p)["email"] == p["email"];
  }

  /** The model's `beforeCreate` lifecycle hook, which may rewrite the data. */
  method BeforeCreate(t: Tables, c: Collection, data: Doc) returns (hook: Outcome<()>)
    modifies data
    ensures var p := Prepared(t, c, old(data.fields));
      && (p.Err? ==> hook == Err(p.error) && data.fields == old(data.fields))
      && (p.Ok? ==> hook == Ok(()) && data.fields == p.value)
  {
    hook := Ok(());
    if c == InviteCollection {
      hook := InviteModel.BeforeCreate(data);
    } else if c == CohortProgramCollection {
      hook := CohortProgramModel.BeforeCreate(t, data);
    } else if c == UserProgramCollection {
      hook := UserProgramModel.BeforeCreate(t, data);
    }
  }

  /** The query layer's `create`, with the lifecycle hooks of the model. */
  method CreateRecord(cfg: Email.Config, store: EntityStore, outbox: Email.Outbox, c: Collection, data: Doc)
    returns (r: Outcome<Doc>)
    modifies store, outbox, data
    ensures var p := Prepared(old(store.tables), c, old(data.fields));
      p.Err? ==> && r == Err(p.error)
                 && store.tables == old(store.tables) && store.nextId == old(store.nextId)
                 && data.fields == old(data.fields) && outbox.started == old(outbox.started)
    ensures var p := Prepared(old(store.tables), c, old(data.fields));
      p.Ok? ==> var row := NewRow(c, p.value, old(store.nextId));
                && data.fields == p.value
                && store.tables == Inserted(old(store.tables), c, row)
                && store.nextId == old(store.nextId) + 1
                && r.Ok? && fresh(r.value)
                && r.value.fields == Returned(c, Populate(store.tables, c, row))
                && outbox.started == old(outbox.started) + Notified(c, Populate(store.tables, c, row))
  {
    var hook := BeforeCreate(store.tables, c, data);
    if hook.Err? {
      return Err(hook.error);
    }
    var row := store.Insert(c, data.fields);
    var result := new Doc(Populate(store.tables, c, row));
    if c == InviteCollection {
      InviteModel.AfterCreate(cfg, result, outbox);
    }
    r := Ok(result);
  }
}
