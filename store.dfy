/**
 * The platform's entity store, seen through the two query shapes the core
 * uses: `findOne(where, [])` returns the first raw record matching `where`,
 * and `find({})` returns every record with its relation fields populated.
 * Writes append a record under a fresh id.
 */
module Store {
  import opened Wrappers
  import opened Json

  const UsersPermissions := "users-permissions"

  /** A collection is a model, optionally owned by a plugin. */
  datatype Collection = Collection(plugin: Option<string>, model: string)

  function ApiCollection(model: string): Collection {
    Collection(None, model)
  }

  const UserCollection := Collection(Some(UsersPermissions), "user")
  const RoleCollection := Collection(Some(UsersPermissions), "role")
  const InviteCollection := ApiCollection("invite")
  const CohortProgramCollection := ApiCollection("cohort-program")
  const UserProgramCollection := ApiCollection("user-program")

  type Tables = map<Collection, seq<Record>>

  function Rows(t: Tables, c: Collection): seq<Record> {
    if c in t then t[c] else []
  }

  /** A record matches an object filter when it agrees on every field the filter names;
      a filter that is not an object constrains nothing. */
  predicate Matches(r: Record, where: Value) {
    where.Obj? ==> forall k :: k in where.fields ==> Get(r, k) == where.fields[k]
  }

  /** The position of the first matching row, or |rows| when none matches. */
  function FirstMatch(rows: seq<Record>, where: Value): (i: nat)
    ensures i <= |rows|
    ensures i < |rows| ==> Matches(rows[i], where)
    ensures forall j :: 0 <= j < i ==> !Matches(rows[j], where)
  {
    if rows == [] then 0
    else if Matches(rows[0], where) then 0
    else 1 + FirstMatch(rows[1..], where)
  }

  function FindFirst(rows: seq<Record>, where: Value): (r: Option<Record>)
    ensures r.None? <==> forall j :: 0 <= j < |rows| ==> !Matches(rows[j], where)
    ensures r.Some? ==> r.value == rows[FirstMatch(rows, where)]
  {
    var i := FirstMatch(rows, where);
    if i < |rows| then Some(rows[i]) else None
  }

  /** `strapi.query(model, plugin).findOne(where, [])`: no population. */
  function FindOne(t: Tables, c: Collection, where: Value): Option<Record> {
    FindFirst(Rows(t, c), where)
  }

  /** The JavaScript value of a findOne result: the record, or null. */
  function AsValue(o: Option<Record>): Value {
    if o.Some? then Obj(o.value) else Null
  }

  /** The relation fields of the collections the core reads with population. */
  function Relations(c: Collection): map<string, Collection> {
    if c == CohortProgramCollection then
      map["program" := ApiCollection("programs"), "cohort" := ApiCollection("cohort")]
    else if c == InviteCollection then
      map["inviter" := UserCollection, "role" := RoleCollection, "cohort_program_schedule" := CohortProgramCollection]
    else if c == UserCollection then
      map["role" := RoleCollection]
    else
      map[]
  }

  function ById(id: Value): Value {
    Obj(map["id" := id])
  }

  /** A stored reference populates to the referenced record, or to null when it dangles. */
  function Resolve(t: Tables, target: Collection, v: Value): Value {
    if v.Str? then AsValue(FindOne(t, target, ById(v))) else v
  }

  function Populate(t: Tables, c: Collection, r: Record): (p: Record)
    ensures p.Keys == r.Keys
    ensures forall k :: k in r && k !in Relations(c) ==> p[k] == r[k]
  {
    map k | k in r :: if k in Relations(c) then Resolve(t, Relations(c)[k], r[k]) else r[k]
  }

  /** `strapi.query(model, plugin).find({})`. */
  function Find(t: Tables, c: Collection): (s: seq<Record>)
    ensures |s| == |Rows(t, c)|
    ensures forall i :: 0 <= i < |s| ==> s[i] == Populate(t, c, Rows(t, c)[i])
  {
    seq(|Rows(t, c)|, i requires 0 <= i < |Rows(t, c)| => Populate(t, c, Rows(t, c)[i]))
  }

  /** A relation field given as an object is stored as that object's id. */
  function StoredForm(c: Collection, data: Record): (r: Record)
    ensures r.Keys == data.Keys
    ensures forall k :: k in data && (k !in Relations(c) || !data[k].Obj?) ==> r[k] == data[k]
    ensures forall k :: k in data && k in Relations(c) && data[k].Obj? ==> r[k] == Get(data[k].fields, "id")
  {
    map k | k in data :: if k in Relations(c) && data[k].Obj? then Get(data[k].fields, "id") else data[k]
  }

  function IdFor(n: nat): Value {
    Str(Digits(n))
  }

  /** Ids handed out at different counts differ. */
  lemma IdsDiffer(n: nat, m: nat)
    requires n != m
    ensures IdFor(n) != IdFor(m)
  {
    if IdFor(n) == IdFor(m) {
      DigitsInjective(n, m);
    }
  }

  /** The row `Insert` appends for `data` when the next id is `n`. */
  function NewRow(c: Collection, data: Record, n: nat): Record {
    StoredForm(c, data)["id" := IdFor(n)]
  }

  /** The rows after the first one matching `where` is overwritten field by field with `patch`. */
  function Patched(rows: seq<Record>, where: Value, patch: Record): (r: seq<Record>)
    ensures |r| == |rows|
    ensures forall j :: 0 <= j < |rows| && j != FirstMatch(rows, where) ==> r[j] == rows[j]
    ensures FirstMatch(rows, where) < |rows| ==> r[FirstMatch(rows, where)] == rows[FirstMatch(rows, where)] + patch
  {
    var i := FirstMatch(rows, where);
    if i < |rows| then rows[i := rows[i] + patch] else rows
  }

  class EntityStore {
    var tables: Tables
    var nextId: nat

    constructor (initial: Tables, next: nat)
      ensures tables == initial && nextId == next
    {
      tables, nextId := initial, next;
    }

    /** `strapi.query(model, plugin).create(data)` without lifecycles. */
    method Insert(c: Collection, data: Record) returns (entry: Record)
      modifies this
      ensures entry == NewRow(c, data, old(nextId))
      ensures tables == old(tables)[c := Rows(old(tables), c) + [entry]]
      ensures nextId == old(nextId) + 1
    {
      entry := NewRow(c, data, nextId);
      tables := tables[c := Rows(tables, c) + [entry]];
      nextId := nextId + 1;
    }

    /** `strapi.query(model, plugin).update(where, patch)`: none when nothing matches. */
    method Update(c: Collection, where: Value, patch: Record) returns (entry: Option<Record>)
      modifies this
      ensures var old_ := FindOne(old(tables), c, where);
        entry == (if old_.Some? then Some(old_.value + StoredForm(c, patch)) else None)
      ensures entry.Some? ==> tables == old(tables)[c := Patched(Rows(old(tables), c), where, StoredForm(c, patch))]
      ensures entry.None? ==> tables == old(tables)
      ensures nextId == old(nextId)
    {
      var found := FindOne(tables, c, where);
      if found.None? {
        return None;
      }
      var stored := StoredForm(c, patch);
      entry := Some(found.value + stored);
      tables := tables[c := Patched(Rows(tables, c), where, stored)];
    }
  }
}
