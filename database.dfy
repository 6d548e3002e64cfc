/**
 * The read side of the database service (api/database/services/Database.js):
 * lookups by filter or name, and the singular form of a model name.
 */
module Database {
  import opened Wrappers
  import opened Json
  import opened Store

  /** The models that live in the users-permissions plugin. */
  function PluginFor(model: string): (p: Option<string>)
    ensures p.Some? <==> model == "user" || model == "role"
    ensures p.Some? ==> p.value == UsersPermissions
  {
    if model == "user" || model == "role" then Some(UsersPermissions) else None
  }

  /** A string filter is an id; any other filter is used as it is. */
  function WhereOf(filter: Value): (w: Value)
    ensures filter.Str? ==> w == ById(filter)
    ensures !filter.Str? ==> w == filter
  {
    if filter.Str? then ById(filter) else filter
  }

  /** `getAll(model)`: every record of the API model, in store order, relations populated. */
  function GetAll(t: Tables, model: string): (r: seq<Record>)
    ensures |r| == |Rows(t, ApiCollection(model))|
    ensures forall i :: 0 <= i < |r| ==> r[i] == Populate(t, ApiCollection(model), Rows(t, ApiCollection(model))[i])
  {
    Find(t, ApiCollection(model))
  }

  /** `getOne(model, filter)`: the first raw record of the model's collection that the
      filter, or the id a string filter stands for, matches. */
  function GetOne(t: Tables, model: string, filter: Value): (r: Option<Record>)
    ensures var rows := Rows(t, Collection(PluginFor(model), model));
      && (r.None? <==> forall j :: 0 <= j < |rows| ==> !Matches(rows[j], WhereOf(filter)))
      && (r.Some? ==> r.value in rows && Matches(r.value, WhereOf(filter)))
  {
    FindOne(t, Collection(PluginFor(model), model), WhereOf(filter))
  }

  /** Looking a record up by its id string, or by an explicit `{id}` filter, is the same lookup. */
  lemma GetOneByIdString(t: Tables, model: string, id: string)
    ensures GetOne(t, model, Str(id)) == GetOne(t, model, ById(Str(id)))
    ensures model == "user" ==> GetOne(t, model, Str(id)) == FindOne(t, UserCollection, ById(Str(id)))
    ensures model == "role" ==> GetOne(t, model, Str(id)) == FindOne(t, RoleCollection, ById(Str(id)))
    ensures model != "user" && model != "role" ==> GetOne(t, model, Str(id)) == FindOne(t, ApiCollection(model), ById(Str(id)))
  {
  }

  function ByName(name: Value): Value {
    Obj(map["name" := name])
  }

  /** The id of the first record with that name; reading `.id` of null throws when there is none. */
  function GetIdFromName(t: Tables, model: string, name: Value): (r: Outcome<Value>)
    ensures r.Ok? <==> exists i :: 0 <= i < |Rows(t, ApiCollection(model))| && Get(Rows(t, ApiCollection(model))[i], "name") == name
    ensures r.Ok? ==> r.value == Get(Rows(t, ApiCollection(model))[FirstMatch(Rows(t, ApiCollection(model)), ByName(name))], "id")
  {
    var rows := Rows(t, ApiCollection(model));
    var target := FindOne(t, ApiCollection(model), ByName(name));
    assert forall i :: 0 <= i < |rows| ==> (Matches(rows[i], ByName(name)) <==> Get(rows[i], "name") == name) by {
      forall i | 0 <= i < |rows| ensures Matches(rows[i], ByName(name)) <==> Get(rows[i], "name") == name {
        assert "name" in ByName(name).fields;
      }
    }
    Prop(AsValue(target), "id")
  }

  predicate EndsWithS(name: string) {
    |name| > 0 && name[|name| - 1] == 's'
  }

  /** Drops one trailing "s", to turn a plural model name into a field name. */
  function NormalizeModelName(name: string): (r: string)
    ensures EndsWithS(name) ==> r + "s" == name
    ensures !EndsWithS(name) ==> r == name
  {
    if EndsWithS(name) then name[..|name| - 1] else name
  }

  /** Exactly one "s" is removed, however many there are. */
  lemma NormalizeStripsOnlyOne(stem: string)
    ensures NormalizeModelName(stem + "ss") == stem + "s"
  {
    assert EndsWithS(stem + "ss");
    assert (stem + "s") + "s" == stem + "ss";
  }

  lemma NormalizeModelNames()
    ensures NormalizeModelName("programs") == "program"
    ensures NormalizeModelName("cohort") == "cohort"
    ensures NormalizeModelName("cohort-program") == "cohort-program"
  {
    assert "program" + "s" == "programs";
  }
}
