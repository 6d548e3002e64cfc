/** The user-program model's lifecycle hooks (api/user-program/models/user-program.js). */
module UserProgramModel {
  import opened Wrappers
  import opened Json
  import opened Store
  import Database

  /** `${trainee.username} - ${cohProg.name}` for the user named by `data.trainee` and the
      cohort-program named by `data.cohort_program_id`. */
  function DerivedName(t: Tables, data: Record): (r: Outcome<Value>)
    ensures var trainee := Database.GetOne(t, "user", Get(data, "trainee"));
      var cohortProgram := Database.GetOne(t, "cohort-program", Get(data, "cohort_program_id"));
      && (r.Ok? <==> trainee.Some? && cohortProgram.Some?)
      && (r.Ok? ==> r.value == Str(Show(Get(trainee.value, "username")) + " - " + Show(Get(cohortProgram.value, "name"))))
      && (trainee.None? ==> r == Err(TypeError(CannotRead("username", Null))))
      && (trainee.Some? && cohortProgram.None? ==> r == Err(TypeError(CannotRead("name", Null))))
  {
    var trainee := AsValue(Database.GetOne(t, "user", Get(data, "trainee")));
    var cohortProgram := AsValue(Database.GetOne(t, "cohort-program", Get(data, "cohort_program_id")));
    var username :- Prop(trainee, "username");
    var name :- Prop(cohortProgram, "name");
    Ok(Str(Show(username) + " - " + Show(name)))
  }

  lemma DerivedNameReads(t: Tables, d: Record, d': Record)
    requires Get(d, "trainee") == Get(d', "trainee") && Get(d, "cohort_program_id") == Get(d', "cohort_program_id")
    ensures DerivedName(t, d) == DerivedName(t, d')
  {
  }

  /** The trainee is looked up among the plugin's users, the schedule among cohort-programs. */
  lemma LookupCollections(t: Tables, data: Record)
    ensures Database.GetOne(t, "user", Get(data, "trainee"))
      == FindOne(t, UserCollection, Database.WhereOf(Get(data, "trainee")))
    ensures Database.GetOne(t, "cohort-program", Get(data, "cohort_program_id"))
      == FindOne(t, CohortProgramCollection, Database.WhereOf(Get(data, "cohort_program_id")))
  {
  }

  /** The data after `beforeCreate`: the derived name replaces any name it carried. */
  function Named(t: Tables, data: Record): (r: Outcome<Record>)
    ensures r.Ok? <==> DerivedName(t, data).Ok?
    ensures r.Err? ==> r.error == DerivedName(t, data).error
    ensures r.Ok? ==> r.value.Keys == data.Keys + {"name"} && r.value["name"] == DerivedName(t, data).value
    ensures r.Ok? ==> forall k :: k in data && k != "name" ==> r.value[k] == data[k]
  {
    var name :- DerivedName(t, data);
    Ok(data["name" := name])
  }

  /** A name supplied by the caller plays no part. */
  lemma SuppliedNameIgnored(t: Tables, data: Record, supplied: Value)
    ensures Named(t, data["name" := supplied]) == Named(t, data)
  {
    var data' := data["name" := supplied];
    assert Get(data', "trainee") == Get(data, "trainee") && Get(data', "cohort_program_id") == Get(data, "cohort_program_id");
    DerivedNameReads(t, data', data);
    var r', r := Named(t, data'), Named(t, data);
    if r.Ok? {
      assert r'.value.Keys == r.value.Keys;
      assert forall k :: k in r.value ==> r'.value[k] == r.value[k];
      assert r'.value == r.value;
    }
  }

  /** `beforeCreate(data)`: writes `data.name` in place. */
  method BeforeCreate(t: Tables, data: Doc) returns (r: Outcome<()>)
    modifies data
    ensures Named(t, old(data.fields)).Ok? ==> r == Ok(()) && data.fields == Named(t, old(data.fields)).value
    ensures Named(t, old(data.fields)).Err? ==> r == Err(Named(t, old(data.fields)).error) && data.fields == old(data.fields)
  {
    var name := DerivedName(t, data.fields);
    if name.Err? {
      return Err(name.error);
    }
    data.fields := data.fields["name" := name.value];
    r := Ok(());
  }
}
