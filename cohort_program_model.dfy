/** The cohort-program model's lifecycle hooks (api/cohort-program/models/cohort-program.js). */
module CohortProgramModel {
  import opened Wrappers
  import opened Json
  import opened Store
  import Database

  /** `${cohort.name} ${program.name}` for the program named by `data.program` and the
      cohort named by `data.cohort`; a lookup that finds nothing yields null, whose
      `name` cannot be read. */
  function DerivedName(t: Tables, data: Record): (r: Outcome<Value>)
    ensures var program := Database.GetOne(t, "programs", Get(data, "program"));
      var cohort := Database.GetOne(t, "cohort", Get(data, "cohort"));
      && (r.Ok? <==> program.Some? && cohort.Some?)
      && (r.Ok? ==> r.value == Str(Show(Get(cohort.value, "name")) + " " + Show(Get(program.value, "name"))))
      && (r.Err? ==> r.error == TypeError(CannotRead("name", Null)))
  {
    var program := AsValue(Database.GetOne(t, "programs", Get(data, "program")));
    var cohort := AsValue(Database.GetOne(t, "cohort", Get(data, "cohort")));
    var cohortName :- Prop(cohort, "name");
    var programName :- Prop(program, "name");
    Ok(Str(Show(cohortName) + " " + Show(programName)))
  }

  lemma DerivedNameReads(t: Tables, d: Record, d': Record)
    requires Get(d, "program") == Get(d', "program") && Get(d, "cohort") == Get(d', "cohort")
    ensures DerivedName(t, d) == DerivedName(t, d')
  {
  }

  /** The data after `beforeCreate`: the derived name replaces any name it carried. */
  function Named(t: Tables, data: Record): (r: Outcome<Record>)
    ensures r.Ok? <==> DerivedName(t, data).Ok?
    ensures r.Err? ==> r.error == DerivedName(t, data).error
    ensures r.Ok? ==> r.value.Keys == data.Keys + {"name"} && r.value["name"] == DerivedName(t, data).value
    ensures r.Ok? ==> forall k :: k in data && k != "name" ==> r.value[k] == data[k]
  {
    var name :- DerivedName(t, data);
    Ok(data["name" := name])
  }

  /** A name supplied by the caller plays no part. */
  lemma SuppliedNameIgnored(t: Tables, data: Record, supplied: Value)
    ensures Named(t, data["name" := supplied]) == Named(t, data)
  {
    var data' := data["name" := supplied];
    assert Get(data', "program") == Get(data, "program") && Get(data', "cohort") == Get(data, "cohort");
    DerivedNameReads(t, data', data);
    var r', r := Named(t, data'), Named(t, data);
    if r.Ok? {
      assert r'.value.Keys == r.value.Keys;
      assert forall k :: k in r.value ==> r'.value[k] == r.value[k];
      assert r'.value == r.value;
    }
  }

  /** Only the programs and cohort collections are consulted. */
  lemma NameReadsProgramsAndCohort(t: Tables, t': Tables, data: Record)
    requires Rows(t, ApiCollection("programs")) == Rows(t', ApiCollection("programs"))
    requires Rows(t, ApiCollection("cohort")) == Rows(t', ApiCollection("cohort"))
    ensures Named(t, data) == Named(t', data)
  {
  }

  /** `beforeCreate(data)`: writes `data.name` in place. */
  method BeforeCreate(t: Tables, data: Doc) returns (r: Outcome<()>)
    modifies data
    ensures Named(t, old(data.fields)).Ok? ==> r == Ok(()) && data.fields == Named(t, old(data.fields)).value
    ensures Named(t, old(data.fields)).Err? ==> r == Err(Named(t, old(data.fields)).error) && data.fields == old(data.fields)
  {
    var name := DerivedName(t, data.fields);
    if name.Err? {
      return Err(name.error);
    }
    data.fields := data.fields["name" := name.value];
    r := Ok(());
  }
}
