/**
 * The programs model's lifecycle hooks (api/programs/models/programs.js): creating
 * or updating a program pairs it with every cohort through `addRelatedCombinations`.
 */
module ProgramsModel {
  import opened Json
  import opened Store
  import opened Database
  import opened DatabaseWrites
  import Email

  const CohortModel := "cohort"

  /** The combinations `addRelatedCombinations(result, "programs", "cohort")` creates. */
  function Pairings(t: Tables, result: Record): seq<Record> {
    Combinations(result, "programs", CohortModel, GetAll(t, CohortModel))
  }

  /** One combination per cohort, in the cohorts' order, keyed "program" and "cohort". */
  lemma PairingsKeyed(t: Tables, result: Record)
    ensures |Pairings(t, result)| == |Rows(t, ApiCollection(CohortModel))|
    ensures forall i :: 0 <= i < |Pairings(t, result)| ==>
      Pairings(t, result)[i] == map["program" := Get(result, "id"), "cohort" := Get(Rows(t, ApiCollection(CohortModel))[i], "id")]
  {
    NormalizeModelNames();
    var cohorts := Rows(t, ApiCollection(CohortModel));
    forall i | 0 <= i < |Pairings(t, result)|
      ensures Pairings(t, result)[i] == map["program" := Get(result, "id"), "cohort" := Get(cohorts[i], "id")]
    {
      assert Get(GetAll(t, CohortModel)[i], "id") == Get(cohorts[i], "id");
    }
  }

  /** `afterCreate(result)`. */
  method AfterCreate(cfg: Email.Config, store: EntityStore, outbox: Email.Outbox, valid: Validator, result: Record)
    modifies store, outbox
    ensures World(store.tables, store.nextId)
      == StoredAll(old(World(store.tables, store.nextId)), valid, Pairings(old(store.tables), result))
    ensures outbox.started == old(outbox.started)
  {
    AddRelatedCombinations(cfg, store, outbox, valid, result, "programs", CohortModel);
  }

  /** `afterUpdate(result)`: the same pairing as after a create. */
  method AfterUpdate(cfg: Email.Config, store: EntityStore, outbox: Email.Outbox, valid: Validator, result: Record)
    modifies store, outbox
    ensures World(store.tables, store.nextId)
      == StoredAll(old(World(store.tables, store.nextId)), valid, Pairings(old(store.tables), result))
    ensures outbox.started == old(outbox.started)
  {
    AddRelatedCombinations(cfg, store, outbox, valid, result, "programs", CohortModel);
  }

  /** When every pairing can be validated and named, each cohort gains exactly one
      cohort-program for the program, in the cohorts' order and under consecutive ids. */
  lemma OneCohortProgramPerCohort(w: World, w': World, valid: Validator, result: Record)
    requires Creatable(w.tables, valid, Pairings(w.tables, result))
    requires w' == StoredAll(w, valid, Pairings(w.tables, result))
    ensures w'.nextId == w.nextId + |Rows(w.tables, ApiCollection(CohortModel))|
    ensures Rows(w'.tables, CohortProgramCollection)
      == Rows(w.tables, CohortProgramCollection) + Planned(w.nextId, NamedAll(w.tables, Pairings(w.tables, result)))
  {
    PairingsKeyed(w.tables, result);
    AppendsFrom(w, w', w.tables, valid, Pairings(w.tables, result), w.nextId);
  }

  /** Pairing leaves the cohorts alone, so an update after a create (or after another
      update) pairs with the same cohorts again: the second run adds a copy of every
      record the first added, differing only in its id. */
  lemma UpdatesAccumulate(w: World, w1: World, w2: World, valid: Validator, result: Record)
    requires Creatable(w.tables, valid, Pairings(w.tables, result))
    requires w1 == StoredAll(w, valid, Pairings(w.tables, result))
    requires w2 == StoredAll(w1, valid, Pairings(w1.tables, result))
    ensures Pairings(w1.tables, result) == Pairings(w.tables, result)
    ensures var first := Planned(w.nextId, NamedAll(w.tables, Pairings(w.tables, result)));
      var second := Planned(w1.nextId, NamedAll(w.tables, Pairings(w.tables, result)));
      && Rows(w2.tables, CohortProgramCollection) == Rows(w.tables, CohortProgramCollection) + first + second
      && |first| == |Rows(w.tables, ApiCollection(CohortModel))|
      && CopyOf(second, first)
  {
    var ds := Pairings(w.tables, result);
    StoredAllElsewhere(w, valid, ds, ApiCollection(CohortModel));
    FindUnrelated(w.tables, w1.tables, ApiCollection(CohortModel));
    assert Pairings(w1.tables, result) == ds;
    RepeatedRunDuplicates(w, w1, w2, valid, ds);
    PairingsKeyed(w.tables, result);
    PlannedCopies(w.nextId, w1.nextId, NamedAll(w.tables, ds));
  }
}
