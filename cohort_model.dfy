/**
 * The cohort model's lifecycle hook (api/cohort/models/cohort.js): creating a
 * cohort pairs it with every program through `addRelatedCombinations`. There is
 * no `afterUpdate` hook, so renaming a cohort adds nothing.
 */
module CohortModel {
  import opened Json
  import opened Store
  import opened Database
  import opened DatabaseWrites
  import Email

  const ProgramsModel := "programs"

  /** The combinations `addRelatedCombinations(result, "cohort", "programs")` creates. */
  function Pairings(t: Tables, result: Record): seq<Record> {
    Combinations(result, "cohort", ProgramsModel, GetAll(t, ProgramsModel))
  }

  /** One combination per program, in the programs' order, keyed "cohort" and "program". */
  lemma PairingsKeyed(t: Tables, result: Record)
    ensures |Pairings(t, result)| == |Rows(t, ApiCollection(ProgramsModel))|
    ensures forall i :: 0 <= i < |Pairings(t, result)| ==>
      Pairings(t, result)[i] == map["cohort" := Get(result, "id"), "program" := Get(Rows(t, ApiCollection(ProgramsModel))[i], "id")]
  {
    NormalizeModelNames();
    var programs := Rows(t, ApiCollection(ProgramsModel));
    forall i | 0 <= i < |Pairings(t, result)|
      ensures Pairings(t, result)[i] == map["cohort" := Get(result, "id"), "program" := Get(programs[i], "id")]
    {
      assert Get(GetAll(t, ProgramsModel)[i], "id") == Get(programs[i], "id");
    }
  }

  /** `afterCreate(result)`. */
  method AfterCreate(cfg: Email.Config, store: EntityStore, outbox: Email.Outbox, valid: Validator, result: Record)
    modifies store, outbox
    ensures World(store.tables, store.nextId)
      == StoredAll(old(World(store.tables, store.nextId)), valid, Pairings(old(store.tables), result))
    ensures outbox.started == old(outbox.started)
  {
    AddRelatedCombinations(cfg, store, outbox, valid, result, "cohort", ProgramsModel);
  }

  /** Without programs a new cohort gets no cohort-programs, and nothing else changes. */
  lemma NoProgramsNoPairings(w: World, valid: Validator, result: Record)
    requires Rows(w.tables, ApiCollection(ProgramsModel)) == []
    ensures StoredAll(w, valid, Pairings(w.tables, result)) == w
  {
    PairingsKeyed(w.tables, result);
    assert Pairings(w.tables, result) == [];
  }

  /** When every pairing can be validated and named, each program gains exactly one
      cohort-program for the cohort, in the programs' order and under consecutive ids. */
  lemma OneCohortProgramPerProgram(w: World, w': World, valid: Validator, result: Record)
    requires Creatable(w.tables, valid, Pairings(w.tables, result))
    requires w' == StoredAll(w, valid, Pairings(w.tables, result))
    ensures w'.nextId == w.nextId + |Rows(w.tables, ApiCollection(ProgramsModel))|
    ensures Rows(w'.tables, CohortProgramCollection)
      == Rows(w.tables, CohortProgramCollection) + Planned(w.nextId, NamedAll(w.tables, Pairings(w.tables, result)))
  {
    PairingsKeyed(w.tables, result);
    AppendsFrom(w, w', w.tables, valid, Pairings(w.tables, result), w.nextId);
  }
}
