/**
 * The write side of the database service (api/database/services/Database.js):
 * `create`, and `addRelatedCombinations`, which pairs a new record with every
 * record of a counterpart collection.
 */
module DatabaseWrites {
  import opened Wrappers
  import opened Json
  import opened Store
  import opened Database
  import opened Query
  import Email
  import CohortProgramModel

  /** The entity validator's verdict on `data` for a model. */
  type Validator = (string, Record) -> bool

  /** The store's state as a value. */
  datatype World = World(tables: Tables, nextId: nat)

  /** The store after `create(model, data)`: nothing changes when validation or a
      `beforeCreate` hook fails, and otherwise one row is appended. */
  function Stored(w: World, valid: Validator, model: string, data: Record): World {
    var c := ApiCollection(model);
    if !valid(model, data) then w
    else
      var p := Prepared(w.tables, c, data);
      if p.Err? then w else World(Inserted(w.tables, c, NewRow(c, p.value, w.nextId)), w.nextId + 1)
  }

  /** An id never handed out before `n` is found, after the insert, on the new row. */
  lemma RefetchFindsNewRow(t: Tables, c: Collection, data: Record, n: nat)
    requires forall i :: 0 <= i < |Rows(t, c)| ==> Get(Rows(t, c)[i], "id") != IdFor(n)
    ensures FindOne(Inserted(t, c, NewRow(c, data, n)), c, ById(IdFor(n))) == Some(NewRow(c, data, n))
  {
    var rows := Rows(Inserted(t, c, NewRow(c, data, n)), c);
    forall i | 0 <= i < |Rows(t, c)| ensures !Matches(rows[i], ById(IdFor(n))) {
      assert rows[i] == Rows(t, c)[i];
      assert "id" in ById(IdFor(n)).fields;
    }
    assert Matches(rows[|Rows(t, c)|], ById(IdFor(n)));
  }

  /** However the earlier rows read, a lookup by the new row's id finds a row, and the
      returned entry carries that id. */
  lemma NewRowFindable(t: Tables, c: Collection, data: Record, n: nat)
    ensures var row := NewRow(c, data, n);
      && Get(Returned(c, Populate(Inserted(t, c, row), c, row)), "id") == row["id"]
      && FindOne(Inserted(t, c, row), c, ById(row["id"])).Some?
  {
    var row := NewRow(c, data, n);
    var rows := Rows(Inserted(t, c, row), c);
    assert "id" !in Relations(c);
    assert rows[|rows| - 1] == row;
    assert Matches(row, ById(row["id"]));
  }

  /** `create(model, data, { files })`. Without files the entry from the query layer is
      returned; with files the entry is read back by its id (the upload itself is not
      modelled). */
  method Create(cfg: Email.Config, store: EntityStore, outbox: Email.Outbox, valid: Validator,
                model: string, data: Record, withFiles: bool)
    returns (r: Outcome<Doc>)
    modifies store, outbox
    ensures World(store.tables, store.nextId) == Stored(old(World(store.tables, store.nextId)), valid, model, data)
    ensures !valid(model, data) ==> r == Err(ValidationError)
    ensures valid(model, data) && Prepared(old(store.tables), ApiCollection(model), data).Err? ==>
      r == Err(Prepared(old(store.tables), ApiCollection(model), data).error)
    ensures r.Ok? <==> valid(model, data) && Prepared(old(store.tables), ApiCollection(model), data).Ok?
    ensures r.Ok? ==> fresh(r.value)
    ensures r.Ok? ==> var c := ApiCollection(model);
      var row := NewRow(c, Prepared(old(store.tables), c, data).value, old(store.nextId));
      && FindOne(store.tables, c, ById(row["id"])).Some?
      && r.value.fields == (if withFiles then Populate(store.tables, c, FindOne(store.tables, c, ById(row["id"])).value)
                            else Returned(c, Populate(store.tables, c, row)))
      && outbox.started == old(outbox.started) + Notified(c, Populate(store.tables, c, row))
    ensures r.Err? ==> outbox.started == old(outbox.started)
  {
    if !valid(model, data) {
      return Err(ValidationError);
    }
    var c := ApiCollection(model);
    var validData := new Doc(data);
    var entry :- CreateRecord(cfg, store, outbox, c, validData);
    var id := Get(entry.fields, "id");
    NewRowFindable(old(store.tables), c, Prepared(old(store.tables), c, data).value, old(store.nextId));
    if withFiles {
      var again := FindOne(store.tables, c, ById(id));
      var fetched := new Doc(Populate(store.tables, c, again.value));
      return Ok(fetched);
    }
    r := Ok(entry);
  }

  const CombinationModel := "cohort-program"

  /** `create(combinationModel, d)`: the cohort-program hook names the combination. */
  function StoredCombination(w: World, valid: Validator, d: Record): World {
    if !valid(CombinationModel, d) then w
    else
      var p := CohortProgramModel.Named(w.tables, d);
      if p.Err? then w
      else World(Inserted(w.tables, CohortProgramCollection, NewRow(CohortProgramCollection, p.value, w.nextId)), w.nextId + 1)
  }

  lemma StoredCombinationIsStored(w: World, valid: Validator, d: Record)
    ensures Stored(w, valid, CombinationModel, d) == StoredCombination(w, valid, d)
  {
    assert ApiCollection(CombinationModel) == CohortProgramCollection;
  }

  /** `create(combinationModel, d)` applied in turn to each of `ds`, ignoring every outcome. */
  function StoredAll(w: World, valid: Validator, ds: seq<Record>): World
    decreases |ds|
  {
    if ds == [] then w
    else StoredCombination(StoredAll(w, valid, ds[..|ds| - 1]), valid, ds[|ds| - 1])
  }

  /** `{[norm(current)]: resultId, [norm(target)]: targetId}`; a repeated key keeps the later value. */
  function Combination(current: string, target: string, resultId: Value, targetId: Value): (r: Record)
    ensures r.Keys == {NormalizeModelName(current), NormalizeModelName(target)}
    ensures r[NormalizeModelName(target)] == targetId
    ensures NormalizeModelName(current) != NormalizeModelName(target) ==> r[NormalizeModelName(current)] == resultId
  {
    map[NormalizeModelName(current) := resultId][NormalizeModelName(target) := targetId]
  }

  /** One combination per target record, in order. */
  function Combinations(result: Record, current: string, target: string, targets: seq<Record>): (s: seq<Record>)
    ensures |s| == |targets|
    ensures forall i :: 0 <= i < |s| ==> s[i] == Combination(current, target, Get(result, "id"), Get(targets[i], "id"))
  {
    seq(|targets|, i requires 0 <= i < |targets| => Combination(current, target, Get(result, "id"), Get(targets[i], "id")))
  }

  /** One `create(combinationModel, d)` of the loop; its outcome is not looked at. */
  method CreateCombination(cfg: Email.Config, store: EntityStore, outbox: Email.Outbox, valid: Validator, d: Record)
    modifies store, outbox
    ensures World(store.tables, store.nextId) == StoredCombination(old(World(store.tables, store.nextId)), valid, d)
    ensures outbox.started == old(outbox.started)
  {
    StoredCombinationIsStored(World(store.tables, store.nextId), valid, d);
    var created := Create(cfg, store, outbox, valid, CombinationModel, d, false);
  }

  /** `addRelatedCombinations(result, currentModel, targetModel)`, with the combination
      model left at its default; the creates are made one after another. */
  method AddRelatedCombinations(cfg: Email.Config, store: EntityStore, outbox: Email.Outbox, valid: Validator,
                                result: Record, current: string, target: string)
    modifies store, outbox
    ensures World(store.tables, store.nextId) == StoredAll(old(World(store.tables, store.nextId)), valid,
      Combinations(result, current, target, GetAll(old(store.tables), target)))
    ensures outbox.started == old(outbox.started)
  {
    var allTarget := GetAll(store.tables, target);
    if |allTarget| == 0 {
      return;
    }
    var combos := Combinations(result, current, target, allTarget);
    ghost var w0 := World(store.tables, store.nextId);
    var i := 0;
    while i < |combos|
      invariant 0 <= i <= |combos|
      invariant World(store.tables, store.nextId) == StoredAll(w0, valid, combos[..i])
      invariant outbox.started == old(outbox.started)
    {
      assert combos[..i + 1][..i] == combos[..i];
      CreateCombination(cfg, store, outbox, valid, combos[i]);
      i := i + 1;
    }
    assert combos[..|combos|] == combos;
  }

  // ---------------------------------------------------------------------
  // What a run of creates does to the cohort-program collection.
  // ---------------------------------------------------------------------

  /** Every combination passes validation and can be named. */
  predicate Creatable(t: Tables, valid: Validator, ds: seq<Record>) {
    (forall i :: 0 <= i < |ds| ==> valid(CombinationModel, ds[i])) && Nameable(t, ds)
  }

  /** The hook can name every combination. */
  predicate Nameable(t: Tables, ds: seq<Record>) {
    forall i :: 0 <= i < |ds| ==> CohortProgramModel.Named(t, ds[i]).Ok?
  }

  /** The combinations as the cohort-program hook names them. */
  function NamedAll(t: Tables, ds: seq<Record>): (s: seq<Record>)
    requires Nameable(t, ds)
    ensures |s| == |ds|
    decreases |ds|
  {
    if ds == [] then []
    else NamedAll(t, ds[..|ds| - 1]) + [CohortProgramModel.Named(t, ds[|ds| - 1]).value]
  }

  /** The rows a fully successful run appends, numbered from `n`. */
  function Planned(n: nat, named: seq<Record>): (s: seq<Record>)
    ensures |s| == |named|
  {
    seq(|named|, i requires 0 <= i < |named| => NewRow(CohortProgramCollection, named[i], n + i))
  }

  lemma NamedAllSnoc(t: Tables, ds: seq<Record>, init: seq<Record>, last: Record)
    requires ds != [] && init == ds[..|ds| - 1] && last == ds[|ds| - 1]
    requires Nameable(t, ds)
    ensures NamedAll(t, ds) == NamedAll(t, init) + [CohortProgramModel.Named(t, last).value]
  {
  }

  lemma PlannedSnoc(n: nat, named: seq<Record>, x: Record)
    ensures Planned(n, named + [x]) == Planned(n, named) + [NewRow(CohortProgramCollection, x, n + |named|)]
  {
    var a, b := Planned(n, named + [x]), Planned(n, named) + [NewRow(CohortProgramCollection, x, n + |named|)];
    forall i | 0 <= i < |a| ensures a[i] == b[i] {
      if i < |named| {
        assert (named + [x])[i] == named[i];
      }
    }
  }

  /** The planned rows of a run, one combination at a time. */
  lemma PlannedStep(n: nat, t: Tables, ds: seq<Record>, init: seq<Record>, last: Record, m: nat)
    requires ds != [] && init == ds[..|ds| - 1] && last == ds[|ds| - 1] && m == n + |ds| - 1
    requires Nameable(t, ds)
    ensures Planned(n, NamedAll(t, ds)) == Planned(n, NamedAll(t, init))
      + [NewRow(CohortProgramCollection, CohortProgramModel.Named(t, last).value, m)]
  {
    NamedAllSnoc(t, ds, init, last);
    PlannedSnocOf(n, NamedAll(t, ds), NamedAll(t, init), CohortProgramModel.Named(t, last).value, m);
  }

  lemma PlannedSnocOf(n: nat, named: seq<Record>, init: seq<Record>, x: Record, m: nat)
    requires named == init + [x] && m == n + |init|
    ensures Planned(n, named) == Planned(n, init) + [NewRow(CohortProgramCollection, x, m)]
  {
    PlannedSnoc(n, init, x);
  }

  lemma NewRowIgnoringId(c: Collection, data: Record, n: nat, m: nat)
    ensures NewRow(c, data, n) == NewRow(c, data, m)["id" := IdFor(n)]
  {
    var a, b := NewRow(c, data, n), NewRow(c, data, m)["id" := IdFor(n)];
    assert a.Keys == b.Keys;
  }

  /** Two runs over the same combinations store the same records, but under different ids. */
  lemma PlannedDiffersOnlyInIds(n: nat, m: nat, named: seq<Record>, i: nat)
    requires i < |named|
    ensures Planned(n, named)[i] == Planned(m, named)[i]["id" := IdFor(n + i)]
    ensures Planned(n, named)[i]["id"] == IdFor(n + i)
  {
    NewRowIgnoringId(CohortProgramCollection, named[i], n + i, m + i);
  }

  /** `copy` repeats `records` one for one, each under an id of its own. */
  predicate CopyOf(copy: seq<Record>, records: seq<Record>) {
    && |copy| == |records|
    && forall i :: 0 <= i < |copy| ==>
         && "id" in copy[i] && "id" in records[i]
         && copy[i] == records[i]["id" := copy[i]["id"]]
         && copy[i]["id"] != records[i]["id"]
  }

  /** A second run numbered from where the first stopped copies the first run's records. */
  lemma PlannedCopies(n: nat, m: nat, named: seq<Record>)
    requires m == n + |named|
    ensures CopyOf(Planned(m, named), Planned(n, named))
  {
    forall i | 0 <= i < |named|
      ensures Planned(m, named)[i] == Planned(n, named)[i]["id" := Planned(m, named)[i]["id"]]
      ensures Planned(m, named)[i]["id"] != Planned(n, named)[i]["id"]
    {
      PlannedDiffersOnlyInIds(m, n, named, i);
      PlannedDiffersOnlyInIds(n, n, named, i);
      IdsDiffer(m + i, n + i);
    }
  }

  /** A run of cohort-program creates touches no other collection, whatever fails. */
  lemma {:induction false} StoredAllElsewhere(w: World, valid: Validator, ds: seq<Record>, c: Collection)
    requires c != CohortProgramCollection
    ensures Rows(StoredAll(w, valid, ds).tables, c) == Rows(w.tables, c)
    decreases |ds|
  {
    if ds != [] {
      StoredAllElsewhere(w, valid, ds[..|ds| - 1], c);
    }
  }

  /** The programs and cohort collections agree, so the hook derives the same names. */
  predicate SameNameSources(t: Tables, t': Tables) {
    && Rows(t, ApiCollection("programs")) == Rows(t', ApiCollection("programs"))
    && Rows(t, ApiCollection("cohort")) == Rows(t', ApiCollection("cohort"))
  }

  /** One successful create of a combination, named as it would be in `names`. */
  lemma StoredOne(names: Tables, mid: World, valid: Validator, d: Record, n: nat)
    requires valid(CombinationModel, d) && CohortProgramModel.Named(names, d).Ok?
    requires mid.nextId == n
    requires SameNameSources(mid.tables, names)
    ensures StoredCombination(mid, valid, d) == World(Inserted(mid.tables, CohortProgramCollection,
      NewRow(CohortProgramCollection, CohortProgramModel.Named(names, d).value, n)), n + 1)
  {
    CohortProgramModel.NameReadsProgramsAndCohort(names, mid.tables, d);
  }

  lemma AppendedInOrder(rows: seq<Record>, before: seq<Record>, earlier: seq<Record>, row: Record, planned: seq<Record>)
    requires rows == before + earlier + [row]
    requires planned == earlier + [row]
    ensures rows == before + planned
  {
  }

  /** When every create succeeds, the run appends exactly one named cohort-program per
      combination, in order and under consecutive ids. The names are those derived from
      any tables with the same programs and cohorts. */
  lemma {:induction false} StoredAllAppends(w: World, names: Tables, valid: Validator, ds: seq<Record>)
    requires SameNameSources(w.tables, names)
    requires Creatable(names, valid, ds)
    ensures StoredAll(w, valid, ds).nextId == w.nextId + |ds|
    ensures Rows(StoredAll(w, valid, ds).tables, CohortProgramCollection)
      == Rows(w.tables, CohortProgramCollection) + Planned(w.nextId, NamedAll(names, ds))
    decreases |ds|
  {
    if ds == [] {
      assert Planned(w.nextId, NamedAll(names, ds)) == [];
    } else {
      var init := ds[..|ds| - 1];
      var last := ds[|ds| - 1];
      assert Creatable(names, valid, init) by {
        forall i | 0 <= i < |init| ensures valid(CombinationModel, init[i]) {
          assert init[i] == ds[i];
        }
      }
      StoredAllAppends(w, names, valid, init);
      var mid := StoredAll(w, valid, init);
      StoredAllElsewhere(w, valid, init, ApiCollection("programs"));
      StoredAllElsewhere(w, valid, init, ApiCollection("cohort"));
      var n := w.nextId + |ds| - 1;
      StoredOne(names, mid, valid, last, n);
      var row := NewRow(CohortProgramCollection, CohortProgramModel.Named(names, last).value, n);
      var after := StoredAll(w, valid, ds);
      assert after == World(Inserted(mid.tables, CohortProgramCollection, row), n + 1);
      var before := Rows(w.tables, CohortProgramCollection);
      var earlier := Planned(w.nextId, NamedAll(names, init));
      assert Rows(after.tables, CohortProgramCollection) == before + earlier + [row];
      PlannedStep(w.nextId, names, ds, init, last, n);
      AppendedInOrder(Rows(after.tables, CohortProgramCollection), before, earlier, row,
        Planned(w.nextId, NamedAll(names, ds)));
    }
  }

  /** There is no check for existing combinations: a second run over the same
      combinations, on the tables the first run left, appends the same records again
      under the next ids. */
  lemma RepeatedRunDuplicates(w: World, w1: World, w2: World, valid: Validator, ds: seq<Record>)
    requires Creatable(w.tables, valid, ds)
    requires w1 == StoredAll(w, valid, ds)
    requires w2 == StoredAll(w1, valid, ds)
    ensures w1.nextId == w.nextId + |ds| && w2.nextId == w1.nextId + |ds|
    ensures Rows(w2.tables, CohortProgramCollection) == Rows(w.tables, CohortProgramCollection)
      + Planned(w.nextId, NamedAll(w.tables, ds)) + Planned(w1.nextId, NamedAll(w.tables, ds))
  {
    AppendsFrom(w, w1, w.tables, valid, ds, w.nextId);
    AppendsFrom(w1, w2, w.tables, valid, ds, w1.nextId);
  }

  /** `StoredAllAppends` about a named result world, with the first id named by the caller. */
  lemma AppendsFrom(w: World, w': World, names: Tables, valid: Validator, ds: seq<Record>, n: nat)
    requires SameNameSources(w.tables, names) && Creatable(names, valid, ds) && n == w.nextId
    requires w' == StoredAll(w, valid, ds)
    ensures w'.nextId == n + |ds|
    ensures SameNameSources(w'.tables, names)
    ensures Rows(w'.tables, CohortProgramCollection) == Rows(w.tables, CohortProgramCollection) + Planned(n, NamedAll(names, ds))
  {
    StoredAllAppends(w, names, valid, ds);
    StoredAllElsewhere(w, valid, ds, ApiCollection("programs"));
    StoredAllElsewhere(w, valid, ds, ApiCollection("cohort"));
  }

  /** A run over no combinations stores nothing. */
  lemma StoredAllEmpty(w: World, valid: Validator)
    ensures StoredAll(w, valid, []) == w
  {
  }

  /** A collection without relations reads the same wherever only other collections changed. */
  lemma FindUnrelated(t: Tables, t': Tables, c: Collection)
    requires Relations(c) == map[]
    requires Rows(t, c) == Rows(t', c)
    ensures Find(t, c) == Find(t', c)
  {
    forall i | 0 <= i < |Rows(t, c)| ensures Populate(t, c, Rows(t, c)[i]) == Populate(t', c, Rows(t', c)[i]) {
    }
  }
}
