/**
 * The default cohort-program of a registration
 * (extensions/users-permissions/controllers/user/api.js): among all
 * cohort-programs, those that have started and belong to the Bootcamp
 * program, the one with the latest start date; `sort` is stable, so among
 * equally late ones the first in store order wins.
 */
module Selector {
  import opened Wrappers
  import opened Json
  import opened Store
  import opened Database

  /** `new Date(v)` as a timestamp: none for an Invalid Date, whose time is NaN. */
  type DateParser = Value -> Option<int>

  /** `getDateObject(date)`: a falsy date is the current time. */
  function DateOf(parseDate: DateParser, now: int, date: Value): Option<int> {
    if Truthy(date) then parseDate(date) else Some(now)
  }

  /** `getDateObject(f.start_date) <= getDateObject()`: comparing with NaN is false. */
  predicate Started(parseDate: DateParser, now: int, f: Record) {
    var d := DateOf(parseDate, now, Get(f, "start_date"));
    d.Some? && d.value <= now
  }

  /** A record without a start date has started, and sorts as starting now. */
  lemma MissingStartIsNow(parseDate: DateParser, now: int, f: Record)
    requires !Truthy(Get(f, "start_date"))
    ensures Started(parseDate, now, f) && Stamp(parseDate, now, f) == now
  {
  }

  /** The filter's whole verdict on a record that has started: `f.program.id === bootCampId`. */
  predicate OfProgram(f: Record, bootCampId: Value) {
    var id := Prop(Get(f, "program"), "id");
    id.Ok? && StrictEquals(id.value, bootCampId)
  }

  /** A record the filter reaches the program of, whose program cannot be read. */
  predicate Unreadable(parseDate: DateParser, now: int, f: Record) {
    Started(parseDate, now, f) && Prop(Get(f, "program"), "id").Err?
  }

  /** `allCohortPrograms.filter(...)`: the `&&` reads the program only of a record
      that has started, and reading it of null throws. */
  function Candidates(rows: seq<Record>, parseDate: DateParser, now: int, bootCampId: Value): (r: Outcome<seq<Record>>)
    ensures r.Err? <==> exists i :: 0 <= i < |rows| && Unreadable(parseDate, now, rows[i])
    ensures r.Ok? ==> forall x :: x in r.value ==> x in rows && Started(parseDate, now, x) && OfProgram(x, bootCampId)
    ensures r.Ok? ==> forall i :: 0 <= i < |rows| ==>
      (Started(parseDate, now, rows[i]) && OfProgram(rows[i], bootCampId) ==> rows[i] in r.value)
    ensures r.Ok? ==> |r.value| <= |rows|
    decreases |rows|
  {
    if rows == [] then Ok([])
    else
      var f := rows[0];
      var tail := rows[1..];
      assert forall i :: 0 < i < |rows| ==> rows[i] == tail[i - 1];
      if Started(parseDate, now, f) then
        match Prop(Get(f, "program"), "id")
        case Err(e) => Err(e)
        case Ok(programId) =>
          var rest :- Candidates(tail, parseDate, now, bootCampId);
          Ok(if StrictEquals(programId, bootCampId) then [f] + rest else rest)
      else
        Candidates(tail, parseDate, now, bootCampId)
  }

  /** What the filter keeps. */
  predicate Eligible(parseDate: DateParser, now: int, f: Record, bootCampId: Value) {
    Started(parseDate, now, f) && OfProgram(f, bootCampId)
  }

  /** `m` numbers the elements of `c` by strictly increasing positions in `rows`. */
  predicate InOrderWithin(m: seq<nat>, c: seq<Record>, rows: seq<Record>) {
    && |m| == |c|
    && (forall i :: 0 <= i < |m| ==> m[i] < |rows| && rows[m[i]] == c[i])
    && (forall i, j :: 0 <= i < j < |m| ==> m[i] < m[j])
  }

  function Shift(m: seq<nat>): (r: seq<nat>)
    ensures |r| == |m| && forall i :: 0 <= i < |m| ==> r[i] == m[i] + 1
  {
    seq(|m|, i requires 0 <= i < |m| => m[i] + 1)
  }

  /** Positions in the tail are one further in the whole. */
  lemma ShiftedWithin(m: seq<nat>, c: seq<Record>, rows: seq<Record>)
    requires rows != [] && InOrderWithin(m, c, rows[1..])
    ensures InOrderWithin(Shift(m), c, rows)
    ensures forall k :: 1 <= k < |rows| && k - 1 in m ==> k in Shift(m)
  {
    forall i | 0 <= i < |m| ensures rows[Shift(m)[i]] == c[i] {
      assert rows[m[i] + 1] == rows[1..][m[i]];
    }
    forall k | 1 <= k < |rows| && k - 1 in m ensures k in Shift(m) {
      var i :| 0 <= i < |m| && m[i] == k - 1;
      assert Shift(m)[i] == k;
    }
  }

  /** A kept head goes before the kept tail. */
  lemma HeadWithin(m: seq<nat>, c: seq<Record>, rows: seq<Record>)
    requires rows != [] && InOrderWithin(m, c, rows[1..])
    ensures InOrderWithin([0] + Shift(m), [rows[0]] + c, rows)
    ensures forall k :: 1 <= k < |rows| && k - 1 in m ==> k in [0] + Shift(m)
  {
    ShiftedWithin(m, c, rows);
    var m', c' := [0] + Shift(m), [rows[0]] + c;
    forall i | 0 < i < |m'| ensures m'[i] < |rows| && rows[m'[i]] == c'[i] {
      assert m'[i] == Shift(m)[i - 1] && c'[i] == c[i - 1];
    }
    forall i, j | 0 <= i < j < |m'| ensures m'[i] < m'[j] {
      if i > 0 {
        assert m'[i] == Shift(m)[i - 1] && m'[j] == Shift(m)[j - 1];
      } else {
        assert m'[j] == Shift(m)[j - 1];
      }
    }
    forall k | 1 <= k < |rows| && k - 1 in m ensures k in m' {
      assert k in Shift(m);
    }
  }

  /** `filter` keeps store order: the candidates are the eligible rows, each at its own
      increasing position, and every eligible row is among them. */
  lemma {:induction false} CandidatesInOrder(rows: seq<Record>, parseDate: DateParser, now: int, bootCampId: Value)
    returns (m: seq<nat>)
    requires Candidates(rows, parseDate, now, bootCampId).Ok?
    ensures InOrderWithin(m, Candidates(rows, parseDate, now, bootCampId).value, rows)
    ensures forall k :: 0 <= k < |rows| && Eligible(parseDate, now, rows[k], bootCampId) ==> k in m
    decreases |rows|
  {
    if rows == [] {
      m := [];
    } else {
      var tail := rows[1..];
      assert Candidates(tail, parseDate, now, bootCampId).Ok?;
      var c := Candidates(tail, parseDate, now, bootCampId).value;
      var m0 := CandidatesInOrder(tail, parseDate, now, bootCampId);
      if Eligible(parseDate, now, rows[0], bootCampId) {
        assert Candidates(rows, parseDate, now, bootCampId).value == [rows[0]] + c;
        HeadWithin(m0, c, rows);
        m := [0] + Shift(m0);
      } else {
        assert Candidates(rows, parseDate, now, bootCampId).value == c;
        ShiftedWithin(m0, c, rows);
        m := Shift(m0);
      }
      forall k | 0 <= k < |rows| && Eligible(parseDate, now, rows[k], bootCampId) ensures k in m {
        if k > 0 {
          assert rows[k] == tail[k - 1];
          assert k - 1 in m0;
        }
      }
    }
  }

  /** The sort key of a candidate: its start date (candidates never have an invalid one). */
  function Stamp(parseDate: DateParser, now: int, f: Record): int {
    var d := DateOf(parseDate, now, Get(f, "start_date"));
    if d.Some? then d.value else now
  }

  /** Latest first. */
  predicate Descending(s: seq<Record>, key: Record -> int) {
    forall i, j :: 0 <= i < j < |s| ==> key(s[i]) >= key(s[j])
  }

  /** `x` placed before the first element with an earlier or equal key. */
  function Insert(x: Record, s: seq<Record>, key: Record -> int): (r: seq<Record>)
    ensures |r| == |s| + 1
    ensures multiset(r) == multiset(s) + multiset{x}
    ensures forall y :: y in r ==> y == x || y in s
    ensures r[0] == (if s == [] || key(x) >= key(s[0]) then x else s[0])
    decreases |s|
  {
    if s == [] || key(x) >= key(s[0]) then [x] + s
    else
      assert s == [s[0]] + s[1..];
      [s[0]] + Insert(x, s[1..], key)
  }

  lemma {:induction false} InsertDescending(x: Record, s: seq<Record>, key: Record -> int)
    requires Descending(s, key)
    ensures Descending(Insert(x, s, key), key)
    decreases |s|
  {
    if s != [] && key(x) < key(s[0]) {
      InsertDescending(x, s[1..], key);
      var r := Insert(x, s, key);
      var rest := Insert(x, s[1..], key);
      assert r == [s[0]] + rest;
      forall k | 0 <= k < |rest| ensures key(s[0]) >= key(rest[k]) {
        assert rest[k] in rest;
      }
    }
  }

  /** `r` is `s` with `x` at position `p`, right before the first element whose key is not
      greater than its own: every element before it is strictly later. */
  predicate PlacedAt(r: seq<Record>, x: Record, s: seq<Record>, key: Record -> int, p: nat) {
    && p <= |s| && r == s[..p] + [x] + s[p..]
    && (forall j :: 0 <= j < p ==> key(s[j]) > key(x))
    && (p < |s| ==> key(x) >= key(s[p]))
  }

  /** Where `Insert` puts `x`. */
  lemma {:induction false} InsertPosition(x: Record, s: seq<Record>, key: Record -> int) returns (p: nat)
    ensures PlacedAt(Insert(x, s, key), x, s, key, p)
    decreases |s|
  {
    if s == [] || key(x) >= key(s[0]) {
      p := 0;
      assert Insert(x, s, key) == s[..0] + [x] + s[0..];
    } else {
      var q := InsertPosition(x, s[1..], key);
      PlacedBehindHead(Insert(x, s[1..], key), x, s, key, q);
      p := q + 1;
    }
  }

  /** Placing `x` in the tail, behind a strictly later head, places it one further in `s`. */
  lemma PlacedBehindHead(rest: seq<Record>, x: Record, s: seq<Record>, key: Record -> int, q: nat)
    requires s != [] && key(x) < key(s[0])
    requires PlacedAt(rest, x, s[1..], key, q)
    ensures PlacedAt([s[0]] + rest, x, s, key, q + 1)
  {
    var tail, p := s[1..], q + 1;
    assert s[..p] == [s[0]] + tail[..q];
    assert s[p..] == tail[q..];
    assert [s[0]] + rest == ([s[0]] + tail[..q]) + [x] + tail[q..];
    forall j | 0 <= j < p ensures key(s[j]) > key(x) {
      if j > 0 {
        assert s[j] == tail[j - 1];
      }
    }
    if p < |s| {
      assert s[p] == tail[q];
    }
  }

  /** `candidates.sort((a, b) => date(b) - date(a))`: a stable sort, latest first. */
  function SortDesc(s: seq<Record>, key: Record -> int): (r: seq<Record>)
    ensures |r| == |s|
    ensures multiset(r) == multiset(s)
    decreases |s|
  {
    if s == [] then []
    else
      assert s == [s[0]] + s[1..];
      Insert(s[0], SortDesc(s[1..], key), key)
  }

  lemma {:induction false} SortDescSorted(s: seq<Record>, key: Record -> int)
    ensures Descending(SortDesc(s, key), key)
    decreases |s|
  {
    if s != [] {
      SortDescSorted(s[1..], key);
      InsertDescending(s[0], SortDesc(s[1..], key), key);
    }
  }

  /** The position of the first element with the latest key. */
  function FirstLatest(s: seq<Record>, key: Record -> int): (i: nat)
    requires s != []
    ensures i < |s|
    ensures forall j :: 0 <= j < |s| ==> key(s[j]) <= key(s[i])
    ensures forall j :: 0 <= j < i ==> key(s[j]) < key(s[i])
    decreases |s|
  {
    if |s| == 1 then 0
    else
      var j := 1 + FirstLatest(s[1..], key);
      assert forall k :: 1 <= k < |s| ==> s[k] == s[1..][k - 1];
      if key(s[0]) >= key(s[j]) then 0 else j
  }

  /** The head of the sorted candidates is the first of the latest ones. */
  lemma {:induction false} SortedHeadIsFirstLatest(s: seq<Record>, key: Record -> int)
    requires s != []
    ensures SortDesc(s, key)[0] == s[FirstLatest(s, key)]
    decreases |s|
  {
    if |s| > 1 {
      SortedHeadIsFirstLatest(s[1..], key);
    }
  }

  /** Start dates as the sort compares them. */
  function ByStart(parseDate: DateParser, now: int): Record -> int {
    (f: Record) => Stamp(parseDate, now, f)
  }

  /** `candidates.sort(...)[0]`, undefined when there is none. */
  function Latest(candidates: seq<Record>, parseDate: DateParser, now: int): (r: Option<Record>)
    ensures r.None? <==> candidates == []
    ensures r.Some? ==> r.value in candidates
  {
    var sorted := SortDesc(candidates, ByStart(parseDate, now));
    if sorted == [] then None
    else
      assert sorted[0] in multiset(sorted);
      Some(sorted[0])
  }

  /** The first of the latest candidates is chosen, and none only when there is no candidate. */
  lemma LatestIsFirstLatest(candidates: seq<Record>, parseDate: DateParser, now: int)
    ensures Latest(candidates, parseDate, now).None? <==> candidates == []
    ensures candidates != [] ==>
      Latest(candidates, parseDate, now) == Some(candidates[FirstLatest(candidates, ByStart(parseDate, now))])
  {
    if candidates != [] {
      SortedHeadIsFirstLatest(candidates, ByStart(parseDate, now));
    }
  }

  /** The default cohort-program of a registration. */
  function DefaultCohortProgram(t: Tables, parseDate: DateParser, now: int): (r: Outcome<Option<Record>>)
    ensures var bootCampId := GetIdFromName(t, "programs", Str("Bootcamp"));
      && (r.Ok? <==> bootCampId.Ok? && Candidates(GetAll(t, "cohort-program"), parseDate, now, bootCampId.value).Ok?)
      && (r.Ok? && r.value.Some? ==>
            && r.value.value in GetAll(t, "cohort-program")
            && Started(parseDate, now, r.value.value) && OfProgram(r.value.value, bootCampId.value))
      && (r.Ok? && r.value.None? ==>
            forall f :: f in GetAll(t, "cohort-program") ==> !Eligible(parseDate, now, f, bootCampId.value))
  {
    var bootCampId :- GetIdFromName(t, "programs", Str("Bootcamp"));
    var candidates :- Candidates(GetAll(t, "cohort-program"), parseDate, now, bootCampId);
    Ok(Latest(candidates, parseDate, now))
  }

  /** The chosen row is a started row of the program, no other such row starts later,
      and every one listed before it starts earlier. None is chosen only when there is
      no such row. */
  lemma LatestStarted(rows: seq<Record>, parseDate: DateParser, now: int, bootCampId: Value)
    requires Candidates(rows, parseDate, now, bootCampId).Ok?
    ensures var candidates := Candidates(rows, parseDate, now, bootCampId).value;
      var chosen := Latest(candidates, parseDate, now);
      && (chosen.None? <==> forall i :: 0 <= i < |rows| ==> !(Started(parseDate, now, rows[i]) && OfProgram(rows[i], bootCampId)))
      && (chosen.Some? ==> chosen.value in rows && Started(parseDate, now, chosen.value) && OfProgram(chosen.value, bootCampId))
      && (chosen.Some? ==>
            var i := FirstLatest(candidates, ByStart(parseDate, now));
            && chosen.value == candidates[i]
            && (forall j :: 0 <= j < |candidates| ==> Stamp(parseDate, now, candidates[j]) <= Stamp(parseDate, now, chosen.value))
            && (forall j :: 0 <= j < i ==> Stamp(parseDate, now, candidates[j]) < Stamp(parseDate, now, chosen.value)))
  {
    var candidates := Candidates(rows, parseDate, now, bootCampId).value;
    LatestIsFirstLatest(candidates, parseDate, now);
    if candidates != [] {
      assert candidates[FirstLatest(candidates, ByStart(parseDate, now))] in candidates;
    }
  }

  /** On a tie of start dates the row first in store order wins: every eligible row before
      the chosen one starts strictly earlier. */
  lemma TieGoesToStoreOrder(rows: seq<Record>, parseDate: DateParser, now: int, bootCampId: Value) returns (k: nat)
    requires Candidates(rows, parseDate, now, bootCampId).Ok?
    requires Latest(Candidates(rows, parseDate, now, bootCampId).value, parseDate, now).Some?
    ensures var chosen := Latest(Candidates(rows, parseDate, now, bootCampId).value, parseDate, now).value;
      && k < |rows| && rows[k] == chosen
      && forall j :: 0 <= j < k && Eligible(parseDate, now, rows[j], bootCampId) ==>
           Stamp(parseDate, now, rows[j]) < Stamp(parseDate, now, chosen)
  {
    var c := Candidates(rows, parseDate, now, bootCampId).value;
    var m := CandidatesInOrder(rows, parseDate, now, bootCampId);
    LatestIsFirstLatest(c, parseDate, now);
    var key := ByStart(parseDate, now);
    var i := FirstLatest(c, key);
    k := m[i];
    EarlierInStoreIsEarlierCandidate(m, c, rows, i, key);
  }

  /** A row before the `i`-th candidate in store order that is itself a candidate comes
      earlier among the candidates, so it is strictly earlier when `i` is the first latest. */
  lemma EarlierInStoreIsEarlierCandidate(m: seq<nat>, c: seq<Record>, rows: seq<Record>, i: nat, key: Record -> int)
    requires InOrderWithin(m, c, rows) && i < |c|
    requires forall j :: 0 <= j < i ==> key(c[j]) < key(c[i])
    ensures forall j :: 0 <= j < m[i] && j in m ==> key(rows[j]) < key(c[i])
  {
    forall j | 0 <= j < m[i] && j in m ensures key(rows[j]) < key(c[i]) {
      var i' :| 0 <= i' < |m| && m[i'] == j;
      assert i' < i;
    }
  }
}
