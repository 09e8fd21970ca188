/** The workout routes of server/routes/workouts.js over an in-memory
    collection. The authenticated caller's id is an input: the token check
    that produces it is not part of this model. */
module WorkoutRoutes {
  import opened Base
  import opened WorkoutSchema
  import opened WorkoutOrder

  /** The query string of GET /. A bound is `None` when it is absent or
      empty (falsy); parsing the date text is not modelled. `category` is
      "" when absent. */
  datatype Query = Query(startDate: Option<Timestamp>, endDate: Option<Timestamp>, category: string)

  /** The `{ $gte, $lte }` condition on `workoutDate`. */
  datatype DateRange = DateRange(gte: Option<Timestamp>, lte: Option<Timestamp>)

  /** The filter document handed to `find`. */
  datatype Filter = Filter(user: UserId, workoutDate: Option<DateRange>, category: Option<string>)

  /** One `$group` output row. */
  datatype CategoryTotal = CategoryTotal(category: string, totalCalories: int, totalWorkouts: nat)

  datatype Body =
    | Records(items: seq<Workout>)
    | Record(record: Workout)
    | Message(message: string)
    | Totals(rows: seq<CategoryTotal>)
    | Invalid(violations: seq<Violation>)

  datatype Response = Response(status: nat, body: Body)

  const NotFound: Response := Response(404, Message("Workout not found"))

  predicate InRange(r: DateRange, t: Timestamp) {
    (r.gte.Some? ==> t >= r.gte.value) && (r.lte.Some? ==> t <= r.lte.value)
  }

  /** How MongoDB evaluates the filter document against a record. */
  predicate Matches(f: Filter, w: Workout) {
    && w.user == f.user
    && (f.workoutDate.Some? ==> InRange(f.workoutDate.value, w.workoutDate))
    && (f.category.Some? ==> w.category == f.category.value)
  }

  /** What the list route selects, stated from the query itself: the
      caller's records, on or after `startDate`, on or before `endDate`,
      of exactly `category`, each condition only when it is given. */
  predicate Selected(caller: UserId, q: Query, w: Workout) {
    && w.user == caller
    && (q.startDate.Some? ==> q.startDate.value <= w.workoutDate)
    && (q.endDate.Some? ==> w.workoutDate <= q.endDate.value)
    && (q.category != "" ==> w.category == q.category)
  }

  /** The selected records of rs, in their stored order. */
  function Select(rs: seq<Workout>, caller: UserId, q: Query): (r: seq<Workout>)
    ensures forall w :: w in r <==> w in rs && Selected(caller, q, w)
    ensures forall w :: multiset(r)[w] == if Selected(caller, q, w) then multiset(rs)[w] else 0
    ensures |r| <= |rs|
  {
    if rs == [] then []
    else
      var last := rs[|rs| - 1];
      var init := Select(rs[..|rs| - 1], caller, q);
      assert rs == rs[..|rs| - 1] + [last];
      if Selected(caller, q, last) then init + [last] else init
  }

  predicate OwnedMatch(w: Workout, caller: UserId, id: WorkoutId) {
    w.id == id && w.user == caller
  }

  /** `{ _id: id, user: caller }`: the first record with that id owned by the caller. */
  function FindOwned(rs: seq<Workout>, caller: UserId, id: WorkoutId): (k: Option<nat>)
    ensures k.Some? ==> k.value < |rs| && OwnedMatch(rs[k.value], caller, id)
    ensures k.Some? ==> forall j :: 0 <= j < k.value ==> !OwnedMatch(rs[j], caller, id)
    ensures k.None? ==> forall j :: 0 <= j < |rs| ==> !OwnedMatch(rs[j], caller, id)
  {
    if rs == [] then None
    else if OwnedMatch(rs[0], caller, id) then Some(0)
    else match FindOwned(rs[1..], caller, id)
      case None => None
      case Some(k) => Some(k + 1)
  }

  predicate IdsDistinct(rs: seq<Workout>) {
    forall i, j :: 0 <= i < j < |rs| ==> rs[i].id != rs[j].id
  }

  /** PUT /:id on a store rs: the response and the new store. */
  function UpdateRoute(rs: seq<Workout>, caller: UserId, id: WorkoutId, b: WorkoutBody, now: Timestamp)
    : (out: (Response, seq<Workout>))
    ensures |out.1| == |rs|
    ensures out.0.status == 200 || out == (NotFound, rs)
    ensures out.0.status == 200 ==> out.0.body.Record? && out.0.body.record in out.1
  {
    match FindOwned(rs, caller, id)
    case None => (NotFound, rs)
    case Some(k) =>
      var w := ApplyUpdate(rs[k], b, now);
      assert rs[k := w][k] == w;
      (Response(200, Record(w)), rs[k := w])
  }

  /** DELETE /:id on a store rs: the response and the new store. */
  function DeleteRoute(rs: seq<Workout>, caller: UserId, id: WorkoutId): (out: (Response, seq<Workout>))
    ensures out.0.status == 200 ==> |out.1| == |rs| - 1 && out.0.body == Message("Workout deleted")
    ensures out.0.status != 200 ==> out == (NotFound, rs)
    ensures multiset(out.1) <= multiset(rs)
  {
    match FindOwned(rs, caller, id)
    case None => (NotFound, rs)
    case Some(k) =>
      assert rs == rs[..k] + [rs[k]] + rs[k + 1..];
      (Response(200, Message("Workout deleted")), rs[..k] + rs[k + 1..])
  }

  /** Update changes exactly the record with that id owned by the caller and
      answers with it as updated; otherwise it answers 404 and changes nothing. */
  lemma {:induction false} UpdateChangesOnlyTheMatch(rs: seq<Workout>, caller: UserId, id: WorkoutId, b: WorkoutBody, now: Timestamp)
    ensures var (resp, rs') := UpdateRoute(rs, caller, id, b, now);
      && |rs'| == |rs|
      && (resp.status == 200 <==> exists k :: 0 <= k < |rs| && OwnedMatch(rs[k], caller, id))
      && (resp.status == 200 ==>
            exists k :: (0 <= k < |rs| && OwnedMatch(rs[k], caller, id)
              && resp.body == Record(ApplyUpdate(rs[k], b, now))
              && rs'[k] == ApplyUpdate(rs[k], b, now)
              && forall j :: 0 <= j < |rs| && j != k ==> rs'[j] == rs[j]))
      && (resp.status != 200 ==> resp == NotFound && rs' == rs)
  {
    match FindOwned(rs, caller, id)
    case None =>
    case Some(k) =>
  }

  /** Delete removes exactly the record with that id owned by the caller and
      keeps every other record in order; otherwise it answers 404 and changes nothing. */
  lemma {:induction false} DeleteRemovesOnlyTheMatch(rs: seq<Workout>, caller: UserId, id: WorkoutId)
    requires IdsDistinct(rs)
    ensures var (resp, rs') := DeleteRoute(rs, caller, id);
      && (resp.status == 200 <==> exists k :: 0 <= k < |rs| && OwnedMatch(rs[k], caller, id))
      && (resp.status == 200 ==> |rs'| == |rs| - 1 && resp.body == Message("Workout deleted"))
      && (resp.status == 200 ==>
            exists k :: 0 <= k < |rs| && OwnedMatch(rs[k], caller, id) && rs' == rs[..k] + rs[k + 1..])
      && (resp.status != 200 ==> resp == NotFound && rs' == rs)
      && (forall w :: w in rs' <==> w in rs && !OwnedMatch(w, caller, id))
      && IdsDistinct(rs')
  {
    match FindOwned(rs, caller, id)
    case None =>
    case Some(k) =>
      RemoveAtKeepsTheOthers(rs, k);
  }

  /** Removing the record at k of a store with distinct ids leaves exactly
      the records with other ids, still with distinct ids. */
  lemma RemoveAtKeepsTheOthers(rs: seq<Workout>, k: nat)
    requires IdsDistinct(rs) && k < |rs|
    ensures forall w :: w in rs[..k] + rs[k + 1..] <==> w in rs && w.id != rs[k].id
    ensures IdsDistinct(rs[..k] + rs[k + 1..])
  {
    var rs' := rs[..k] + rs[k + 1..];
    forall j | 0 <= j < |rs'| ensures rs'[j] == rs[if j < k then j else j + 1] {
    }
    forall w | w in rs' ensures w.id != rs[k].id {
      var j :| 0 <= j < |rs'| && rs'[j] == w;
    }
    forall w | w in rs && w.id != rs[k].id ensures w in rs' {
      var j :| 0 <= j < |rs| && rs[j] == w;
      assert rs'[if j < k then j else j - 1] == w;
    }
    forall i, j | 0 <= i < j < |rs'| ensures rs'[i].id != rs'[j].id {
      assert rs'[i] == rs[if i < k then i else i + 1];
    }
  }

  /** A record that exists but belongs to someone else is "not found", for
      update and delete alike, and the store is left unchanged. */
  lemma OtherOwnersRecordIsNotFound(rs: seq<Workout>, caller: UserId, id: WorkoutId, b: WorkoutBody, now: Timestamp)
    requires IdsDistinct(rs)
    requires exists k :: 0 <= k < |rs| && rs[k].id == id && rs[k].user != caller
    ensures UpdateRoute(rs, caller, id, b, now) == (NotFound, rs)
    ensures DeleteRoute(rs, caller, id) == (NotFound, rs)
  {
    var k :| 0 <= k < |rs| && rs[k].id == id && rs[k].user != caller;
    match FindOwned(rs, caller, id)
    case None =>
    case Some(j) =>
      assert false;
  }

  // ---------------------------------------------------------------------
  // GET /stats: `$match { user }` then `$group` by category.

  /** Number of the caller's records in category c. */
  function CountCat(rs: seq<Workout>, caller: UserId, c: string): (r: nat)
    ensures r <= |rs|
    ensures (forall w :: w in rs ==> w.user != caller || w.category != c) ==> r == 0
  {
    if rs == [] then 0
    else CountCat(rs[..|rs| - 1], caller, c)
         + (if rs[|rs| - 1].user == caller && rs[|rs| - 1].category == c then 1 else 0)
  }

  /** Calories of the caller's records in category c. */
  function CaloriesCat(rs: seq<Workout>, caller: UserId, c: string): (r: int)
    ensures (forall w :: w in rs ==> w.caloriesBurned >= 0) ==> r >= 0
    ensures (forall w :: w in rs ==> w.user != caller || w.category != c) ==> r == 0
  {
    if rs == [] then 0
    else CaloriesCat(rs[..|rs| - 1], caller, c)
         + (if rs[|rs| - 1].user == caller && rs[|rs| - 1].category == c then rs[|rs| - 1].caloriesBurned else 0)
  }

  /** Number of the caller's records. */
  function CountOwned(rs: seq<Workout>, caller: UserId): nat {
    if rs == [] then 0
    else CountOwned(rs[..|rs| - 1], caller) + (if rs[|rs| - 1].user == caller then 1 else 0)
  }

  /** Calories of the caller's records. */
  function CaloriesOwned(rs: seq<Workout>, caller: UserId): int {
    if rs == [] then 0
    else CaloriesOwned(rs[..|rs| - 1], caller) + (if rs[|rs| - 1].user == caller then rs[|rs| - 1].caloriesBurned else 0)
  }

  /** The workout count the rows give category c. */
  function RowCount(rows: seq<CategoryTotal>, c: string): nat {
    if rows == [] then 0
    else (if rows[0].category == c then rows[0].totalWorkouts else 0) + RowCount(rows[1..], c)
  }

  /** The calorie total the rows give category c. */
  function RowCalories(rows: seq<CategoryTotal>, c: string): int {
    if rows == [] then 0
    else (if rows[0].category == c then rows[0].totalCalories else 0) + RowCalories(rows[1..], c)
  }

  function SumCounts(rows: seq<CategoryTotal>): nat {
    if rows == [] then 0 else rows[0].totalWorkouts + SumCounts(rows[1..])
  }

  function SumRowCalories(rows: seq<CategoryTotal>): int {
    if rows == [] then 0 else rows[0].totalCalories + SumRowCalories(rows[1..])
  }

  predicate HasRow(rows: seq<CategoryTotal>, c: string) {
    exists i :: 0 <= i < |rows| && rows[i].category == c
  }

  /** One row per category, none of them empty. */
  predicate WellFormedRows(rows: seq<CategoryTotal>) {
    && (forall i, j :: 0 <= i < j < |rows| ==> rows[i].category != rows[j].category)
    && (forall i :: 0 <= i < |rows| ==> rows[i].totalWorkouts > 0)
  }

  /** With no empty row, c has a row exactly when its tally is positive. */
  lemma {:induction false} HasRowIffCounted(rows: seq<CategoryTotal>, c: string)
    requires forall i :: 0 <= i < |rows| ==> rows[i].totalWorkouts > 0
    ensures HasRow(rows, c) <==> RowCount(rows, c) > 0
  {
    if rows != [] {
      HasRowIffCounted(rows[1..], c);
      if HasRow(rows[1..], c) {
        var i :| 0 <= i < |rows[1..]| && rows[1..][i].category == c;
        assert rows[i + 1].category == c;
      }
      if HasRow(rows, c) && rows[0].category != c {
        var i :| 0 <= i < |rows| && rows[i].category == c;
        assert rows[1..][i - 1].category == c;
      }
    }
  }

  /** In well-formed rows the first row's category has no tally in the others. */
  lemma NoLaterRow(rows: seq<CategoryTotal>)
    requires WellFormedRows(rows) && rows != []
    ensures RowCount(rows[1..], rows[0].category) == 0
  {
    var c0 := rows[0].category;
    forall i | 0 <= i < |rows[1..]| ensures rows[1..][i].category != c0 {
      assert rows[1..][i] == rows[i + 1];
    }
    NoRowNoTally(rows[1..], c0);
  }

  /** A non-empty row put before well-formed rows with no tally for its
      category keeps them well formed. */
  lemma ConsWellFormed(row: CategoryTotal, rest: seq<CategoryTotal>)
    requires WellFormedRows(rest) && row.totalWorkouts > 0
    requires RowCount(rest, row.category) == 0
    ensures WellFormedRows([row] + rest)
  {
    HasRowIffCounted(rest, row.category);
    assert forall t :: 0 <= t < |rest| ==> rest[t].category != row.category;
    var r := [row] + rest;
    forall i, j | 0 <= i < j < |r| ensures r[i].category != r[j].category {
      assert r[j] == rest[j - 1];
      if i > 0 {
        assert r[i] == rest[i - 1];
      }
    }
  }

  /** Folds one record into the groups: its category's row gains the
      record, or a new row is appended for a category not seen before. */
  function AddToGroup(rows: seq<CategoryTotal>, w: Workout): (r: seq<CategoryTotal>)
    requires WellFormedRows(rows)
    ensures WellFormedRows(r)
    ensures forall c :: RowCount(r, c) == RowCount(rows, c) + (if c == w.category then 1 else 0)
    ensures forall c :: RowCalories(r, c) == RowCalories(rows, c) + (if c == w.category then w.caloriesBurned else 0)
    ensures SumCounts(r) == SumCounts(rows) + 1
    ensures SumRowCalories(r) == SumRowCalories(rows) + w.caloriesBurned
  {
    if rows == [] then
      var r := [CategoryTotal(w.category, w.caloriesBurned, 1)];
      assert r[1..] == [];
      r
    else if rows[0].category == w.category then
      var r := [rows[0].(totalCalories := rows[0].totalCalories + w.caloriesBurned,
                         totalWorkouts := rows[0].totalWorkouts + 1)] + rows[1..];
      assert r[1..] == rows[1..];
      r
    else
      var rest := AddToGroup(rows[1..], w);
      var r := [rows[0]] + rest;
      assert r[1..] == rest;
      NoLaterRow(rows);
      ConsWellFormed(rows[0], rest);
      r
  }

  /** The `$group` stage: the caller's records folded in stored order, so
      rows come in order of each category's first appearance. */
  function Group(rs: seq<Workout>, caller: UserId): (rows: seq<CategoryTotal>)
    ensures WellFormedRows(rows)
    ensures forall c :: RowCount(rows, c) == CountCat(rs, caller, c)
    ensures forall c :: RowCalories(rows, c) == CaloriesCat(rs, caller, c)
    ensures SumCounts(rows) == CountOwned(rs, caller)
    ensures SumRowCalories(rows) == CaloriesOwned(rs, caller)
  {
    if rs == [] then []
    else
      var init := Group(rs[..|rs| - 1], caller);
      var w := rs[|rs| - 1];
      if w.user == caller then AddToGroup(init, w) else init
  }

  /** In well-formed rows the row of category c carries c's whole tally. */
  lemma {:induction false} RowCarriesTally(rows: seq<CategoryTotal>, i: nat)
    requires WellFormedRows(rows) && i < |rows|
    ensures RowCount(rows, rows[i].category) == rows[i].totalWorkouts
    ensures RowCalories(rows, rows[i].category) == rows[i].totalCalories
  {
    var c := rows[i].category;
    if i == 0 {
      NoRowNoTally(rows[1..], c);
    } else {
      RowCarriesTally(rows[1..], i - 1);
    }
  }

  lemma {:induction false} NoRowNoTally(rows: seq<CategoryTotal>, c: string)
    requires forall i :: 0 <= i < |rows| ==> rows[i].category != c
    ensures RowCount(rows, c) == 0 && RowCalories(rows, c) == 0
  {
    if rows != [] {
      NoRowNoTally(rows[1..], c);
    }
  }

  /** GET /stats: exactly one row per category among the caller's records,
      each with that category's calorie sum and record count (never 0); the
      counts add up to the caller's record count and the calories to the
      caller's total. */
  lemma StatsRowsAreTheCallersTotals(rs: seq<Workout>, caller: UserId)
    ensures var rows := Group(rs, caller);
      && WellFormedRows(rows)
      && (forall i :: 0 <= i < |rows| ==>
            && rows[i].totalWorkouts == CountCat(rs, caller, rows[i].category)
            && rows[i].totalCalories == CaloriesCat(rs, caller, rows[i].category))
      && (forall w :: w in rs && w.user == caller ==> HasRow(rows, w.category))
      && SumCounts(rows) == CountOwned(rs, caller)
      && SumRowCalories(rows) == CaloriesOwned(rs, caller)
  {
    var rows := Group(rs, caller);
    forall i | 0 <= i < |rows|
      ensures rows[i].totalWorkouts == CountCat(rs, caller, rows[i].category)
      ensures rows[i].totalCalories == CaloriesCat(rs, caller, rows[i].category)
    {
      RowCarriesTally(rows, i);
    }
    forall w | w in rs && w.user == caller ensures HasRow(rows, w.category) {
      var k :| 0 <= k < |rs| && rs[k] == w;
      CountCatPositive(rs, caller, k);
      HasRowIffCounted(rows, w.category);
    }
  }

  lemma {:induction false} CountCatPositive(rs: seq<Workout>, caller: UserId, k: nat)
    requires k < |rs| && rs[k].user == caller
    ensures CountCat(rs, caller, rs[k].category) > 0
    decreases |rs|
  {
    if k < |rs| - 1 {
      assert rs[..|rs| - 1][k] == rs[k];
      CountCatPositive(rs[..|rs| - 1], caller, k);
    }
  }

  /** The store: the collection of workout records. */
  class WorkoutCollection {
    var records: seq<Workout>
    var nextId: WorkoutId

    ghost predicate Valid()
      reads this
    {
      IdsDistinct(records) && forall i :: 0 <= i < |records| ==> records[i].id < nextId
    }

    constructor ()
      ensures Valid() && records == []
    {
      records := [];
      nextId := 0;
    }

    /** Builds the filter document field by field, as the route does. */
    static method BuildFilter(caller: UserId, q: Query) returns (f: Filter)
      ensures forall w :: Matches(f, w) <==> Selected(caller, q, w)
    {
      f := Filter(caller, None, None);
      if q.startDate.Some? || q.endDate.Some? {
        var range := DateRange(None, None);
        if q.startDate.Some? {
          range := range.(gte := q.startDate);
        }
        if q.endDate.Some? {
          range := range.(lte := q.endDate);
        }
        f := f.(workoutDate := Some(range));
      }
      if q.category != "" {
        f := f.(category := Some(q.category));
      }
    }

    /** GET /: the caller's records that satisfy the query, newest first. */
    method List(caller: UserId, q: Query) returns (resp: Response)
      ensures resp.status == 200 && resp.body.Records?
      ensures SortedByDateDesc(resp.body.items)
      ensures multiset(resp.body.items) == multiset(Select(records, caller, q))
      ensures forall w :: w in resp.body.items <==> w in records && Selected(caller, q, w)
    {
      var f := BuildFilter(caller, q);
      var found: seq<Workout> := [];
      var i := 0;
      while i < |records|
        invariant 0 <= i <= |records|
        invariant found == Select(records[..i], caller, q)
      {
        assert records[..i + 1][..i] == records[..i];
        if Matches(f, records[i]) {
          found := found + [records[i]];
        }
        i := i + 1;
      }
      assert records[..i] == records;
      var sorted := SortByDateDesc(found);
      assert forall w :: w in sorted <==> w in multiset(sorted);
      resp := Response(200, Records(sorted));
    }

    /** POST /: stores the body with `user` forced to the caller; a body the
        schema rejects gives 500 and changes nothing. */
    method Create(caller: UserId, body: WorkoutBody, now: Timestamp) returns (resp: Response)
      requires Valid()
      modifies this
      ensures Valid()
      ensures resp.status == 201 <==> Violations(body.(user := Some(caller))) == []
      ensures resp.status == 201 ==>
        && resp.body.Record?
        && resp.body.record.user == caller
        && resp.body.record == CreateRecord(body.(user := Some(caller)), old(nextId), now).value
        && records == old(records) + [resp.body.record]
        && (forall w :: w in old(records) ==> w.id != resp.body.record.id)
      ensures resp.status != 201 ==>
        && resp == Response(500, Invalid(Violations(body.(user := Some(caller)))))
        && records == old(records)
    {
      var b := body.(user := Some(caller));
      match CreateRecord(b, nextId, now)
      case Err(vs) =>
        resp := Response(500, Invalid(vs));
      case Ok(w) =>
        records := records + [w];
        nextId := nextId + 1;
        resp := Response(201, Record(w));
    }

    /** Scans for the first record with that id owned by the caller. */
    method FindIndex(caller: UserId, id: WorkoutId) returns (k: Option<nat>)
      ensures k == FindOwned(records, caller, id)
    {
      var i := 0;
      while i < |records| && !OwnedMatch(records[i], caller, id)
        invariant 0 <= i <= |records|
        invariant forall j :: 0 <= j < i ==> !OwnedMatch(records[j], caller, id)
      {
        i := i + 1;
      }
      k := if i < |records| then Some(i) else None;
      var spec := FindOwned(records, caller, id);
      assert spec.Some? ==> spec.value == i;
    }

    /** PUT /:id */
    method Update(caller: UserId, id: WorkoutId, body: WorkoutBody, now: Timestamp) returns (resp: Response)
      requires Valid()
      modifies this
      ensures Valid()
      ensures (resp, records) == UpdateRoute(old(records), caller, id, body, now)
    {
      var k := FindIndex(caller, id);
      if k.None? {
        resp := NotFound;
        return;
      }
      var w := ApplyUpdate(records[k.value], body, now);
      records := records[k.value := w];
      resp := Response(200, Record(w));
    }

    /** DELETE /:id */
    method Delete(caller: UserId, id: WorkoutId) returns (resp: Response)
      requires Valid()
      modifies this
      ensures Valid()
      ensures (resp, records) == DeleteRoute(old(records), caller, id)
    {
      var k := FindIndex(caller, id);
      if k.None? {
        resp := NotFound;
        return;
      }
      var remaining := records[..k.value] + records[k.value + 1..];
      RemoveAtKeepsTheOthers(records, k.value);
      assert forall j :: 0 <= j < |remaining| ==> remaining[j] in records;
      records := remaining;
      resp := Response(200, Message("Workout deleted"));
    }

    /** GET /stats: one pass over the records, folding the caller's into groups. */
    method Stats(caller: UserId) returns (resp: Response)
      ensures resp == Response(200, Totals(Group(records, caller)))
    {
      var rows: seq<CategoryTotal> := [];
      var i := 0;
      while i < |records|
        invariant 0 <= i <= |records|
        invariant rows == Group(records[..i], caller)
      {
        assert records[..i + 1][..i] == records[..i];
        if records[i].user == caller {
          rows := AddToGroup(rows, records[i]);
        }
        i := i + 1;
      }
      assert records[..i] == records;
      resp := Response(200, Totals(rows));
    }
  }
}
