/** The workout record of server/models/Workout.js: its fields, the category
    enumeration, the required fields and the defaults applied on creation,
    and the unvalidated field-by-field overwrite that an update performs. */
module WorkoutSchema {
  import opened Base

  type WorkoutId = nat

  /** The values the `category` enum admits. */
  const Categories: seq<string> := ["Cardio", "Strength", "Flexibility", "Yoga", "Sports", "Other"]

  /** A stored workout. Numbers are integers here; `category` is a string
      because only creation checks it against the enum. */
  datatype Workout = Workout(
    id: WorkoutId,
    user: UserId,
    category: string,
    name: string,
    sets: int,
    reps: int,
    weight: int,
    duration: int,
    caloriesBurned: int,
    workoutDate: Timestamp,
    createdAt: Timestamp,
    updatedAt: Timestamp)

  /** A request body: every field may be absent (`None` is `undefined`). */
  datatype WorkoutBody = WorkoutBody(
    user: Option<UserId>,
    category: Option<string>,
    name: Option<string>,
    sets: Option<int>,
    reps: Option<int>,
    weight: Option<int>,
    duration: Option<int>,
    caloriesBurned: Option<int>,
    workoutDate: Option<Timestamp>)

  const EmptyBody: WorkoutBody := WorkoutBody(None, None, None, None, None, None, None, None, None)

  /** One failed schema validator, named by the path it guards. */
  datatype Violation = Required(path: string) | NotInEnum(path: string, value: string)

  /** A required String fails on `undefined` and on the empty string. */
  predicate MissingString(v: Option<string>) {
    v.None? || v.value == ""
  }

  /** Every validator that rejects the body, in schema order. */
  function Violations(b: WorkoutBody): (vs: seq<Violation>)
    ensures vs == [] <==>
      && b.user.Some?
      && b.category.Some? && b.category.value in Categories
      && b.name.Some? && b.name.value != ""
      && b.duration.Some?
      && b.caloriesBurned.Some?
  {
    (if b.user.None? then [Required("user")] else [])
    + (if MissingString(b.category) then [Required("category")]
       else if b.category.value !in Categories then [NotInEnum("category", b.category.value)]
       else [])
    + (if MissingString(b.name) then [Required("name")] else [])
    + (if b.duration.None? then [Required("duration")] else [])
    + (if b.caloriesBurned.None? then [Required("caloriesBurned")] else [])
  }

  /** `actual` is the given value when there is one, `otherwise` when not. */
  predicate GivenOr<T(==)>(given: Option<T>, otherwise: T, actual: T) {
    if given.Some? then actual == given.value else actual == otherwise
  }

  function Default<T>(v: Option<T>, d: T): T {
    if v.Some? then v.value else d
  }

  /** `Workout.create(body)`: rejects the body when any validator fails;
      otherwise stores the given fields, fills `sets` = 1, `reps` = 0,
      `weight` = 0 and `workoutDate` = now when they are absent, and stamps
      both timestamps with now. */
  function CreateRecord(b: WorkoutBody, id: WorkoutId, now: Timestamp): (r: Result<Workout, seq<Violation>>)
    ensures r.Err? <==> Violations(b) != []
    ensures r.Err? ==> r.error == Violations(b)
    ensures r.Ok? ==>
      && r.value.id == id
      && r.value.user == b.user.value
      && r.value.category == b.category.value && r.value.category in Categories
      && r.value.name == b.name.value && r.value.name != ""
      && r.value.duration == b.duration.value
      && r.value.caloriesBurned == b.caloriesBurned.value
      && r.value.createdAt == now && r.value.updatedAt == now
  {
    var vs := Violations(b);
    if vs != [] then Err(vs)
    else Ok(Workout(
      id, b.user.value, b.category.value, b.name.value,
      Default(b.sets, 1), Default(b.reps, 0), Default(b.weight, 0),
      b.duration.value, b.caloriesBurned.value,
      Default(b.workoutDate, now), now, now))
  }

  /** Absent optional fields take the schema defaults on creation. */
  lemma DefaultsApplied(b: WorkoutBody, id: WorkoutId, now: Timestamp)
    requires Violations(b) == []
    ensures var w := CreateRecord(b, id, now).value;
      && GivenOr(b.sets, 1, w.sets)
      && GivenOr(b.reps, 0, w.reps)
      && GivenOr(b.weight, 0, w.weight)
      && GivenOr(b.workoutDate, now, w.workoutDate)
  {
  }

  /** The schema sets no lower bound: a body with negative duration,
      calories, sets, reps and weight is stored as given. */
  lemma NoLowerBounds(id: WorkoutId, now: Timestamp)
    ensures var b := WorkoutBody(Some(1), Some("Yoga"), Some("Stretch"), Some(-1), Some(-2), Some(-3),
                                 Some(-4), Some(-5), None);
      && CreateRecord(b, id, now).Ok?
      && CreateRecord(b, id, now).value.duration == -4
      && CreateRecord(b, id, now).value.caloriesBurned == -5
      && CreateRecord(b, id, now).value.sets == -1
  {
    var b := WorkoutBody(Some(1), Some("Yoga"), Some("Stretch"), Some(-1), Some(-2), Some(-3),
                         Some(-4), Some(-5), None);
    assert "Yoga" == Categories[3];
  }

  /** `findOneAndUpdate(…, body)`: every field present in the body
      overwrites the stored one and every absent field is kept, without
      validators (the enum and the required checks do not run); the id and
      `createdAt` stay and `updatedAt` becomes now. */
  function ApplyUpdate(w: Workout, b: WorkoutBody, now: Timestamp): (r: Workout)
    ensures r.id == w.id && r.createdAt == w.createdAt && r.updatedAt == now
    ensures GivenOr(b.user, w.user, r.user) && GivenOr(b.category, w.category, r.category)
    ensures GivenOr(b.name, w.name, r.name)
    ensures GivenOr(b.sets, w.sets, r.sets) && GivenOr(b.reps, w.reps, r.reps)
    ensures GivenOr(b.weight, w.weight, r.weight) && GivenOr(b.duration, w.duration, r.duration)
    ensures GivenOr(b.caloriesBurned, w.caloriesBurned, r.caloriesBurned)
    ensures GivenOr(b.workoutDate, w.workoutDate, r.workoutDate)
  {
    w.(
      user := Default(b.user, w.user),
      category := Default(b.category, w.category),
      name := Default(b.name, w.name),
      sets := Default(b.sets, w.sets),
      reps := Default(b.reps, w.reps),
      weight := Default(b.weight, w.weight),
      duration := Default(b.duration, w.duration),
      caloriesBurned := Default(b.caloriesBurned, w.caloriesBurned),
      workoutDate := Default(b.workoutDate, w.workoutDate),
      updatedAt := now)
  }

  /** Sending the same update twice stores what sending it once does,
      apart from the time of the last update. */
  lemma {:induction false} UpdateTwiceIsUpdateOnce(w: Workout, b: WorkoutBody, t1: Timestamp, t2: Timestamp)
    ensures ApplyUpdate(ApplyUpdate(w, b, t1), b, t2) == ApplyUpdate(w, b, t2)
  {
  }

  /** Updating one field changes that field and `updatedAt` and nothing else. */
  lemma UpdateNameOnly(w: Workout, name: string, now: Timestamp)
    ensures ApplyUpdate(w, EmptyBody.(name := Some(name)), now) == w.(name := name, updatedAt := now)
  {
  }

  /** The body is not filtered: a `user` field in it hands the record to
      another owner, and a category outside the enum is stored as given. */
  lemma UpdateCanReassignOwner(w: Workout, other: UserId, now: Timestamp)
    ensures ApplyUpdate(w, EmptyBody.(user := Some(other), category := Some("Chess")), now).user == other
    ensures ApplyUpdate(w, EmptyBody.(user := Some(other), category := Some("Chess")), now).category !in Categories
  {
  }

  /** Sum of `caloriesBurned`, as `reduce((sum, w) => sum + w.caloriesBurned, 0)`:
      0 for no workouts, and never negative when no entry is. */
  function SumCalories(ws: seq<Workout>): (r: int)
    ensures ws == [] ==> r == 0
    ensures (forall i :: 0 <= i < |ws| ==> ws[i].caloriesBurned >= 0) ==> r >= 0
  {
    if ws == [] then 0 else SumCalories(ws[..|ws| - 1]) + ws[|ws| - 1].caloriesBurned
  }

  /** Sum of `duration`: 0 for no workouts, and never negative when no
      entry is. */
  function SumDuration(ws: seq<Workout>): (r: int)
    ensures ws == [] ==> r == 0
    ensures (forall i :: 0 <= i < |ws| ==> ws[i].duration >= 0) ==> r >= 0
  {
    if ws == [] then 0 else SumDuration(ws[..|ws| - 1]) + ws[|ws| - 1].duration
  }

  lemma {:induction false} SumCaloriesAppend(a: seq<Workout>, b: seq<Workout>)
    ensures SumCalories(a + b) == SumCalories(a) + SumCalories(b)
    decreases |b|
  {
    if b != [] {
      assert (a + b)[..|a + b| - 1] == a + b[..|b| - 1];
      SumCaloriesAppend(a, b[..|b| - 1]);
    } else {
      assert a + b == a;
    }
  }
}
