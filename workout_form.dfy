/** The `WorkoutForm` of client/src/components/Workouts.js: its initial
    values, the one-field change handler, and the submit handler's checks in
    order. Numeric inputs hold '' or a number; the date text of a timestamp
    depends on the time zone and is a parameter. */
module WorkoutForm {
  import opened Base
  import opened Text
  import opened WorkoutSchema
  import opened WorkoutsHook

  /** A numeric input's value: '' when empty, otherwise its number. */
  datatype NumField = Blank | Num(n: int)

  datatype FormData = FormData(
    category: string,
    name: string,
    sets: NumField,
    reps: NumField,
    weight: NumField,
    duration: NumField,
    caloriesBurned: NumField,
    workoutDate: string)

  const NameRequired: string := "Workout name is required"
  const DurationNotPositive: string := "Duration must be greater than 0"
  const CaloriesNotPositive: string := "Calories burned must be greater than 0"

  /** `value || fallback` for a stored number: 0 is falsy. */
  function NumOr(v: int, fallback: NumField): NumField {
    if v != 0 then Num(v) else fallback
  }

  function TextOr(s: string, fallback: string): string {
    if s != "" then s else fallback
  }

  /** The initial `formData`: for a new workout the defaults, for an edited
      one its stored values with each falsy one replaced by the default. A
      new workout's form starts on an allowed category and cannot be
      submitted before a name is typed. */
  function InitialForm(w: Option<Workout>, now: Timestamp, isoDay: Timestamp -> string): (r: FormData)
    ensures w.None? ==> r.category in Categories && Validate(r) == Some(NameRequired)
    ensures w.Some? && w.value.category in Categories ==> r.category in Categories
    ensures r.workoutDate == isoDay(if w.Some? then w.value.workoutDate else now)
  {
    match w
    case None => FormData("Cardio", "", Num(1), Num(0), Num(0), Blank, Blank, isoDay(now))
    case Some(v) =>
      FormData(TextOr(v.category, "Cardio"), v.name, NumOr(v.sets, Num(1)), NumOr(v.reps, Num(0)),
               NumOr(v.weight, Num(0)), NumOr(v.duration, Blank), NumOr(v.caloriesBurned, Blank),
               isoDay(v.workoutDate))
  }

  /** An edited workout whose fields are all truthy is shown as stored; a
      blank category shows as 'Cardio', a zero `sets` as 1, a zero reps or
      weight as 0, and a zero duration or calories as empty. */
  lemma EditFormShowsStoredValues(v: Workout, now: Timestamp, isoDay: Timestamp -> string)
    ensures var f := InitialForm(Some(v), now, isoDay);
      && f.name == v.name && f.workoutDate == isoDay(v.workoutDate)
      && (v.category != "" ==> f.category == v.category) && (v.category == "" ==> f.category == "Cardio")
      && (v.sets != 0 ==> f.sets == Num(v.sets)) && (v.sets == 0 ==> f.sets == Num(1))
      && (v.reps != 0 ==> f.reps == Num(v.reps)) && (v.reps == 0 ==> f.reps == Num(0))
      && (v.weight != 0 ==> f.weight == Num(v.weight)) && (v.weight == 0 ==> f.weight == Num(0))
      && (v.duration != 0 ==> f.duration == Num(v.duration)) && (v.duration == 0 ==> f.duration == Blank)
      && (v.caloriesBurned != 0 ==> f.caloriesBurned == Num(v.caloriesBurned))
      && (v.caloriesBurned == 0 ==> f.caloriesBurned == Blank)
  {
  }

  /** What `!value || value <= 0` lets through: a number above 0. */
  predicate Positive(v: NumField) {
    v.Num? && v.n > 0
  }

  /** The submit checks in order; the first that fails gives the message. */
  function Validate(f: FormData): (err: Option<string>)
    ensures err.None? <==> !IsBlank(f.name) && Positive(f.duration) && Positive(f.caloriesBurned)
    ensures IsBlank(f.name) ==> err == Some(NameRequired)
    ensures !IsBlank(f.name) && !Positive(f.duration) ==> err == Some(DurationNotPositive)
    ensures !IsBlank(f.name) && Positive(f.duration) && !Positive(f.caloriesBurned) ==> err == Some(CaloriesNotPositive)
  {
    TrimEmptyIffBlank(f.name);
    if Trim(f.name) == "" then Some(NameRequired)
    else if f.duration.Blank? || f.duration.n <= 0 then Some(DurationNotPositive)
    else if f.caloriesBurned.Blank? || f.caloriesBurned.n <= 0 then Some(CaloriesNotPositive)
    else None
  }

  /** A new workout's form is stopped at the duration check until a
      positive duration is entered. */
  lemma NewFormNeedsDuration(now: Timestamp, isoDay: Timestamp -> string, name: string)
    requires !IsBlank(name)
    ensures Validate(InitialForm(None, now, isoDay).(name := name)) == Some(DurationNotPositive)
  {
  }

  /** The body a form sends: blank numbers are left out, the date text is
      read by `parse`, and `user` is the caller's. */
  function ToBody(f: FormData, user: UserId, parse: string -> Timestamp): (r: WorkoutBody)
    ensures r.user == Some(user)
    ensures Violations(r) == [] <==>
      f.category in Categories && f.name != "" && f.duration.Num? && f.caloriesBurned.Num?
  {
    WorkoutBody(Some(user), Some(f.category), Some(f.name),
                if f.sets.Num? then Some(f.sets.n) else None,
                if f.reps.Num? then Some(f.reps.n) else None,
                if f.weight.Num? then Some(f.weight.n) else None,
                if f.duration.Num? then Some(f.duration.n) else None,
                if f.caloriesBurned.Num? then Some(f.caloriesBurned.n) else None,
                Some(parse(f.workoutDate)))
  }

  /** A form that passes the client checks, with a category from the
      select, passes the schema's validators when created; the converse
      fails, since the schema admits non-positive numbers. */
  lemma ValidFormPassesSchema(f: FormData, user: UserId, parse: string -> Timestamp)
    requires Validate(f).None? && f.category in Categories
    ensures Violations(ToBody(f, user, parse)) == []
  {
    assert !IsBlank(f.name);
  }

  /** One change event: the input's name and its new value. */
  datatype Change =
    | CategoryInput(s: string)
    | NameInput(s: string)
    | SetsInput(v: NumField)
    | RepsInput(v: NumField)
    | WeightInput(v: NumField)
    | DurationInput(v: NumField)
    | CaloriesInput(v: NumField)
    | DateInput(s: string)

  /** The `name` attribute of a form input. */
  datatype FieldName = CategoryField | NameField | SetsField | RepsField | WeightField
                     | DurationField | CaloriesField | DateField

  /** The value an input holds: text, or a numeric input's value. */
  datatype FieldValue = TextValue(s: string) | NumberValue(v: NumField)

  /** `formData[name]` */
  function Field(f: FormData, k: FieldName): FieldValue {
    match k
    case CategoryField => TextValue(f.category)
    case NameField => TextValue(f.name)
    case SetsField => NumberValue(f.sets)
    case RepsField => NumberValue(f.reps)
    case WeightField => NumberValue(f.weight)
    case DurationField => NumberValue(f.duration)
    case CaloriesField => NumberValue(f.caloriesBurned)
    case DateField => TextValue(f.workoutDate)
  }

  /** The input a change event comes from. */
  function Target(c: Change): FieldName {
    match c
    case CategoryInput(_) => CategoryField
    case NameInput(_) => NameField
    case SetsInput(_) => SetsField
    case RepsInput(_) => RepsField
    case WeightInput(_) => WeightField
    case DurationInput(_) => DurationField
    case CaloriesInput(_) => CaloriesField
    case DateInput(_) => DateField
  }

  /** The value a change event carries. */
  function Value(c: Change): FieldValue {
    match c
    case CategoryInput(s) => TextValue(s)
    case NameInput(s) => TextValue(s)
    case SetsInput(v) => NumberValue(v)
    case RepsInput(v) => NumberValue(v)
    case WeightInput(v) => NumberValue(v)
    case DurationInput(v) => NumberValue(v)
    case CaloriesInput(v) => NumberValue(v)
    case DateInput(s) => TextValue(s)
  }

  /** `handleChange`: `{ ...formData, [name]: value }`: the input's field
      takes the event's value and every other field keeps its own. */
  function Assign(f: FormData, c: Change): (r: FormData)
    ensures Field(r, Target(c)) == Value(c)
    ensures forall k :: k != Target(c) ==> Field(r, k) == Field(f, k)
  {
    match c
    case CategoryInput(s) => f.(category := s)
    case NameInput(s) => f.(name := s)
    case SetsInput(v) => f.(sets := v)
    case RepsInput(v) => f.(reps := v)
    case WeightInput(v) => f.(weight := v)
    case DurationInput(v) => f.(duration := v)
    case CaloriesInput(v) => f.(caloriesBurned := v)
    case DateInput(s) => f.(workoutDate := s)
  }

  /** Changing a field other than name, duration or calories never changes
      the outcome of the checks. */
  lemma OtherFieldsDoNotAffectChecks(f: FormData, c: Change)
    requires !c.NameInput? && !c.DurationInput? && !c.CaloriesInput?
    ensures Validate(Assign(f, c)) == Validate(f)
  {
  }

  /** The form component's state. */
  class FormState {
    var formData: FormData
    var error: string
    var loading: bool

    constructor (w: Option<Workout>, now: Timestamp, isoDay: Timestamp -> string)
      ensures formData == InitialForm(w, now, isoDay) && error == "" && !loading
    {
      formData := InitialForm(w, now, isoDay);
      error := "";
      loading := false;
    }

    method HandleChange(c: Change)
      modifies this
      ensures formData == Assign(old(formData), c)
      ensures error == old(error) && loading == old(loading)
    {
      formData := Assign(formData, c);
    }

    /** `handleSubmit`: the checks with their early returns, then
        `onSubmit`, whose result is a parameter. `submitted` says whether
        `onSubmit` was called. */
    method HandleSubmit(outcome: OpResult) returns (submitted: bool)
      modifies this
      ensures submitted <==> Validate(formData).None?
      ensures !submitted ==> error == Validate(formData).value
      ensures submitted && !outcome.success ==> error == (if outcome.error.Some? then outcome.error.value else "")
      ensures submitted && outcome.success ==> error == ""
      ensures !loading
      ensures formData == old(formData)
    {
      loading := true;
      error := "";
      TrimEmptyIffBlank(formData.name);
      if Trim(formData.name) == "" {
        error := NameRequired;
        loading := false;
        return false;
      }
      if formData.duration.Blank? || formData.duration.n <= 0 {
        error := DurationNotPositive;
        loading := false;
        return false;
      }
      if formData.caloriesBurned.Blank? || formData.caloriesBurned.n <= 0 {
        error := CaloriesNotPositive;
        loading := false;
        return false;
      }
      submitted := true;
      if !outcome.success {
        error := if outcome.error.Some? then outcome.error.value else "";
      }
      loading := false;
    }
  }
}
