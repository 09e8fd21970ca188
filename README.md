# Fitness tracker — a Dafny model

The application lets users register, log in and log workouts. Each workout
records a category, name, sets, reps, weight, duration, calories and a date.
Users list and filter their workouts, edit and delete them, and see totals
and a dashboard.

The model covers both halves of the system:

- **The Express server.**
  - The `Workout` and `User` schemas: validators, defaults, setters, and the
    pre-save password hook.
  - The workout routes: list with date/category filter and newest-first
    sort, create, owner-scoped update and delete, and the per-category
    stats aggregation.
  - The `/login` and `/register` routes.
- **The React client.**
  - The `useWorkouts` hook and its cached list.
  - The workouts page: filters, search, quick stats, and the add/edit
    dispatch.
  - The workout form: initial values, change handler, and client-side checks.
  - The login and registration forms.
  - The dashboard's derived statistics: totals, this week's count, average,
    favourite category, streak, weekly buckets, and goal display.

Modules follow the source files:

| module | file | source |
|---|---|---|
| `Base` | base.dfy | shared options, results, timestamps, `Math.round` of a quotient, string truthiness |
| `Text` | text.dfy | `toLowerCase`, `includes`, `trim` |
| `WorkoutSchema` | workout_schema.dfy | server/models/Workout.js |
| `WorkoutOrder` | workout_order.dfy | the `workoutDate` descending sort used by the list route and the dashboard |
| `WorkoutRoutes` | workout_routes.dfy | server/routes/workouts.js |
| `UserSchema` | user_schema.dfy | server/models/User.js |
| `AuthRoutes` | auth_routes.dfy | server/routes/auth.js |
| `Dashboard` | dashboard.dfy | client/src/components/Dashboard.js |
| `WorkoutsHook` | use_workouts.dfy | client/src/hooks/useWorkouts.js |
| `WorkoutsPage` | workouts_page.dfy | client/src/pages/WorkoutsPage.js |
| `WorkoutForm` | workout_form.dfy | client/src/components/Workouts.js |
| `AuthForms` | auth_forms.dfy | client/src/components/Auth.js |

Some functions are pure: schema checks, route outcomes, dashboard formulas and
list transforms. They are datatypes and functions, with lemmas about them.

Stateful code is modelled as classes whose methods are proved equal to those
functions:
- the document store behind the routes (`WorkoutCollection`, `CredentialStore`);
- a Mongoose user document (`UserDocument`);
- React component and hook state (`WorkoutsCache`, `PageState`, `FormState`,
  `RegisterState`, `LoginState`, `DashboardView`).

The source's loops are methods with loop invariants:
- the streak loop;
- the category tally;
- the weekly buckets;
- the query-string builder;
- the user and record lookups.

Conventions:
- **Times.** Timestamps are integer milliseconds.
- **Rounding.** `Math.round(a / b)` is rounding to nearest with halves up,
  stated by bounds.
- **Store failures.** A failure of the store is a `fault` flag.
- **Network replies.** A server reply the client awaits is a parameter:
  `Success(data)` or `Failure(message)`.
- **Time zones.** The weekday and calendar-day text of a timestamp depend on
  the time zone. They are function parameters.
- **Password hashing.** `bcrypt.hash` and `bcrypt.compare` are a `Hasher`
  parameter. The only thing assumed of it is `Sound`: a password matches its
  own hash.

Two behaviours of the code worth knowing:

- **Streak.** The accepted gap grows with the streak: `diffDays <= streak + 1`.
  So workouts today and two days ago give a streak of 2, not 1
  (`Dashboard.SkippedDayStillCounts`). A gap of three days after the first
  workout breaks it (`Dashboard.LongGapBreaks`).
- **Favourite category on a tie.** `reduce` keeps `b` unless `a` is strictly
  larger. So the favourite is the *last* category, in order of first
  appearance, that has the maximal count, not the first
  (`Dashboard.FavoriteIsLatestMostFrequent`).

## Model

| member | source | states |
|---|---|---|
| `Base.RoundDiv` | client/src/components/Dashboard.js:68 | the result is the integer nearest to a/b, halves rounded up |
| `Base.RoundedAverage` | client/src/components/Dashboard.js:68 | the average is 0 when there is nothing to count, otherwise the nearest integer to total/count |
| `Base.MessageOr` | client/src/hooks/useWorkouts.js:41 | the text is the fallback or the server's message; a non-empty server message always wins; with a non-empty fallback the text is never empty |
| `Text.ToLower` | client/src/pages/WorkoutsPage.js:29-30 | same length, each character mapped by ASCII lower-casing, no upper-case ASCII letter left |
| `Text.Utf16Length` | server/models/User.js:7 | the UTF-16 length `minlength` and `.length` count lies between the number of characters and twice that, and equals it when every character is in the Basic Multilingual Plane |
| `Text.ThreeEmojiAreSixUnits` | server/models/User.js:7 | three emoji are three characters but six UTF-16 code units |
| `Text.ToLowerIdempotent` | client/src/pages/WorkoutsPage.js:29-30 | lower-casing twice is lower-casing once |
| `Text.Contains` | client/src/pages/WorkoutsPage.js:29-30 | `includes` holds exactly when the term occurs at some position |
| `Text.EverythingContainsEmpty` | client/src/pages/WorkoutsPage.js:29-30 | every string includes the empty term |
| `Text.Trim` | client/src/components/Workouts.js:25 | the result is a slice of the input with only whitespace cut from both ends, and it neither starts nor ends with whitespace |
| `Text.TrimEmptyIffBlank` | client/src/components/Workouts.js:25 | trimming gives '' exactly when the string is all whitespace |
| `WorkoutSchema.Violations` | server/models/Workout.js:4-11 | a body is accepted exactly when user, name, duration and calories are present and the category is one of the six allowed values |
| `WorkoutSchema.CreateRecord` | server/models/Workout.js:3-13 | creation fails with the violations exactly when there are some; otherwise the record carries the new id and the given user, allowed category, non-empty name, duration and calories, and both timestamps are the creation time |
| `WorkoutSchema.DefaultsApplied` | server/models/Workout.js:7-12 | absent sets, reps, weight and date become 1, 0, 0 and the creation time; given values are kept |
| `WorkoutSchema.NoLowerBounds` | server/models/Workout.js:7-11 | negative numbers are accepted, since the schema has no minimum |
| `WorkoutSchema.ApplyUpdate` | server/routes/workouts.js:41-45 | each field given in the body takes its new value and each absent one keeps the old; the id and creation time are kept and the modification time is set |
| `WorkoutSchema.UpdateTwiceIsUpdateOnce` | server/routes/workouts.js:41-45 | applying the same update body twice is applying it once, at the later time |
| `WorkoutSchema.UpdateNameOnly` | server/routes/workouts.js:41-45 | a body with only a name changes only the name and the modification time |
| `WorkoutSchema.UpdateCanReassignOwner` | server/routes/workouts.js:43 | the unfiltered update body can move a record to another user and store a category outside the allowed ones |
| `WorkoutSchema.SumCalories` | client/src/components/Dashboard.js:35 | the total of no workouts is 0, and it is not negative when no workout's calories are |
| `WorkoutSchema.SumDuration` | client/src/components/Dashboard.js:36 | the total of no workouts is 0, and it is not negative when no workout's duration is |
| `WorkoutSchema.SumCaloriesAppend` | client/src/components/Dashboard.js:35 | the calorie total of two lists is the sum of their totals |
| `WorkoutOrder.Insert` | server/routes/workouts.js:21 | inserting into a newest-first list keeps it newest-first and adds exactly that record |
| `WorkoutOrder.SortByDateDesc` | server/routes/workouts.js:21 | the sorted list is newest-first and a permutation of the input |
| `WorkoutOrder.DatesOfSort` | client/src/components/Dashboard.js:48 | sorting permutes the workout dates |
| `WorkoutOrder.NonIncreasingUnique` | client/src/components/Dashboard.js:48 | two non-increasing date sequences with the same dates are equal |
| `WorkoutOrder.SortedDatesDetermined` | client/src/components/Dashboard.js:48 | the sorted date sequence depends only on the multiset of dates, whatever the input order or tie order |
| `WorkoutRoutes.Select` | server/routes/workouts.js:11-21 | a record is listed exactly when it is the caller's and meets each given bound and the given category, as often as it is stored |
| `WorkoutRoutes.FindOwned` | server/routes/workouts.js:41-42 | the index of the first record with that id owned by the caller, or none when there is no such record |
| `WorkoutRoutes.UpdateRoute` | server/routes/workouts.js:39-51 | the store keeps its length; either 200 with the updated record, which is in the new store, or 404 and no change |
| `WorkoutRoutes.DeleteRoute` | server/routes/workouts.js:54-62 | 200 "Workout deleted" removes one record and nothing else; any other answer is 404 with no change |
| `WorkoutRoutes.UpdateChangesOnlyTheMatch` | server/routes/workouts.js:39-51 | 200 exactly when the caller owns a record with that id; that record is replaced by its update and answered, every other record is unchanged; otherwise 404 and no change |
| `WorkoutRoutes.DeleteRemovesOnlyTheMatch` | server/routes/workouts.js:54-62 | 200 "Workout deleted" exactly when the caller owns a record with that id; then that record is cut out, the others keep their order, and ids stay distinct; otherwise 404 and no change |
| `WorkoutRoutes.RemoveAtKeepsTheOthers` | server/routes/workouts.js:55 | with distinct ids, removing one record leaves exactly the records with other ids, still distinct |
| `WorkoutRoutes.OtherOwnersRecordIsNotFound` | server/routes/workouts.js:46 | another user's record is "not found" for update and delete, and stays as it is |
| `WorkoutRoutes.CountCat` | server/routes/workouts.js:68-69 | a category's count is at most the number of records, and 0 when the caller has no record of it |
| `WorkoutRoutes.CaloriesCat` | server/routes/workouts.js:68-69 | a category's calories are 0 when the caller has no record of it, and not negative when no record's calories are |
| `WorkoutRoutes.HasRowIffCounted` | server/routes/workouts.js:69 | with no empty group, a category has a row exactly when its count is positive |
| `WorkoutRoutes.NoLaterRow` | server/routes/workouts.js:69 | in one-row-per-category groups, the first row's category has no tally in the rest |
| `WorkoutRoutes.ConsWellFormed` | server/routes/workouts.js:69 | a new non-empty row for a category without a tally keeps one row per category |
| `WorkoutRoutes.AddToGroup` | server/routes/workouts.js:69 | folding in one record adds 1 and its calories to its category's row only, keeping one row per category |
| `WorkoutRoutes.Group` | server/routes/workouts.js:67-70 | the groups hold, per category, the caller's record count and calorie total, one non-empty row per category |
| `WorkoutRoutes.RowCarriesTally` | server/routes/workouts.js:69 | a category's row carries that category's whole tally |
| `WorkoutRoutes.NoRowNoTally` | server/routes/workouts.js:69 | a category without a row has a zero tally |
| `WorkoutRoutes.StatsRowsAreTheCallersTotals` | server/routes/workouts.js:65-75 | every row's count and calories are the caller's totals for its category, and every category the caller used has a row |
| `WorkoutRoutes.CountCatPositive` | server/routes/workouts.js:68-69 | a category of one of the caller's records has a positive count |
| `WorkoutRoutes.WorkoutCollection.constructor` | server/models/Workout.js:15 | an empty, well-formed collection |
| `WorkoutRoutes.WorkoutCollection.BuildFilter` | server/routes/workouts.js:12-19 | the filter document matches exactly the records the query selects |
| `WorkoutRoutes.WorkoutCollection.List` | server/routes/workouts.js:9-26 | 200 with exactly the selected records, newest first |
| `WorkoutRoutes.WorkoutCollection.Create` | server/routes/workouts.js:29-36 | 201 exactly when the body with `user` forced to the caller passes the schema, and then the new record is appended; otherwise 500 and no change |
| `WorkoutRoutes.WorkoutCollection.FindIndex` | server/routes/workouts.js:41-42 | the scan finds the same index as `FindOwned` |
| `WorkoutRoutes.WorkoutCollection.Update` | server/routes/workouts.js:39-51 | the response and new store are those of `UpdateRoute` |
| `WorkoutRoutes.WorkoutCollection.Delete` | server/routes/workouts.js:54-62 | the response and new store are those of `DeleteRoute` |
| `WorkoutRoutes.WorkoutCollection.Stats` | server/routes/workouts.js:65-75 | 200 with the groups of the caller's records |
| `UserSchema.UserViolations` | server/models/User.js:5-7 | a user is accepted exactly when name and email are non-empty and the password has at least 6 UTF-16 code units |
| `UserSchema.InputViolations` | server/models/User.js:5-7 | registration input is accepted exactly when the name is not blank, the email is non-empty and the password has at least 6 UTF-16 code units |
| `UserSchema.EmojiPasswordIsLongEnough` | server/models/User.js:7 | a password of three emoji meets the minimum length |
| `UserSchema.HashIfModified` | server/models/User.js:14-18 | an unmodified password is left as it is; a modified one is replaced by a hash it matches, with a sound library |
| `UserSchema.ComparePassword` | server/models/User.js:22-27 | with a sound library, a password matches a stored hash of itself |
| `UserSchema.NewUser` | server/models/User.js:4-18 | the stored user has the new id, the trimmed name, the lower-cased email, the defaults, both timestamps at creation, and a password hash the given password matches with a sound library |
| `UserSchema.UserDocument.constructor` | server/models/User.js:4-11 | the name is trimmed, the email lower-cased, age null, image '' and theme light, and the password counts as modified |
| `UserSchema.UserDocument.SetPassword` | server/models/User.js:15 | assigning a password marks it modified and changes nothing else |
| `UserSchema.UserDocument.PreSave` | server/models/User.js:14-19 | the password is re-hashed exactly when it was modified |
| `UserSchema.UserDocument.Save` | server/models/User.js:4-19 | validation runs on the plain password first; a failure changes nothing, a success hashes a modified password and clears the modified mark |
| `UserSchema.SaveTwice` | server/models/User.js:14-19 | a second save does not hash again, so the original password still matches the stored hash |
| `AuthRoutes.GenerateToken` | server/routes/auth.js:6 | the token carries the id and lasts 604800 seconds, seven days |
| `AuthRoutes.LoginRoute` | server/routes/auth.js:9-54 | a missing field gives 400; success is 200 with a seven-day token for a stored user with the lower-cased email; every failure is one of the 400, 401 and 500 answers |
| `AuthRoutes.RegisterRoute` | server/routes/auth.js:57-87 | a fault gives 500; success is 201 with a seven-day token for the new id and exactly one user appended; every failure is the 400 or 500 answer with no change |
| `AuthRoutes.FindByEmail` | server/routes/auth.js:21 | the first user with that email, or none when no user has it |
| `AuthRoutes.LoginMissingFieldsFirst` | server/routes/auth.js:16-18 | a missing or empty email or password is answered 400 before the store is consulted |
| `AuthRoutes.LoginRejectsUniformly` | server/routes/auth.js:21-36 | 401 "Invalid credentials" exactly when no user has the email or its password does not match |
| `AuthRoutes.LoginGrantsStoredIdentity` | server/routes/auth.js:39-49 | a successful login answers 200 with a matching stored user's id, name and email and a seven-day token for that id |
| `AuthRoutes.DuplicateRegistrationRejected` | server/routes/auth.js:64-67 | an email already registered, in any ASCII letter case, is answered 400 "User already exists" and nobody is added |
| `AuthRoutes.RegistrationAddsOneUser` | server/routes/auth.js:57-87 | 201 exactly when there is no fault, the input passes the schema and the email is new; then one user is added and emails stay distinct; otherwise 400 or 500 and nobody is added |
| `AuthRoutes.RegisterThenLogin` | server/routes/auth.js:9-87 | with a sound hashing library, a user who has just registered logs in with the same email and password and gets the new identity |
| `AuthRoutes.CredentialStore.constructor` | server/models/User.js:29 | an empty, well-formed user store |
| `AuthRoutes.CredentialStore.FindUser` | server/routes/auth.js:21 | the scan finds the same user as `FindByEmail` |
| `AuthRoutes.CredentialStore.Login` | server/routes/auth.js:9-54 | the early-return handler answers what `LoginRoute` does |
| `AuthRoutes.CredentialStore.Register` | server/routes/auth.js:57-87 | the handler's response and new store are those of `RegisterRoute`, and emails stay distinct |
| `Dashboard.DatedFrom` | client/src/components/Dashboard.js:31-33 | this week's workouts are those dated at or after the cutoff, each as often as in the list, and no other |
| `Dashboard.OccursAppend` | client/src/components/Dashboard.js:39-42 | a category occurs in a longer list exactly when it occurs in the prefix or is the new workout's |
| `Dashboard.FirstSeen` | client/src/components/Dashboard.js:39-43 | the tally's keys are distinct and are exactly the categories that occur |
| `Dashboard.FirstSeenInAppearanceOrder` | client/src/components/Dashboard.js:39-43 | the keys come in order of each category's first appearance |
| `Dashboard.CountsAreOccurrences` | client/src/components/Dashboard.js:39-42 | the tally has exactly the occurring categories as keys and each one's number of workouts as value |
| `Dashboard.PickLarger` | client/src/components/Dashboard.js:43-44 | one of the two keys; with both counted, one of maximal count, and the second on a tie; an uncounted first key loses |
| `Dashboard.ReduceStaysInKeys` | client/src/components/Dashboard.js:43-45 | the reduction ends on its start or on one of the keys |
| `Dashboard.FavoriteOccurs` | client/src/components/Dashboard.js:38-45 | the favourite is '' for no workouts, and otherwise '' or a category that occurs |
| `Dashboard.ReduceFindsLastMaximum` | client/src/components/Dashboard.js:43-45 | the reduction returns a key of maximal count, and no later key has as large a count |
| `Dashboard.ReduceFromEmptyFindsLastMaximum` | client/src/components/Dashboard.js:43-45 | from the initial '' the reduction returns a key, of maximal count, after which every key has a smaller count |
| `Dashboard.FavoriteIsLatestMostFrequent` | client/src/components/Dashboard.js:38-45 | the favourite occurs, no category occurs more often, and every category first seen after it occurs strictly less often |
| `Dashboard.StreakFrom` | client/src/components/Dashboard.js:49-62 | the loop adds at most one per workout to the streak it starts from |
| `Dashboard.Streak` | client/src/components/Dashboard.js:48-62 | the streak is at most the number of workouts |
| `Dashboard.StreakDependsOnlyOnDates` | client/src/components/Dashboard.js:48-62 | workout lists with the same dates have the same streak, whatever their order |
| `Dashboard.SameDayEachAddsOne` | client/src/components/Dashboard.js:54-58 | workouts all within the day before the cursor each extend the streak |
| `Dashboard.ThreeConsecutiveDays` | client/src/components/Dashboard.js:49-62 | today, yesterday and the day before give a streak of 3 |
| `Dashboard.SkippedDayStillCounts` | client/src/components/Dashboard.js:56 | today and two days ago give a streak of 2 |
| `Dashboard.LongGapBreaks` | client/src/components/Dashboard.js:56-61 | today and three days ago give a streak of 1 |
| `Dashboard.ComputeStreak` | client/src/components/Dashboard.js:48-62 | the loop with its `break` computes `Streak`, at most the number of workouts |
| `Dashboard.BucketOf` | client/src/components/Dashboard.js:146-147 | Sunday goes to the last bucket and every other day one bucket earlier |
| `Dashboard.CaloriesInBounds` | client/src/components/Dashboard.js:142-151 | a bucket past the seventh holds nothing, and with no negative calories each bucket holds between 0 and the total |
| `Dashboard.Buckets` | client/src/components/Dashboard.js:142-151 | bucket b holds the calories of the workouts whose day maps to b |
| `Dashboard.BucketsSumToTotal` | client/src/components/Dashboard.js:142-151 | the seven buckets add up to the total calories |
| `Dashboard.WeeklyData` | client/src/components/Dashboard.js:142-151 | the array filled workout by workout holds the buckets, which add up to the total calories |
| `Dashboard.ProgressPercent` | client/src/components/Dashboard.js:215 | the progress is 20% per workout this week |
| `Dashboard.BarWidth` | client/src/components/Dashboard.js:215-229 | the bar is at most 100% wide, full exactly when the goal of 5 is reached, and 20% per workout below it |
| `Dashboard.GoalAchieved` | client/src/components/Dashboard.js:215-233 | "Goal achieved!" shows exactly when at least 5 workouts fall in the week |
| `Dashboard.Remaining` | client/src/components/Dashboard.js:296 | the remaining slice is 0 exactly when the goal is achieved, and otherwise makes up the difference to 5 |
| `Dashboard.StatsOf` | client/src/components/Dashboard.js:25-75 | the count, the calorie and duration totals, this week's count, a streak at most the count, and the goal of 5 |
| `Dashboard.StatsMeaning` | client/src/components/Dashboard.js:25-75 | for a non-empty list: the count; the calorie and duration totals; this week's count, the number of workouts dated within the last seven days, each as often as listed, at most the count; the rounded average; a category no other occurs more often than; a streak at most the count; and the goal of 5 |
| `Dashboard.ComputeStats` | client/src/components/Dashboard.js:25-75 | the effect's computation gives `StatsOf` |
| `Dashboard.CountStep` | client/src/components/Dashboard.js:40-42 | one more workout adds one to its category's tally and leaves the rest |
| `Dashboard.CountCategories` | client/src/components/Dashboard.js:39-42 | the `forEach` tally has the categories in first-appearance order and each one's count |
| `Dashboard.DashboardView.constructor` | client/src/components/Dashboard.js:12-21 | all stats start at 0 or '' with a weekly goal of 5 |
| `Dashboard.DashboardView.OnWorkoutsChanged` | client/src/components/Dashboard.js:25-75 | a non-empty list sets the stats it determines; an empty list leaves the old stats |
| `WorkoutsHook.QueryParams` | client/src/hooks/useWorkouts.js:12-15 | the parameters are exactly the filter entries with a non-empty value, in their order |
| `WorkoutsHook.QueryParamsAppend` | client/src/hooks/useWorkouts.js:13-14 | one more entry at the end is appended to the parameters exactly when its value is truthy |
| `WorkoutsHook.BuildParams` | client/src/hooks/useWorkouts.js:12-15 | the front-to-back `forEach` builds `QueryParams` |
| `WorkoutsHook.Prepend` | client/src/hooks/useWorkouts.js:37 | the new record first, then the old list |
| `WorkoutsHook.ReplaceById` | client/src/hooks/useWorkouts.js:48 | same length; every entry with the id becomes the returned record, others stay |
| `WorkoutsHook.RemoveById` | client/src/hooks/useWorkouts.js:59 | every entry with the id is dropped, every other one is kept with its multiplicity and in order |
| `WorkoutsHook.RemoveAbsentId` | client/src/hooks/useWorkouts.js:59 | deleting an id nobody has changes nothing |
| `WorkoutsHook.AddThenDeleteRestores` | client/src/hooks/useWorkouts.js:37-59 | adding a record with a new id then deleting it restores the list |
| `WorkoutsHook.DeleteAfterUpdate` | client/src/hooks/useWorkouts.js:48-59 | deleting after updating an id is deleting it |
| `WorkoutsHook.UpdateIdempotent` | client/src/hooks/useWorkouts.js:48 | applying the same update twice is applying it once |
| `WorkoutsHook.WorkoutsCache.constructor` | client/src/hooks/useWorkouts.js:5-7 | no workouts, loading, no stats |
| `WorkoutsHook.WorkoutsCache.FetchWorkouts` | client/src/hooks/useWorkouts.js:9-23 | sends the truthy filters; a reply replaces the list, a failure keeps it; loading ends either way |
| `WorkoutsHook.WorkoutsCache.FetchStats` | client/src/hooks/useWorkouts.js:25-32 | a reply replaces the stats, a failure keeps them |
| `WorkoutsHook.WorkoutsCache.AddWorkout` | client/src/hooks/useWorkouts.js:34-43 | success puts the created record first and refreshes the stats; failure changes nothing and reports the server's message or "Failed to add workout" |
| `WorkoutsHook.WorkoutsCache.UpdateWorkout` | client/src/hooks/useWorkouts.js:45-54 | success replaces the entries with that id by the returned record; failure changes nothing and reports the server's message or "Failed to update workout" |
| `WorkoutsHook.WorkoutsCache.DeleteWorkout` | client/src/hooks/useWorkouts.js:56-65 | success drops the entries with that id; failure changes nothing and reports the server's message or "Failed to delete workout" |
| `WorkoutsPage.With` | client/src/pages/WorkoutsPage.js:19 | the changed key takes the new value and every other key keeps its own |
| `WorkoutsPage.Entries` | client/src/pages/WorkoutsPage.js:8-14 | five entries with distinct keys, each key reading as its filter's value |
| `WorkoutsPage.Lookup` | server/routes/workouts.js:11 | a query key reads as a value given for it, or '' when it is not given |
| `WorkoutsPage.LookupFindsEntry` | server/routes/workouts.js:11 | when each key appears once, a key reads as its entry's value |
| `WorkoutsPage.ServerQuery` | server/routes/workouts.js:11-17 | a date bound is set only from a non-empty value given for it, and is absent when its key is not given; the category is one given |
| `WorkoutsPage.LookupAfterQueryParams` | client/src/hooks/useWorkouts.js:12-15 | dropping empty values does not change what a key reads as |
| `WorkoutsPage.ServerSeesDatesAndCategory` | client/src/hooks/useWorkouts.js:12-16 | the server reads exactly the page's date bounds (when set) and category |
| `WorkoutsPage.SortingNotSeenByServer` | server/routes/workouts.js:11 | `sortBy` and `sortOrder` are sent but never change the query |
| `WorkoutsPage.SearchFilter` | client/src/pages/WorkoutsPage.js:28-31 | a workout is shown exactly when the lower-cased term occurs in its lower-cased name or category, as often as it is listed, in list order |
| `WorkoutsPage.EmptySearchKeepsAll` | client/src/pages/WorkoutsPage.js:28-31 | an empty search shows every workout |
| `WorkoutsPage.SearchIgnoresCase` | client/src/pages/WorkoutsPage.js:28-31 | the letter case of the term does not matter |
| `WorkoutsPage.QuickStatsOf` | client/src/pages/WorkoutsPage.js:195-215 | the count, the calorie total, the duration in hours rounded to nearest and the rounded average (0 when empty) |
| `WorkoutsPage.QuickStatsAgreeWithDashboard` | client/src/pages/WorkoutsPage.js:195-215 | with no search term the page's count, total and average equal the dashboard's |
| `WorkoutsPage.PageState.constructor` | client/src/pages/WorkoutsPage.js:6-15 | filters empty with sort by date descending, no search, form closed |
| `WorkoutsPage.PageState.FilteredWorkouts` | client/src/pages/WorkoutsPage.js:28-31 | the list on screen holds exactly the cached workouts matching the search, and all of them when the search is empty |
| `WorkoutsPage.PageState.HandleFilterChange` | client/src/pages/WorkoutsPage.js:18-22 | one key changes and the list is refetched with the merged filters' truthy entries |
| `WorkoutsPage.PageState.HandleSearchChange` | client/src/pages/WorkoutsPage.js:24-26 | only the search term changes |
| `WorkoutsPage.PageState.HandleAddWorkout` | client/src/pages/WorkoutsPage.js:33-36 | the form opens with no workout being edited |
| `WorkoutsPage.PageState.HandleEditWorkout` | client/src/pages/WorkoutsPage.js:38-41 | the form opens on the given workout |
| `WorkoutsPage.PageState.HandleDeleteWorkout` | client/src/pages/WorkoutsPage.js:55-59 | the workout is deleted, and the stats refreshed, only when the dialog is confirmed and the delete succeeds; otherwise list and stats stay; loading and the page's own state stay |
| `WorkoutsPage.PageState.ClearAllFilters` | client/src/pages/WorkoutsPage.js:61-65 | filters and search return to their initial values and the list is refetched with no parameters; loading ends and the stats stay |
| `WorkoutsPage.PageState.HandleFormSubmit` | client/src/pages/WorkoutsPage.js:43-53 | update when editing, add otherwise; success closes the form, clears the edited workout and refreshes the stats, failure leaves form, list and stats and passes the error on; loading stays |
| `WorkoutForm.InitialForm` | client/src/components/Workouts.js:4-13 | a new form has an allowed category and stops at the name check; an edited workout with an allowed category keeps one; the date is the day of the workout, or of now for a new form |
| `WorkoutForm.EditFormShowsStoredValues` | client/src/components/Workouts.js:4-13 | an edited workout shows its stored name, date and values; a blank category shows as 'Cardio', a zero sets as 1, a zero reps or weight as 0, a zero duration or calories as empty |
| `WorkoutForm.ToBody` | client/src/components/Workouts.js:41 | the body is the caller's and passes the schema exactly when the category is allowed, the name non-empty and duration and calories are given |
| `WorkoutForm.Validate` | client/src/components/Workouts.js:25-39 | the form passes exactly when the trimmed name is non-empty and duration and calories are above 0; otherwise the first failing check's message, in the order name, duration, calories |
| `WorkoutForm.NewFormNeedsDuration` | client/src/components/Workouts.js:10-11 | a new form with only a name is stopped at the duration check |
| `WorkoutForm.ValidFormPassesSchema` | client/src/components/Workouts.js:41 | a form that passes the client checks, with an allowed category, passes the server schema |
| `WorkoutForm.Assign` | client/src/components/Workouts.js:17 | the named input takes the new value and every other field is kept |
| `WorkoutForm.OtherFieldsDoNotAffectChecks` | client/src/components/Workouts.js:17-39 | changing a field other than name, duration or calories does not change the check's verdict |
| `WorkoutForm.FormState.constructor` | client/src/components/Workouts.js:4-15 | the initial form, no error, not loading |
| `WorkoutForm.FormState.HandleChange` | client/src/components/Workouts.js:17 | one field changes, error and loading stay |
| `WorkoutForm.FormState.HandleSubmit` | client/src/components/Workouts.js:19-46 | submits exactly when the checks pass; otherwise shows the check's message; a failed submission shows its error; loading ends |
| `AuthForms.RegisterCheck` | client/src/components/Auth.js:118-125 | the form is sent exactly when the passwords match and have at least 6 UTF-16 code units; a mismatch is reported before the length |
| `AuthForms.RegisterRequest` | client/src/components/Auth.js:137-141 | the request carries the form's name and email, and a password that, once the checks pass, equals the confirmation and is long enough |
| `AuthForms.ErrorText` | client/src/components/Auth.js:46-51 | with a non-empty fallback, an error shows exactly when the reply was not ok; a rejection shows the server's non-empty message, or else the fallback; a network failure shows "Network error: " and the reason |
| `AuthForms.ReplyOf` | client/src/components/Auth.js:31-47 | the reply is ok exactly when the server granted; a denial's non-empty message is the text shown, and a grant shows none |
| `AuthForms.ClientAcceptedRegistrationSucceeds` | client/src/components/Auth.js:118-141 | a form that passes the client checks, with a non-blank name and a new email, is registered |
| `AuthForms.EmptyLoginFieldShowsServerMessage` | client/src/components/Auth.js:12-48 | an empty login field yields the server's "Please provide email and password" |
| `AuthForms.RegisterState.constructor` | client/src/components/Auth.js:102-109 | empty fields, no error, not loading |
| `AuthForms.RegisterState.HandleSubmit` | client/src/components/Auth.js:114-170 | a failing check shows its message and sends nothing; otherwise sends name, email and password, shows the reply's error text and ends loading |
| `AuthForms.LoginState.constructor` | client/src/components/Auth.js:4-7 | empty fields, no error, not loading |
| `AuthForms.LoginState.HandleSubmit` | client/src/components/Auth.js:12-54 | sends the form's email and password, shows the reply's error text and ends loading |

## Left out

- **Unmodelled files.** The rendering (JSX, chart.js datasets, labels,
  `toLocaleString`) is not part of this model, and neither are
  client/src/App.js, Navbar.js, Profile.js, utils/api.js and server/server.js.
  The authentication middleware (server/middleware/auth.js) is not part of
  this model either; the caller's id is a parameter. No server route serves
  the profile endpoint the client calls.
- **Library internals.** The internals of bcrypt and jsonwebtoken are left
  out. A token is its payload and lifetime, and the hash is a parameter.
- **Browser side effects.** `localStorage`, navigation, `console` logging and
  the `setTimeout` redirect are left out. These are side effects outside the
  state modelled.
- **Time and dates.** Time zones and date parsing are left out: `getDay`,
  `toISOString`'s day and `new Date(text)` are function parameters.
- **Asynchrony.** The timing of async calls is left out. Each handler takes
  the reply it awaits as a parameter. The un-awaited `fetchStats` after an
  add, update or delete is applied at once, and interleaved requests are not
  modelled.
- **Store errors in the workout routes.** Cast errors, such as a malformed
  id, and 500s raised by the store are left out. The one 500 kept is a create
  rejected by the schema. The auth routes keep a store failure as `fault`.
- **Mongo internals.** `$group` has no defined order; the model produces the
  rows in first-appearance order. ObjectIds are natural numbers, and fresh
  ones come from a counter.
- **Type casting.** Mongoose's casting of strings to numbers and dates is
  left out. Values of the wrong type do not arise, because fields are typed.
- `WorkoutForm.ToBody`: a blank sets, reps or weight input is sent as absent,
  so the default applies. The source sends '' and Mongoose casts it to null.
- `WorkoutForm.Validate`: number inputs are numbers or blank. A non-numeric
  text that a `<input type="number">` cannot hold is not modelled.
- `Text.ToLower`: only ASCII letters are lowered. `toLowerCase` maps every
  Unicode capital, so an "É" in a search term or an email stays upper-case in
  the model.
- `AuthRoutes.DuplicateRegistrationRejected`: emails that differ only in
  non-ASCII letter case count as different, following `Text.ToLower`.
- `UserSchema.UserViolations`: the UTF-16 length is computed from Unicode
  scalar values, so a password holding an unpaired surrogate is not modelled.
- `UserSchema.InputViolations`: the same UTF-16 length as
  `UserSchema.UserViolations`, with the same limit.
- `AuthForms.RegisterCheck`: `password.length` is the same UTF-16 length, with
  the same limit.
- **Numbers.** Sets, reps, weight, duration and calories are integers. The
  source also accepts fractions, such as a duration of 0.5, and sums them as
  floating point; that is not modelled.
- `AuthRoutes.FindByEmail`: `findOne({ email })` is assumed to lower-case the
  queried email like the schema's setter. A register body with no email at
  all, which is `findOne({ email: undefined })`, is not modelled, because
  input fields are strings.
- `AuthRoutes.LoginRoute`: the `unique` index on `email` is not enforced by
  the store. The register route's duplicate check is what keeps emails
  distinct here, and concurrent registrations are not modelled.
- `Dashboard.Favorite`: JavaScript lists integer-like object keys before the
  others. Categories are taken to be non-numeric, which holds for the six
  allowed names.
- `Dashboard.StatsOf`: `monthAgo` is computed and never used, so it has no
  counterpart.
- **Date filter bounds.** The list route's `$gte`/`$lte` on
  `new Date(startDate)` are compared as parsed timestamps. Invalid date text
  is not modelled.
