/** The statistics of client/src/components/Dashboard.js: totals, average,
    this week's count, favourite category, the streak loop, the seven
    weekday buckets and the weekly-goal display arithmetic. Day-of-week is
    time-zone dependent in the source and is a parameter here. */
module Dashboard {
  import opened Base
  import opened WorkoutSchema
  import opened WorkoutOrder

  datatype DashboardStats = DashboardStats(
    totalWorkouts: nat,
    totalCalories: int,
    thisWeekWorkouts: nat,
    averageCalories: int,
    totalDuration: int,
    favoriteCategory: string,
    streak: nat,
    weeklyGoal: nat)

  const WeeklyGoal: nat := 5

  /** The state before any workouts arrive. */
  const InitialStats: DashboardStats := DashboardStats(0, 0, 0, 0, 0, "", 0, WeeklyGoal)

  const WeekMs: int := 7 * DayMs

  // ---------------------------------------------------------------------
  // This week

  /** `workouts.filter(w => w.workoutDate >= weekAgo)`: each workout dated
      at or after the cutoff as often as in the list, and no other. */
  function DatedFrom(ws: seq<Workout>, cutoff: Timestamp): (r: seq<Workout>)
    ensures forall w :: w in r <==> w in ws && w.workoutDate >= cutoff
    ensures forall w :: multiset(r)[w] == if w.workoutDate >= cutoff then multiset(ws)[w] else 0
    ensures |r| <= |ws|
  {
    if ws == [] then []
    else
      var last := ws[|ws| - 1];
      assert ws == ws[..|ws| - 1] + [last];
      var init := DatedFrom(ws[..|ws| - 1], cutoff);
      if last.workoutDate >= cutoff then init + [last] else init
  }

  // ---------------------------------------------------------------------
  // Favourite category

  /** Occurrences of category c. */
  function CountOf(ws: seq<Workout>, c: string): nat {
    if ws == [] then 0
    else CountOf(ws[..|ws| - 1], c) + (if ws[|ws| - 1].category == c then 1 else 0)
  }

  predicate Occurs(ws: seq<Workout>, c: string) {
    exists p :: 0 <= p < |ws| && ws[p].category == c
  }

  /** A category occurs in a list extended by one workout iff it occurs in
      the list or is the new workout's. */
  lemma OccursAppend(init: seq<Workout>, w: Workout, c: string)
    ensures Occurs(init + [w], c) <==> Occurs(init, c) || w.category == c
  {
    var ws := init + [w];
    if Occurs(init, c) {
      var p :| 0 <= p < |init| && init[p].category == c;
      assert ws[p].category == c;
    }
    if w.category == c {
      assert ws[|init|].category == c;
    }
    if Occurs(ws, c) && w.category != c {
      var p :| 0 <= p < |ws| && ws[p].category == c;
      assert init[p].category == c;
    }
  }

  /** The keys of `categoryCount` in insertion order: a category is added
      when the first workout of it is met. */
  function FirstSeen(ws: seq<Workout>): (keys: seq<string>)
    ensures forall i, j :: 0 <= i < j < |keys| ==> keys[i] != keys[j]
    ensures forall c :: c in keys <==> Occurs(ws, c)
  {
    if ws == [] then []
    else
      var init := ws[..|ws| - 1];
      var last := ws[|ws| - 1];
      var k := FirstSeen(init);
      assert ws == init + [last];
      assert forall c :: Occurs(ws, c) <==> Occurs(init, c) || last.category == c by {
        forall c ensures Occurs(ws, c) <==> Occurs(init, c) || last.category == c {
          OccursAppend(init, last, c);
        }
      }
      if last.category in k then k else k + [last.category]
  }

  /** Some workout before position p has category c. */
  predicate PrecededBy(ws: seq<Workout>, p: nat, c: string)
    requires p <= |ws|
  {
    exists q :: 0 <= q < p && ws[q].category == c
  }

  /** Wherever a later key occurs, every earlier key has already occurred before it. */
  predicate InAppearanceOrder(ws: seq<Workout>, keys: seq<string>) {
    forall i, j, p :: 0 <= i < j < |keys| && 0 <= p < |ws| && ws[p].category == keys[j] ==>
      PrecededBy(ws, p, keys[i])
  }

  /** The keys come in order of first appearance. */
  lemma {:induction false} FirstSeenInAppearanceOrder(ws: seq<Workout>)
    ensures InAppearanceOrder(ws, FirstSeen(ws))
    decreases |ws|
  {
    if ws != [] {
      var init := ws[..|ws| - 1];
      var last := ws[|ws| - 1];
      assert ws == init + [last];
      FirstSeenInAppearanceOrder(init);
      var k := FirstSeen(init);
      var keys := FirstSeen(ws);
      forall i, j, p | 0 <= i < j < |keys| && 0 <= p < |ws| && ws[p].category == keys[j]
        ensures PrecededBy(ws, p, keys[i])
      {
        assert keys[i] == k[i];
        assert k[i] in k;
        var p0 :| 0 <= p0 < |init| && init[p0].category == keys[i];
        if j == |k| {
          assert keys[j] == last.category && last.category !in k;
          assert !Occurs(init, last.category);
          assert forall p' :: 0 <= p' < |init| ==> ws[p'].category != last.category by {
            forall p' | 0 <= p' < |init| ensures ws[p'].category != last.category {
              assert ws[p'] == init[p'];
            }
          }
          assert p == |init|;
          assert ws[p0].category == keys[i];
        } else if p < |init| {
          assert keys[j] == k[j];
          assert 0 <= i < j < |k| && 0 <= p < |init| && init[p].category == k[j];
          assert PrecededBy(init, p, k[i]);
          var q :| 0 <= q < p && init[q].category == k[i];
          assert ws[q].category == keys[i];
        } else {
          assert keys[j] == k[j] && k[j] in k;
          var p1 :| 0 <= p1 < |init| && init[p1].category == k[j];
          assert 0 <= i < j < |k| && 0 <= p1 < |init| && init[p1].category == k[j];
          assert PrecededBy(init, p1, k[i]);
          var q :| 0 <= q < p1 && init[q].category == k[i];
          assert ws[q].category == keys[i];
        }
      }
    }
  }

  /** `categoryCount` as the `forEach` leaves it: `(count || 0) + 1` per workout. */
  function Counts(ws: seq<Workout>): (m: map<string, nat>)
  {
    if ws == [] then map[]
    else
      var m := Counts(ws[..|ws| - 1]);
      var c := ws[|ws| - 1].category;
      m[c := (if c in m then m[c] else 0) + 1]
  }

  /** The keys of `categoryCount` are the categories that occur, and each
      maps to its number of occurrences. */
  lemma {:induction false} CountsAreOccurrences(ws: seq<Workout>)
    ensures forall c :: c in Counts(ws) <==> c in FirstSeen(ws)
    ensures forall c :: c in Counts(ws) ==> Counts(ws)[c] == CountOf(ws, c)
    ensures forall c :: c !in Counts(ws) ==> CountOf(ws, c) == 0
    decreases |ws|
  {
    if ws != [] {
      CountsAreOccurrences(ws[..|ws| - 1]);
    }
  }

  /** The step of `reduce((a, b) => categoryCount[a] > categoryCount[b] ? a : b)`;
      an absent key reads as `undefined`, which no comparison favours. */
  function PickLarger(counts: map<string, nat>, a: string, b: string): (r: string)
    ensures r == a || r == b
    ensures a in counts && b in counts ==> counts[r] >= counts[a] && counts[r] >= counts[b]
    ensures a in counts && b in counts && counts[a] == counts[b] ==> r == b
    ensures b in counts && a !in counts ==> r == b
  {
    if a in counts && b in counts && counts[a] > counts[b] then a else b
  }

  /** `keys.reduce(PickLarger, acc)`. */
  function ReduceFavorite(counts: map<string, nat>, acc: string, keys: seq<string>): (r: string)
    decreases |keys|
  {
    if keys == [] then acc else ReduceFavorite(counts, PickLarger(counts, acc, keys[0]), keys[1..])
  }

  /** The favourite category: the reduction over the categories in order
      of first appearance, starting from ''. */
  function Favorite(ws: seq<Workout>): string {
    ReduceFavorite(Counts(ws), "", FirstSeen(ws))
  }

  /** The reduction ends on its start or on one of the keys. */
  lemma {:induction false} ReduceStaysInKeys(counts: map<string, nat>, acc: string, keys: seq<string>)
    ensures ReduceFavorite(counts, acc, keys) == acc || ReduceFavorite(counts, acc, keys) in keys
    decreases |keys|
  {
    if keys != [] {
      ReduceStaysInKeys(counts, PickLarger(counts, acc, keys[0]), keys[1..]);
    }
  }

  /** The favourite is '' when there are no workouts and otherwise a
      category that occurs (or '' itself, should that be a category). */
  lemma FavoriteOccurs(ws: seq<Workout>)
    ensures ws == [] ==> Favorite(ws) == ""
    ensures Favorite(ws) == "" || Occurs(ws, Favorite(ws))
  {
    ReduceStaysInKeys(Counts(ws), "", FirstSeen(ws));
  }

  /** The reduction keeps its start (i is -1) only if that beats every key
      strictly; otherwise it ends on the LAST key of maximal count, at i. */
  lemma {:induction false} ReduceFindsLastMaximum(counts: map<string, nat>, a: string, keys: seq<string>)
    returns (i: int)
    requires keys != []
    requires forall t :: 0 <= t < |keys| ==> keys[t] in counts
    ensures var r := ReduceFavorite(counts, a, keys);
      if a in counts && (forall t :: 0 <= t < |keys| ==> counts[a] > counts[keys[t]]) then r == a && i == -1
      else 0 <= i < |keys| && r == keys[i]
             && (forall t :: 0 <= t < |keys| ==> counts[keys[t]] <= counts[r])
             && (forall t :: i < t < |keys| ==> counts[keys[t]] < counts[r])
    decreases |keys|
  {
    var beatsAll := a in counts && (forall t :: 0 <= t < |keys| ==> counts[a] > counts[keys[t]]);
    var a' := PickLarger(counts, a, keys[0]);
    var rest := keys[1..];
    if rest == [] {
      i := if beatsAll then -1 else 0;
    } else {
      var j := ReduceFindsLastMaximum(counts, a', rest);
      var r := ReduceFavorite(counts, a', rest);
      assert ReduceFavorite(counts, a, keys) == r;
      if a' in counts && (forall t :: 0 <= t < |rest| ==> counts[a'] > counts[rest[t]]) {
        if beatsAll {
          i := -1;
        } else {
          i := 0;
          assert r == a' == keys[0];
          forall t | 0 < t < |keys| ensures counts[keys[t]] < counts[r] {
            assert keys[t] == rest[t - 1];
          }
        }
      } else {
        i := j + 1;
        assert r == rest[j] == keys[i];
        forall t | 0 <= t < |keys| ensures counts[keys[t]] <= counts[r] {
          if t > 0 { assert keys[t] == rest[t - 1]; }
        }
        forall t | i < t < |keys| ensures counts[keys[t]] < counts[r] {
          assert keys[t] == rest[t - 1];
        }
      }
    }
  }

  /** Reducing from '' over keys that are exactly the map's keys ends on
      the last key of maximal count, at i. */
  lemma ReduceFromEmptyFindsLastMaximum(counts: map<string, nat>, keys: seq<string>) returns (i: nat)
    requires keys != []
    requires forall k :: k in keys <==> k in counts
    ensures var r := ReduceFavorite(counts, "", keys);
      && i < |keys| && r == keys[i]
      && (forall t :: 0 <= t < |keys| ==> counts[keys[t]] <= counts[r])
      && (forall t :: i < t < |keys| ==> counts[keys[t]] < counts[r])
  {
    var j := ReduceFindsLastMaximum(counts, "", keys);
    if "" in counts {
      var t :| 0 <= t < |keys| && keys[t] == "";
      assert !(counts[""] > counts[keys[t]]);
    }
    i := j;
  }

  /** For a non-empty list the favourite occurs in it with maximal count,
      and every category after it in first-appearance order has a smaller
      count: among tied categories, the one that appeared first latest wins. */
  lemma FavoriteIsLatestMostFrequent(ws: seq<Workout>)
    requires ws != []
    ensures var fav := Favorite(ws);
      && Occurs(ws, fav)
      && (forall w :: w in ws ==> CountOf(ws, w.category) <= CountOf(ws, fav))
      && exists i :: 0 <= i < |FirstSeen(ws)| && FirstSeen(ws)[i] == fav
           && forall j :: i < j < |FirstSeen(ws)| ==> CountOf(ws, FirstSeen(ws)[j]) < CountOf(ws, fav)
  {
    var keys := FirstSeen(ws);
    var counts := Counts(ws);
    CountsAreOccurrences(ws);
    assert Occurs(ws, ws[0].category);
    var i := ReduceFromEmptyFindsLastMaximum(counts, keys);
    var fav := Favorite(ws);
    assert fav in keys;
    forall w | w in ws ensures CountOf(ws, w.category) <= CountOf(ws, fav) {
      var p :| 0 <= p < |ws| && ws[p] == w;
      assert Occurs(ws, w.category);
      var t :| 0 <= t < |keys| && keys[t] == w.category;
    }
    forall j | i < j < |keys| ensures CountOf(ws, keys[j]) < CountOf(ws, fav) {
      assert keys[j] in keys;
    }
  }

  // ---------------------------------------------------------------------
  // Streak

  /** `Math.floor((currentDate - workoutDate) / (1000 * 60 * 60 * 24))`:
      division by a positive divisor floors, also for a negative difference. */
  function DaysApart(later: Timestamp, earlier: Timestamp): int {
    (later - earlier) / DayMs
  }

  /** The streak loop from a cursor and a streak so far, over dates sorted
      newest first: a date is accepted while floor((cursor - date) / day)
      is at most streak + 1, and the cursor moves to it. */
  function StreakFrom(ds: seq<Timestamp>, cursor: Timestamp, streak: nat): (r: nat)
    ensures streak <= r <= streak + |ds|
  {
    if ds == [] then streak
    else if DaysApart(cursor, ds[0]) <= streak + 1 then StreakFrom(ds[1..], ds[0], streak + 1)
    else streak
  }

  /** The dashboard streak: from now, over the workouts sorted newest first. */
  function Streak(ws: seq<Workout>, now: Timestamp): (r: nat)
    ensures r <= |ws|
  {
    StreakFrom(Dates(SortByDateDesc(ws)), now, 0)
  }

  /** The streak depends only on the multiset of workout dates. */
  lemma StreakDependsOnlyOnDates(ws: seq<Workout>, vs: seq<Workout>, now: Timestamp)
    requires multiset(Dates(ws)) == multiset(Dates(vs))
    ensures Streak(ws, now) == Streak(vs, now)
  {
    SortedDatesDetermined(ws, vs);
  }

  /** A run of workouts all on the same day as the cursor (less than a day
      before it) is accepted in full: each adds one. */
  lemma {:induction false} SameDayEachAddsOne(ds: seq<Timestamp>, cursor: Timestamp, streak: nat)
    requires NonIncreasing(ds)
    requires forall i :: 0 <= i < |ds| ==> cursor - DayMs < ds[i] <= cursor
    ensures StreakFrom(ds, cursor, streak) == streak + |ds|
    decreases |ds|
  {
    if ds != [] {
      var gap := cursor - ds[0];
      assert 0 <= gap < DayMs;
      assert gap / DayMs == 0;
      assert forall i :: 0 <= i < |ds[1..]| ==> ds[0] - DayMs < ds[1..][i] <= ds[0] by {
        forall i | 0 <= i < |ds[1..]| ensures ds[0] - DayMs < ds[1..][i] <= ds[0] {
          assert ds[1..][i] == ds[i + 1];
        }
      }
      SameDayEachAddsOne(ds[1..], ds[0], streak + 1);
    }
  }

  /** Workouts today, yesterday and the day before give a streak of 3. */
  lemma ThreeConsecutiveDays(now: Timestamp)
    ensures StreakFrom([now, now - DayMs, now - 2 * DayMs], now, 0) == 3
  {
    assert [now, now - DayMs, now - 2 * DayMs][1..] == [now - DayMs, now - 2 * DayMs];
    assert [now - DayMs, now - 2 * DayMs][1..] == [now - 2 * DayMs];
    assert (now - now) / DayMs == 0;
    assert (now - (now - DayMs)) / DayMs == 1;
    assert (now - DayMs - (now - 2 * DayMs)) / DayMs == 1;
    assert StreakFrom([now - 2 * DayMs], now - DayMs, 2) == 3;
    assert StreakFrom([now - DayMs, now - 2 * DayMs], now, 1) == 3;
  }

  /** The tolerance grows with the streak: today and two days ago give 2,
      since the second gap of 2 days is at most 1 + 1. */
  lemma SkippedDayStillCounts(now: Timestamp)
    ensures StreakFrom([now, now - 2 * DayMs], now, 0) == 2
  {
    assert [now, now - 2 * DayMs][1..] == [now - 2 * DayMs];
    assert (now - now) / DayMs == 0;
    assert (now - (now - 2 * DayMs)) / DayMs == 2;
  }

  /** A gap larger than streak + 1 days ends the streak: today and three
      days ago give 1. */
  lemma LongGapBreaks(now: Timestamp)
    ensures StreakFrom([now, now - 3 * DayMs], now, 0) == 1
  {
    assert [now, now - 3 * DayMs][1..] == [now - 3 * DayMs];
    assert (now - now) / DayMs == 0;
    assert (now - (now - 3 * DayMs)) / DayMs == 3;
  }

  /** `[...workouts].sort(…)` then the `for … of` loop with its `break`. */
  method ComputeStreak(ws: seq<Workout>, now: Timestamp) returns (streak: nat)
    ensures streak == Streak(ws, now)
    ensures streak <= |ws|
  {
    var sorted := SortByDateDesc(ws);
    var ds := Dates(sorted);
    streak := 0;
    var currentDate := now;
    var i := 0;
    while i < |sorted|
      invariant 0 <= i <= |sorted| && streak == i
      invariant StreakFrom(ds[i..], currentDate, streak) == StreakFrom(ds, now, 0)
    {
      var workoutDate := sorted[i].workoutDate;
      var diffDays := DaysApart(currentDate, workoutDate);
      assert ds[i..][0] == workoutDate && ds[i..][1..] == ds[i + 1..];
      if diffDays <= streak + 1 {
        streak := streak + 1;
        currentDate := workoutDate;
      } else {
        break;
      }
      i := i + 1;
    }
    if i == |sorted| {
      assert ds[i..] == [];
    }
  }

  // ---------------------------------------------------------------------
  // Weekly chart

  /** `dayOfWeek === 0 ? 6 : dayOfWeek - 1`: Monday first, Sunday last. */
  function BucketOf(day: nat): (b: nat)
    requires day < 7
    ensures b < 7
    ensures day == 0 <==> b == 6
    ensures day != 0 ==> b + 1 == day
  {
    if day == 0 then 6 else day - 1
  }

  /** Calories of the workouts whose weekday falls in bucket b. */
  function CaloriesIn(ws: seq<Workout>, weekday: Timestamp -> nat, b: nat): (r: int)
    requires forall t :: weekday(t) < 7
  {
    if ws == [] then 0
    else
      var w := ws[|ws| - 1];
      CaloriesIn(ws[..|ws| - 1], weekday, b) + (if BucketOf(weekday(w.workoutDate)) == b then w.caloriesBurned else 0)
  }

  /** A bucket past Sunday holds nothing, and with no negative calories a
      bucket holds between 0 and the total. */
  lemma {:induction false} CaloriesInBounds(ws: seq<Workout>, weekday: Timestamp -> nat, b: nat)
    requires forall t :: weekday(t) < 7
    ensures b >= 7 ==> CaloriesIn(ws, weekday, b) == 0
    ensures (forall i :: 0 <= i < |ws| ==> ws[i].caloriesBurned >= 0) ==>
      0 <= CaloriesIn(ws, weekday, b) <= SumCalories(ws)
    decreases |ws|
  {
    if ws != [] {
      CaloriesInBounds(ws[..|ws| - 1], weekday, b);
    }
  }

  function SumInts(xs: seq<int>): int {
    if xs == [] then 0 else SumInts(xs[..|xs| - 1]) + xs[|xs| - 1]
  }

  function Buckets(ws: seq<Workout>, weekday: Timestamp -> nat, n: nat): (r: seq<int>)
    requires forall t :: weekday(t) < 7
    ensures |r| == n && forall b :: 0 <= b < n ==> r[b] == CaloriesIn(ws, weekday, b)
  {
    if n == 0 then [] else Buckets(ws, weekday, n - 1) + [CaloriesIn(ws, weekday, n - 1)]
  }

  /** n slots, v in slot x and 0 elsewhere. */
  function Indicator(x: nat, v: int, n: nat): (r: seq<int>)
    ensures |r| == n && forall b :: 0 <= b < n ==> r[b] == if x == b then v else 0
  {
    if n == 0 then [] else Indicator(x, v, n - 1) + [if x == n - 1 then v else 0]
  }

  lemma {:induction false} IndicatorSum(x: nat, v: int, n: nat)
    ensures SumInts(Indicator(x, v, n)) == if x < n then v else 0
  {
    if n > 0 {
      assert Indicator(x, v, n)[..n - 1] == Indicator(x, v, n - 1);
      IndicatorSum(x, v, n - 1);
    }
  }

  function AddPointwise(xs: seq<int>, ys: seq<int>): (r: seq<int>)
    requires |xs| == |ys|
    ensures |r| == |xs| && forall i :: 0 <= i < |xs| ==> r[i] == xs[i] + ys[i]
  {
    if xs == [] then [] else AddPointwise(xs[..|xs| - 1], ys[..|ys| - 1]) + [xs[|xs| - 1] + ys[|ys| - 1]]
  }

  lemma {:induction false} SumIntsAdd(xs: seq<int>, ys: seq<int>)
    requires |xs| == |ys|
    ensures SumInts(AddPointwise(xs, ys)) == SumInts(xs) + SumInts(ys)
    decreases |xs|
  {
    if xs != [] {
      var n := |xs|;
      var r := AddPointwise(xs, ys);
      assert r[..n - 1] == AddPointwise(xs[..n - 1], ys[..n - 1]);
      SumIntsAdd(xs[..n - 1], ys[..n - 1]);
      assert SumInts(r) == SumInts(r[..n - 1]) + r[n - 1];
    }
  }

  /** Every workout lands in exactly one bucket, so the seven buckets add
      up to the total calories. */
  lemma {:induction false} BucketsSumToTotal(ws: seq<Workout>, weekday: Timestamp -> nat)
    requires forall t :: weekday(t) < 7
    ensures SumInts(Buckets(ws, weekday, 7)) == SumCalories(ws)
    decreases |ws|
  {
    if ws != [] {
      var init := ws[..|ws| - 1];
      var w := ws[|ws| - 1];
      var x := BucketOf(weekday(w.workoutDate));
      BucketsSumToTotal(init, weekday);
      var before := Buckets(init, weekday, 7);
      var extra := Indicator(x, w.caloriesBurned, 7);
      IndicatorSum(x, w.caloriesBurned, 7);
      SumIntsAdd(before, extra);
      assert SumInts(extra) == w.caloriesBurned;
      assert SumCalories(ws) == SumCalories(init) + w.caloriesBurned;
      forall b | 0 <= b < 7
        ensures Buckets(ws, weekday, 7)[b] == before[b] + extra[b]
      {
        assert CaloriesIn(ws, weekday, b) == CaloriesIn(init, weekday, b) + extra[b];
      }
      assert Buckets(ws, weekday, 7) == AddPointwise(before, extra);
    } else {
      assert Buckets(ws, weekday, 7) == Indicator(0, 0, 7);
      IndicatorSum(0, 0, 7);
    }
  }

  /** `getWeeklyData`: seven zeroed slots, each workout's calories added
      to the slot of its weekday. */
  method WeeklyData(ws: seq<Workout>, weekday: Timestamp -> nat) returns (data: seq<int>)
    requires forall t :: weekday(t) < 7
    ensures data == Buckets(ws, weekday, 7)
    ensures SumInts(data) == SumCalories(ws)
  {
    var weekData := new int[7](_ => 0);
    var i := 0;
    while i < |ws|
      invariant 0 <= i <= |ws|
      invariant forall b :: 0 <= b < 7 ==> weekData[b] == CaloriesIn(ws[..i], weekday, b)
    {
      assert ws[..i + 1][..i] == ws[..i];
      var adjustedDay := BucketOf(weekday(ws[i].workoutDate));
      weekData[adjustedDay] := weekData[adjustedDay] + ws[i].caloriesBurned;
      i := i + 1;
    }
    assert ws[..i] == ws;
    data := weekData[..];
    BucketsSumToTotal(ws, weekday);
  }

  // ---------------------------------------------------------------------
  // Weekly goal display

  /** `thisWeek / weeklyGoal * 100`, exact since 100 is a multiple of 5. */
  function ProgressPercent(thisWeek: nat): (r: nat)
    ensures r == 20 * thisWeek
  {
    thisWeek * 100 / WeeklyGoal
  }

  /** `Math.min(progressPercentage, 100)`: the bar is full exactly when the
      goal is met, and below that grows by 20 per workout. */
  function BarWidth(thisWeek: nat): (r: nat)
    ensures r <= 100
    ensures r == 100 <==> thisWeek >= WeeklyGoal
    ensures thisWeek < WeeklyGoal ==> r == 20 * thisWeek
  {
    var p := ProgressPercent(thisWeek);
    if p < 100 then p else 100
  }

  /** "Goal achieved" is shown exactly when five or more workouts fall in the week. */
  function GoalAchieved(thisWeek: nat): (r: bool)
    ensures r <==> thisWeek >= WeeklyGoal
  {
    ProgressPercent(thisWeek) >= 100
  }

  /** The doughnut's second slice, `Math.max(0, weeklyGoal - thisWeek)`:
      together with the workouts done (capped at the goal) it makes the goal. */
  function Remaining(thisWeek: nat): (r: nat)
    ensures r == 0 <==> GoalAchieved(thisWeek)
    ensures thisWeek < WeeklyGoal ==> r + thisWeek == WeeklyGoal
  {
    if WeeklyGoal > thisWeek then WeeklyGoal - thisWeek else 0
  }

  // ---------------------------------------------------------------------
  // The stats effect

  /** The statistics the effect computes for a non-empty list. */
  function StatsOf(ws: seq<Workout>, now: Timestamp): (s: DashboardStats)
    ensures s.totalWorkouts == |ws| && s.thisWeekWorkouts <= |ws| && s.streak <= |ws|
    ensures s.totalCalories == SumCalories(ws) && s.totalDuration == SumDuration(ws)
    ensures s.thisWeekWorkouts == |DatedFrom(ws, now - WeekMs)|
    ensures s.weeklyGoal == WeeklyGoal
  {
    var total := SumCalories(ws);
    DashboardStats(
      |ws|, total, |DatedFrom(ws, now - WeekMs)|, RoundedAverage(total, |ws|),
      SumDuration(ws), Favorite(ws), Streak(ws, now), WeeklyGoal)
  }

  /** What the statistics mean: the count and the calorie and duration
      totals of the list; this week's count is the number of workouts dated
      within the last seven days, each counted as often as it is listed;
      the average is the rounded calories per workout, the favourite is the
      most frequent category, and the streak is at most the total. */
  lemma StatsMeaning(ws: seq<Workout>, now: Timestamp)
    requires ws != []
    ensures var s := StatsOf(ws, now);
      && s.totalWorkouts == |ws|
      && s.totalCalories == SumCalories(ws) && s.totalDuration == SumDuration(ws)
      && s.thisWeekWorkouts == |DatedFrom(ws, now - WeekMs)| <= s.totalWorkouts
      && (forall w :: multiset(DatedFrom(ws, now - WeekMs))[w]
                      == if w.workoutDate >= now - 7 * 86400000 then multiset(ws)[w] else 0)
      && 2 * |ws| * s.averageCalories <= 2 * s.totalCalories + |ws| < 2 * |ws| * s.averageCalories + 2 * |ws|
      && Occurs(ws, s.favoriteCategory)
      && (forall w :: w in ws ==> CountOf(ws, w.category) <= CountOf(ws, s.favoriteCategory))
      && s.streak <= s.totalWorkouts
      && s.weeklyGoal == 5
  {
    FavoriteIsLatestMostFrequent(ws);
  }

  /** Computes the statistics as the effect does, with the loops of the source. */
  method ComputeStats(ws: seq<Workout>, now: Timestamp) returns (s: DashboardStats)
    ensures s == StatsOf(ws, now)
  {
    var weekAgo := now - 7 * 24 * 60 * 60 * 1000;
    var thisWeek := DatedFrom(ws, weekAgo);
    var totalCalories := SumCalories(ws);
    var totalDuration := SumDuration(ws);
    var keys, categoryCount := CountCategories(ws);
    var favoriteCategory := ReduceFavorite(categoryCount, "", keys);
    var streak := ComputeStreak(ws, now);
    s := DashboardStats(
      |ws|, totalCalories, |thisWeek|,
      if |ws| > 0 then RoundDiv(totalCalories, |ws|) else 0,
      totalDuration, favoriteCategory, streak, 5);
  }

  lemma CountStep(ws: seq<Workout>, i: nat)
    requires i < |ws|
    ensures var c := ws[i].category; var m := Counts(ws[..i]);
      && FirstSeen(ws[..i + 1]) == (if c in m then FirstSeen(ws[..i]) else FirstSeen(ws[..i]) + [c])
      && Counts(ws[..i + 1]) == m[c := (if c in m then m[c] else 0) + 1]
  {
    assert ws[..i + 1][..i] == ws[..i];
    CountsAreOccurrences(ws[..i]);
  }

  /** The `forEach` that fills `categoryCount`; `keys` is its key order. */
  method CountCategories(ws: seq<Workout>) returns (keys: seq<string>, categoryCount: map<string, nat>)
    ensures keys == FirstSeen(ws)
    ensures categoryCount == Counts(ws)
  {
    keys := [];
    categoryCount := map[];
    var i := 0;
    while i < |ws|
      invariant 0 <= i <= |ws|
      invariant keys == FirstSeen(ws[..i])
      invariant categoryCount == Counts(ws[..i])
    {
      assert ws[..i + 1][..i] == ws[..i];
      CountStep(ws, i);
      var c := ws[i].category;
      var previous := if c in categoryCount then categoryCount[c] else 0;
      if c !in categoryCount {
        keys := keys + [c];
      }
      categoryCount := categoryCount[c := previous + 1];
      i := i + 1;
    }
    assert ws[..i] == ws;
  }

  /** The dashboard's stats state and its effect on a new workout list. */
  class DashboardView {
    var stats: DashboardStats

    constructor ()
      ensures stats == InitialStats
    {
      stats := InitialStats;
    }

    /** The effect re-runs when the list changes; an empty list recomputes
        nothing, so the previous statistics stay. */
    method OnWorkoutsChanged(ws: seq<Workout>, now: Timestamp)
      modifies this
      ensures stats == if ws != [] then StatsOf(ws, now) else old(stats)
    {
      if |ws| > 0 {
        stats := ComputeStats(ws, now);
      }
    }
  }
}
