/** Ordering by `workoutDate`, newest first: the `.sort({ workoutDate: -1 })`
    of the list route and the `[...workouts].sort((a, b) => b - a)` of the
    dashboard. Both are modelled by one stable insertion sort. */
module WorkoutOrder {
  import opened Base
  import opened WorkoutSchema

  predicate SortedByDateDesc(s: seq<Workout>) {
    forall i, j :: 0 <= i < j < |s| ==> s[i].workoutDate >= s[j].workoutDate
  }

  predicate NonIncreasing(ds: seq<Timestamp>) {
    forall i, j :: 0 <= i < j < |ds| ==> ds[i] >= ds[j]
  }

  /** Prepending an element no older than the head keeps the order. */
  lemma ConsSorted(x: Workout, s: seq<Workout>)
    requires SortedByDateDesc(s)
    requires s != [] ==> s[0].workoutDate <= x.workoutDate
    ensures SortedByDateDesc([x] + s)
  {
    var r := [x] + s;
    forall i, j | 0 <= i < j < |r| ensures r[i].workoutDate >= r[j].workoutDate {
      assert r[j] == s[j - 1];
      if i == 0 {
        assert s[0].workoutDate >= s[j - 1].workoutDate;
      } else {
        assert r[i] == s[i - 1];
      }
    }
  }

  /** Inserts w before the first element that is not newer than it. */
  function Insert(w: Workout, s: seq<Workout>): (r: seq<Workout>)
    requires SortedByDateDesc(s)
    ensures SortedByDateDesc(r)
    ensures multiset(r) == multiset(s) + multiset{w}
    ensures |r| == |s| + 1
    ensures r[0] == w || (s != [] && r[0] == s[0])
  {
    if s == [] || s[0].workoutDate <= w.workoutDate then
      ConsSorted(w, s);
      [w] + s
    else
      var rest := Insert(w, s[1..]);
      assert s == [s[0]] + s[1..];
      ConsSorted(s[0], rest);
      [s[0]] + rest
  }

  /** The list ordered newest first: sorted, and a permutation of the input. */
  function SortByDateDesc(s: seq<Workout>): (r: seq<Workout>)
    ensures SortedByDateDesc(r)
    ensures multiset(r) == multiset(s)
    ensures |r| == |s|
  {
    if s == [] then []
    else
      assert s == [s[0]] + s[1..];
      Insert(s[0], SortByDateDesc(s[1..]))
  }

  /** The dates of a list, in its order. */
  function Dates(s: seq<Workout>): (ds: seq<Timestamp>)
    ensures |ds| == |s|
    ensures forall i :: 0 <= i < |s| ==> ds[i] == s[i].workoutDate
  {
    if s == [] then [] else [s[0].workoutDate] + Dates(s[1..])
  }

  lemma DatesCons(x: Workout, s: seq<Workout>)
    ensures Dates([x] + s) == [x.workoutDate] + Dates(s)
  {
    assert ([x] + s)[1..] == s;
  }

  lemma SortedTail(s: seq<Workout>)
    requires s != [] && SortedByDateDesc(s)
    ensures SortedByDateDesc(s[1..])
  {
    forall i, j | 0 <= i < j < |s| - 1 ensures s[1..][i].workoutDate >= s[1..][j].workoutDate {
      assert s[1..][i] == s[i + 1] && s[1..][j] == s[j + 1];
    }
  }

  lemma InsertAfterHead(w: Workout, s: seq<Workout>)
    requires s != [] && SortedByDateDesc(s) && s[0].workoutDate > w.workoutDate
    requires SortedByDateDesc(s[1..])
    ensures Insert(w, s) == [s[0]] + Insert(w, s[1..])
  {
  }

  lemma ConsKeepsMultisetShift(d: Timestamp, e: Timestamp, x: seq<Timestamp>, y: seq<Timestamp>)
    requires multiset(x) == multiset(y) + multiset{e}
    ensures multiset([d] + x) == multiset([d] + y) + multiset{e}
  {
  }

  /** Putting the head of s in front of a list whose dates are those of
      s's tail plus e gives the dates of s plus e. */
  lemma DatesConsShift(s: seq<Workout>, rest: seq<Workout>, e: Timestamp)
    requires s != []
    requires multiset(Dates(rest)) == multiset(Dates(s[1..])) + multiset{e}
    ensures multiset(Dates([s[0]] + rest)) == multiset(Dates(s)) + multiset{e}
  {
    DatesCons(s[0], rest);
    ConsKeepsMultisetShift(s[0].workoutDate, e, Dates(rest), Dates(s[1..]));
  }

  lemma {:induction false} DatesOfInsert(w: Workout, s: seq<Workout>)
    requires SortedByDateDesc(s)
    ensures multiset(Dates(Insert(w, s))) == multiset(Dates(s)) + multiset{w.workoutDate}
    decreases |s|
  {
    if s == [] || s[0].workoutDate <= w.workoutDate {
      DatesCons(w, s);
    } else {
      SortedTail(s);
      DatesOfInsert(w, s[1..]);
      InsertAfterHead(w, s);
      DatesConsShift(s, Insert(w, s[1..]), w.workoutDate);
    }
  }

  /** Sorting permutes the dates too. */
  lemma {:induction false} DatesOfSort(s: seq<Workout>)
    ensures multiset(Dates(SortByDateDesc(s))) == multiset(Dates(s))
    decreases |s|
  {
    if s != [] {
      DatesOfSort(s[1..]);
      DatesOfInsert(s[0], SortByDateDesc(s[1..]));
    }
  }

  /** The head of a non-increasing sequence is its largest element. */
  lemma HeadIsLargest(a: seq<Timestamp>, x: Timestamp)
    requires NonIncreasing(a) && x in multiset(a)
    ensures a != [] && x <= a[0]
  {
    var j :| 0 <= j < |a| && a[j] == x;
    assert j == 0 || a[0] >= a[j];
  }

  lemma TailMultiset(a: seq<Timestamp>)
    requires a != []
    ensures multiset(a[1..]) == multiset(a) - multiset{a[0]}
  {
    assert a == [a[0]] + a[1..];
  }

  lemma HeadsEqual(a: seq<Timestamp>, b: seq<Timestamp>)
    requires NonIncreasing(a) && NonIncreasing(b)
    requires a != [] && multiset(a) == multiset(b)
    ensures b != [] && a[0] == b[0]
    ensures NonIncreasing(a[1..]) && NonIncreasing(b[1..])
    ensures multiset(a[1..]) == multiset(b[1..])
  {
    assert a[0] in multiset(a);
    HeadIsLargest(b, a[0]);
    assert b[0] in multiset(b);
    HeadIsLargest(a, b[0]);
    TailMultiset(a);
    TailMultiset(b);
  }

  /** Two non-increasing sequences with the same elements are equal. */
  lemma {:induction false} NonIncreasingUnique(a: seq<Timestamp>, b: seq<Timestamp>)
    requires NonIncreasing(a) && NonIncreasing(b)
    requires multiset(a) == multiset(b)
    ensures a == b
    decreases |a|
  {
    if a == [] {
      assert |b| == |multiset(b)| == 0;
    } else {
      HeadsEqual(a, b);
      NonIncreasingUnique(a[1..], b[1..]);
      assert a == [a[0]] + a[1..];
      assert b == [b[0]] + b[1..];
    }
  }

  /** The dates of the sorted list depend only on the multiset of dates. */
  lemma SortedDatesDetermined(s: seq<Workout>, t: seq<Workout>)
    requires multiset(Dates(s)) == multiset(Dates(t))
    ensures Dates(SortByDateDesc(s)) == Dates(SortByDateDesc(t))
  {
    DatesOfSort(s);
    DatesOfSort(t);
    NonIncreasingUnique(Dates(SortByDateDesc(s)), Dates(SortByDateDesc(t)));
  }
}
