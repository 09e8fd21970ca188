/** The derivations and handlers of client/src/pages/WorkoutsPage.js: the
    filter object and its merge and reset, the case-insensitive search, the
    quick stats, and the add-or-update dispatch of the form. */
module WorkoutsPage {
  import opened Base
  import opened Text
  import opened WorkoutSchema
  import opened WorkoutRoutes
  import opened WorkoutsHook
  import Dashboard

  /** The `filters` state object. */
  datatype Filters = Filters(startDate: string, endDate: string, category: string, sortBy: string, sortOrder: string)

  const InitialFilters: Filters := Filters("", "", "", "date", "desc")

  /** The `name` of the input a change event comes from. */
  datatype FilterKey = StartDateKey | EndDateKey | CategoryKey | SortByKey | SortOrderKey

  function Get(f: Filters, k: FilterKey): string {
    match k
    case StartDateKey => f.startDate
    case EndDateKey => f.endDate
    case CategoryKey => f.category
    case SortByKey => f.sortBy
    case SortOrderKey => f.sortOrder
  }

  /** `{ ...filters, [name]: value }`: the named key takes the value, every
      other key keeps its own. */
  function With(f: Filters, k: FilterKey, value: string): (r: Filters)
    ensures Get(r, k) == value
    ensures forall k' :: k' != k ==> Get(r, k') == Get(f, k')
  {
    match k
    case StartDateKey => f.(startDate := value)
    case EndDateKey => f.(endDate := value)
    case CategoryKey => f.(category := value)
    case SortByKey => f.(sortBy := value)
    case SortOrderKey => f.(sortOrder := value)
  }

  /** The filter object's entries in key order, as `Object.keys` lists them. */
  function Entries(f: Filters): (r: Fields)
    ensures |r| == 5 && KeysDistinct(r)
    ensures Lookup(r, "startDate") == f.startDate
    ensures Lookup(r, "endDate") == f.endDate
    ensures Lookup(r, "category") == f.category && Lookup(r, "sortBy") == f.sortBy
    ensures Lookup(r, "sortOrder") == f.sortOrder
  {
    var r := [("startDate", f.startDate), ("endDate", f.endDate), ("category", f.category),
              ("sortBy", f.sortBy), ("sortOrder", f.sortOrder)];
    assert KeysDistinct(r) by {
      assert "startDate"[1] != "sortOrder"[1];
    }
    LookupFindsEntry(r, 0);
    LookupFindsEntry(r, 1);
    LookupFindsEntry(r, 2);
    LookupFindsEntry(r, 3);
    LookupFindsEntry(r, 4);
    r
  }

  /** `req.query[key]`: the first value given for the key, '' when absent. */
  function Lookup(params: Fields, key: string): (v: string)
    ensures v != "" ==> (key, v) in params
    ensures (forall kv :: kv in params ==> kv.0 != key) ==> v == ""
  {
    if params == [] then ""
    else if params[0].0 == key then params[0].1
    else Lookup(params[1..], key)
  }

  predicate KeysDistinct(fs: Fields) {
    forall i, j :: 0 <= i < j < |fs| ==> fs[i].0 != fs[j].0
  }

  /** When each key appears once, a key reads as the value of its entry. */
  lemma {:induction false} LookupFindsEntry(fs: Fields, i: nat)
    requires KeysDistinct(fs) && i < |fs|
    ensures Lookup(fs, fs[i].0) == fs[i].1
  {
    if i > 0 {
      var rest := fs[1..];
      assert KeysDistinct(rest) by {
        forall p, q | 0 <= p < q < |rest| ensures rest[p].0 != rest[q].0 {
          assert rest[p] == fs[p + 1] && rest[q] == fs[q + 1];
        }
      }
      assert rest[i - 1] == fs[i];
      LookupFindsEntry(rest, i - 1);
    }
  }

  /** Dropping the entries with empty values does not change what a key
      reads as, when each key appears once. */
  lemma {:induction false} LookupAfterQueryParams(fs: Fields, key: string)
    requires KeysDistinct(fs)
    ensures Lookup(QueryParams(fs), key) == Lookup(fs, key)
  {
    if fs != [] {
      var rest := fs[1..];
      assert KeysDistinct(rest) by {
        forall i, j | 0 <= i < j < |rest| ensures rest[i].0 != rest[j].0 {
          assert rest[i] == fs[i + 1] && rest[j] == fs[j + 1];
        }
      }
      LookupAfterQueryParams(rest, key);
      if fs[0].0 == key && !Truthy(fs[0].1) {
        forall kv | kv in QueryParams(rest) ensures kv.0 != key {
          var i :| 0 <= i < |rest| && rest[i] == kv;
          assert fs[i + 1] == kv;
        }
      }
    }
  }

  /** What GET /workouts reads from a query string: the two date bounds
      (parsed by `parse` when truthy) and the category. */
  function ServerQuery(params: Fields, parse: string -> Timestamp): (q: Query)
    ensures q.startDate.Some? ==> exists v :: v != "" && ("startDate", v) in params && q.startDate.value == parse(v)
    ensures q.endDate.Some? ==> exists v :: v != "" && ("endDate", v) in params && q.endDate.value == parse(v)
    ensures (forall kv :: kv in params ==> kv.0 != "startDate") ==> q.startDate.None?
    ensures (forall kv :: kv in params ==> kv.0 != "endDate") ==> q.endDate.None?
    ensures q.category != "" ==> ("category", q.category) in params
  {
    var s := Lookup(params, "startDate");
    var e := Lookup(params, "endDate");
    Query(if s != "" then Some(parse(s)) else None, if e != "" then Some(parse(e)) else None,
          Lookup(params, "category"))
  }

  /** The server sees the page's date bounds and category exactly. */
  lemma ServerSeesDatesAndCategory(f: Filters, parse: string -> Timestamp)
    ensures ServerQuery(QueryParams(Entries(f)), parse)
      == Query(if f.startDate != "" then Some(parse(f.startDate)) else None,
               if f.endDate != "" then Some(parse(f.endDate)) else None,
               f.category)
  {
    var es := Entries(f);
    LookupAfterQueryParams(es, "startDate");
    LookupAfterQueryParams(es, "endDate");
    LookupAfterQueryParams(es, "category");
  }

  /** `sortBy` and `sortOrder` are sent but never read: changing them does
      not change the query the server evaluates. */
  lemma SortingNotSeenByServer(f: Filters, sortBy: string, sortOrder: string, parse: string -> Timestamp)
    ensures ServerQuery(QueryParams(Entries(f.(sortBy := sortBy, sortOrder := sortOrder))), parse)
      == ServerQuery(QueryParams(Entries(f)), parse)
  {
    ServerSeesDatesAndCategory(f, parse);
    ServerSeesDatesAndCategory(f.(sortBy := sortBy, sortOrder := sortOrder), parse);
  }

  // ---------------------------------------------------------------------
  // Search

  /** The search predicate: the lower-cased term occurs in the lower-cased
      name or the lower-cased category. */
  predicate MatchesSearch(w: Workout, term: string) {
    Contains(ToLower(w.name), ToLower(term)) || Contains(ToLower(w.category), ToLower(term))
  }

  /** `filteredWorkouts`: each matching workout as often as in the list,
      no other, in list order. */
  function SearchFilter(ws: seq<Workout>, term: string): (r: seq<Workout>)
    ensures forall w :: w in r <==> w in ws && MatchesSearch(w, term)
    ensures forall w :: multiset(r)[w] == if MatchesSearch(w, term) then multiset(ws)[w] else 0
    ensures IsSubsequence(r, ws)
  {
    if ws == [] then []
    else
      assert ws == [ws[0]] + ws[1..];
      if MatchesSearch(ws[0], term) then [ws[0]] + SearchFilter(ws[1..], term)
      else SearchFilter(ws[1..], term)
  }

  /** An empty search keeps every workout. */
  lemma {:induction false} EmptySearchKeepsAll(ws: seq<Workout>)
    ensures SearchFilter(ws, "") == ws
  {
    if ws != [] {
      EverythingContainsEmpty(ToLower(ws[0].name));
      EmptySearchKeepsAll(ws[1..]);
    }
  }

  /** The search ignores the letter case of the term. */
  lemma {:induction false} SearchIgnoresCase(ws: seq<Workout>, term: string)
    ensures SearchFilter(ws, ToLower(term)) == SearchFilter(ws, term)
  {
    ToLowerIdempotent(term);
    if ws != [] {
      SearchIgnoresCase(ws[1..], term);
    }
  }

  // ---------------------------------------------------------------------
  // Quick stats

  datatype QuickStats = QuickStats(count: nat, totalCalories: int, hours: int, averageCalories: int)

  /** The four stat cards over the filtered list: count, total calories,
      total duration in rounded hours, and the rounded average (0 when empty). */
  function QuickStatsOf(ws: seq<Workout>): (q: QuickStats)
    ensures q.count == |ws| && q.totalCalories == SumCalories(ws)
    ensures 120 * q.hours <= 2 * SumDuration(ws) + 60 < 120 * q.hours + 120
    ensures ws == [] ==> q.averageCalories == 0
    ensures ws != [] ==>
      2 * |ws| * q.averageCalories <= 2 * SumCalories(ws) + |ws| < 2 * |ws| * q.averageCalories + 2 * |ws|
  {
    var calories := SumCalories(ws);
    QuickStats(|ws|, calories, RoundDiv(SumDuration(ws), 60),
               if |ws| > 0 then RoundDiv(calories, |ws|) else 0)
  }

  /** With no search term the page's count, total and average agree with
      the dashboard's for the same list. */
  lemma QuickStatsAgreeWithDashboard(ws: seq<Workout>, now: Timestamp)
    requires ws != []
    ensures var q := QuickStatsOf(SearchFilter(ws, ""));
      var s := Dashboard.StatsOf(ws, now);
      q.count == s.totalWorkouts && q.totalCalories == s.totalCalories && q.averageCalories == s.averageCalories
  {
    EmptySearchKeepsAll(ws);
  }

  // ---------------------------------------------------------------------
  // Page state

  class PageState {
    var filters: Filters
    var searchTerm: string
    var showForm: bool
    var editing: Option<Workout>
    const cache: WorkoutsCache

    constructor (cache: WorkoutsCache)
      ensures filters == InitialFilters && searchTerm == "" && !showForm && editing == None
      ensures this.cache == cache
    {
      filters := InitialFilters;
      searchTerm := "";
      showForm := false;
      editing := None;
      this.cache := cache;
    }

    /** The list on screen. */
    function FilteredWorkouts(): (r: seq<Workout>)
      reads this, cache
      ensures forall w :: w in r <==> w in cache.workouts && MatchesSearch(w, searchTerm)
      ensures searchTerm == "" ==> r == cache.workouts
    {
      EmptySearchKeepsAll(cache.workouts);
      SearchFilter(cache.workouts, searchTerm)
    }

    /** `handleFilterChange`: one key changes and the list is refetched
        with the merged filters. */
    method HandleFilterChange(k: FilterKey, value: string, reply: Reply<seq<Workout>>) returns (params: Fields)
      modifies this, cache
      ensures filters == With(old(filters), k, value)
      ensures params == QueryParams(Entries(filters))
      ensures cache.workouts == (if reply.Success? then reply.data else old(cache.workouts))
      ensures !cache.loading && cache.stats == old(cache.stats)
      ensures searchTerm == old(searchTerm) && showForm == old(showForm) && editing == old(editing)
    {
      var newFilters := With(filters, k, value);
      filters := newFilters;
      params := cache.FetchWorkouts(Entries(newFilters), reply);
    }

    /** `handleSearchChange` */
    method HandleSearchChange(term: string)
      modifies this
      ensures searchTerm == term
      ensures filters == old(filters) && showForm == old(showForm) && editing == old(editing)
    {
      searchTerm := term;
    }

    /** `handleAddWorkout`: the form opens empty. */
    method HandleAddWorkout()
      modifies this
      ensures showForm && editing == None
      ensures filters == old(filters) && searchTerm == old(searchTerm)
    {
      editing := None;
      showForm := true;
    }

    /** `handleEditWorkout`: the form opens on a workout. */
    method HandleEditWorkout(w: Workout)
      modifies this
      ensures showForm && editing == Some(w)
      ensures filters == old(filters) && searchTerm == old(searchTerm)
    {
      editing := Some(w);
      showForm := true;
    }

    /** `handleDeleteWorkout`: the workout is deleted only when the user
        confirms the dialog; the page's own state stays as it was. */
    method HandleDeleteWorkout(confirmed: bool, id: WorkoutId, reply: Reply<()>, statsReply: Reply<seq<CategoryTotal>>)
      modifies cache
      ensures confirmed && reply.Success? ==> cache.workouts == RemoveById(old(cache.workouts), id)
      ensures confirmed && reply.Success? ==>
        cache.stats == (if statsReply.Success? then statsReply.data else old(cache.stats))
      ensures !confirmed || reply.Failure? ==> cache.workouts == old(cache.workouts) && cache.stats == old(cache.stats)
      ensures cache.loading == old(cache.loading)
      ensures filters == old(filters) && searchTerm == old(searchTerm) && showForm == old(showForm) && editing == old(editing)
    {
      if confirmed {
        var _ := cache.DeleteWorkout(id, reply, statsReply);
      }
    }

    /** `clearAllFilters`: filters and search back to their initial values
        and a refetch with no filters at all. */
    method ClearAllFilters(reply: Reply<seq<Workout>>) returns (params: Fields)
      modifies this, cache
      ensures filters == InitialFilters && searchTerm == ""
      ensures params == []
      ensures cache.workouts == (if reply.Success? then reply.data else old(cache.workouts))
      ensures !cache.loading && cache.stats == old(cache.stats)
      ensures showForm == old(showForm) && editing == old(editing)
    {
      filters := Filters("", "", "", "date", "desc");
      searchTerm := "";
      params := cache.FetchWorkouts([], reply);
    }

    /** `handleFormSubmit`: update when a workout is being edited, add
        otherwise; success closes the form and clears the edited workout,
        failure leaves both. */
    method HandleFormSubmit(reply: Reply<Workout>, statsReply: Reply<seq<CategoryTotal>>) returns (result: OpResult)
      modifies this, cache
      ensures result.success <==> reply.Success?
      ensures old(editing).Some? && reply.Success? ==>
        cache.workouts == ReplaceById(old(cache.workouts), old(editing).value.id, reply.data)
      ensures old(editing).None? && reply.Success? ==>
        cache.workouts == Prepend(reply.data, old(cache.workouts))
      ensures reply.Failure? ==> cache.workouts == old(cache.workouts)
      ensures reply.Success? ==> cache.stats == (if statsReply.Success? then statsReply.data else old(cache.stats))
      ensures reply.Failure? ==> cache.stats == old(cache.stats)
      ensures cache.loading == old(cache.loading)
      ensures reply.Failure? ==> result.error == Some(MessageOr(reply.message,
        if old(editing).Some? then UpdateFailed else AddFailed))
      ensures result.success ==> !showForm && editing == None
      ensures !result.success ==> showForm == old(showForm) && editing == old(editing)
      ensures filters == old(filters) && searchTerm == old(searchTerm)
    {
      if editing.Some? {
        result := cache.UpdateWorkout(editing.value.id, reply, statsReply);
      } else {
        result := cache.AddWorkout(reply, statsReply);
      }
      if result.success {
        showForm := false;
        editing := None;
      }
    }
  }
}
