/** The workout cache of client/src/hooks/useWorkouts.js: the list, the
    loading flag and the per-category stats, and how each server reply
    changes them. Requests are I/O: each method takes the reply the server
    gave as a parameter. */
module WorkoutsHook {
  import opened Base
  import opened WorkoutSchema
  import opened WorkoutRoutes

  /** A plain object of string fields, in key order. */
  type Fields = seq<(string, string)>

  /** What a request came back with: the response data, or an error carrying
      the response's `message` when there was one. */
  datatype Reply<T> = Success(data: T) | Failure(message: Option<string>)

  /** `{ success, error }` as the mutations return it. */
  datatype OpResult = OpResult(success: bool, error: Option<string>)

  const AddFailed: string := "Failed to add workout"
  const UpdateFailed: string := "Failed to update workout"
  const DeleteFailed: string := "Failed to delete workout"

  /** The query string of `fetchWorkouts`: the filter entries whose value is truthy. */
  function QueryParams(filters: Fields): (ps: Fields)
    ensures forall kv :: kv in ps <==> kv in filters && Truthy(kv.1)
    ensures IsSubsequence(ps, filters)
  {
    if filters == [] then []
    else if Truthy(filters[0].1) then [filters[0]] + QueryParams(filters[1..])
    else QueryParams(filters[1..])
  }

  /** One more entry at the end adds it to the query string when truthy. */
  lemma {:induction false} QueryParamsAppend(filters: Fields, kv: (string, string))
    ensures QueryParams(filters + [kv]) == QueryParams(filters) + (if Truthy(kv.1) then [kv] else [])
  {
    if filters != [] {
      assert (filters + [kv])[1..] == filters[1..] + [kv];
      QueryParamsAppend(filters[1..], kv);
    }
  }

  /** The `forEach` that appends the truthy entries to `params`, front to back. */
  method BuildParams(filters: Fields) returns (params: Fields)
    ensures params == QueryParams(filters)
  {
    params := [];
    var i := 0;
    while i < |filters|
      invariant 0 <= i <= |filters|
      invariant params == QueryParams(filters[..i])
    {
      assert filters[..i + 1] == filters[..i] + [filters[i]];
      QueryParamsAppend(filters[..i], filters[i]);
      if Truthy(filters[i].1) {
        params := params + [filters[i]];
      }
      i := i + 1;
    }
    assert filters[..i] == filters;
  }

  /** `[response.data, ...prev]` */
  function Prepend(record: Workout, ws: seq<Workout>): (r: seq<Workout>)
    ensures |r| == |ws| + 1 && r[0] == record && r[1..] == ws
  {
    [record] + ws
  }

  /** `prev.map(w => w._id === id ? response.data : w)` */
  function ReplaceById(ws: seq<Workout>, id: WorkoutId, record: Workout): (r: seq<Workout>)
    ensures |r| == |ws|
    ensures forall i :: 0 <= i < |ws| ==> r[i] == if ws[i].id == id then record else ws[i]
  {
    if ws == [] then []
    else [if ws[0].id == id then record else ws[0]] + ReplaceById(ws[1..], id, record)
  }

  /** `prev.filter(w => w._id !== id)` */
  function RemoveById(ws: seq<Workout>, id: WorkoutId): (r: seq<Workout>)
    ensures forall w :: multiset(r)[w] == if w.id == id then 0 else multiset(ws)[w]
    ensures IsSubsequence(r, ws)
  {
    if ws == [] then []
    else if ws[0].id != id then
      assert ws == [ws[0]] + ws[1..];
      [ws[0]] + RemoveById(ws[1..], id)
    else
      assert ws == [ws[0]] + ws[1..];
      RemoveById(ws[1..], id)
  }

  /** Removing an id nobody has leaves the list as it is. */
  lemma {:induction false} RemoveAbsentId(ws: seq<Workout>, id: WorkoutId)
    requires forall w :: w in ws ==> w.id != id
    ensures RemoveById(ws, id) == ws
  {
    if ws != [] {
      RemoveAbsentId(ws[1..], id);
    }
  }

  /** Adding a record with a fresh id and then deleting that id restores the list. */
  lemma AddThenDeleteRestores(ws: seq<Workout>, record: Workout)
    requires forall w :: w in ws ==> w.id != record.id
    ensures RemoveById(Prepend(record, ws), record.id) == ws
  {
    RemoveAbsentId(ws, record.id);
  }

  /** Deleting after updating the same id (with a record that keeps its id)
      is the same as deleting straight away. */
  lemma {:induction false} DeleteAfterUpdate(ws: seq<Workout>, id: WorkoutId, record: Workout)
    requires record.id == id
    ensures RemoveById(ReplaceById(ws, id, record), id) == RemoveById(ws, id)
  {
    if ws != [] {
      DeleteAfterUpdate(ws[1..], id, record);
      assert ReplaceById(ws, id, record)[1..] == ReplaceById(ws[1..], id, record);
    }
  }

  /** Updating twice with the same record is updating once. */
  lemma {:induction false} UpdateIdempotent(ws: seq<Workout>, id: WorkoutId, record: Workout)
    requires record.id == id
    ensures ReplaceById(ReplaceById(ws, id, record), id, record) == ReplaceById(ws, id, record)
  {
    if ws != [] {
      UpdateIdempotent(ws[1..], id, record);
      assert ReplaceById(ws, id, record)[1..] == ReplaceById(ws[1..], id, record);
    }
  }

  /** The hook's state. */
  class WorkoutsCache {
    var workouts: seq<Workout>
    var loading: bool
    var stats: seq<CategoryTotal>

    /** `useState([])`, `useState(true)`, `useState([])`. */
    constructor ()
      ensures workouts == [] && loading && stats == []
    {
      workouts := [];
      loading := true;
      stats := [];
    }

    /** `fetchWorkouts(filters)`: sends the truthy filters; a reply replaces
        the list, a failure keeps it; `loading` ends false either way. */
    method FetchWorkouts(filters: Fields, reply: Reply<seq<Workout>>) returns (params: Fields)
      modifies this
      ensures params == QueryParams(filters)
      ensures workouts == (if reply.Success? then reply.data else old(workouts))
      ensures !loading
      ensures stats == old(stats)
    {
      loading := true;
      params := BuildParams(filters);
      if reply.Success? {
        workouts := reply.data;
      }
      loading := false;
    }

    /** `fetchStats()`: a reply replaces the stats, a failure keeps them. */
    method FetchStats(reply: Reply<seq<CategoryTotal>>)
      modifies this
      ensures stats == (if reply.Success? then reply.data else old(stats))
      ensures workouts == old(workouts) && loading == old(loading)
    {
      if reply.Success? {
        stats := reply.data;
      }
    }

    /** `addWorkout`: the stored record goes first and the stats are
        refreshed; on failure nothing changes. */
    method AddWorkout(reply: Reply<Workout>, statsReply: Reply<seq<CategoryTotal>>) returns (result: OpResult)
      modifies this
      ensures reply.Success? ==> workouts == Prepend(reply.data, old(workouts))
      ensures reply.Success? ==> stats == (if statsReply.Success? then statsReply.data else old(stats))
      ensures reply.Success? <==> result.success
      ensures reply.Success? ==> result.error == None
      ensures reply.Failure? ==> workouts == old(workouts) && stats == old(stats)
      ensures reply.Failure? ==> result.error == Some(MessageOr(reply.message, AddFailed))
      ensures loading == old(loading)
    {
      match reply
      case Failure(message) =>
        return OpResult(false, Some(MessageOr(message, AddFailed)));
      case Success(record) =>
        workouts := Prepend(record, workouts);
        FetchStats(statsReply);
        result := OpResult(true, None);
    }

    /** `updateWorkout(id, …)`: every entry with that id becomes the stored
        record and the stats are refreshed; on failure nothing changes. */
    method UpdateWorkout(id: WorkoutId, reply: Reply<Workout>, statsReply: Reply<seq<CategoryTotal>>)
      returns (result: OpResult)
      modifies this
      ensures reply.Success? ==> workouts == ReplaceById(old(workouts), id, reply.data)
      ensures reply.Success? ==> stats == (if statsReply.Success? then statsReply.data else old(stats))
      ensures reply.Success? <==> result.success
      ensures reply.Success? ==> result.error == None
      ensures reply.Failure? ==> workouts == old(workouts) && stats == old(stats)
      ensures reply.Failure? ==> result.error == Some(MessageOr(reply.message, UpdateFailed))
      ensures loading == old(loading)
    {
      match reply
      case Failure(message) =>
        return OpResult(false, Some(MessageOr(message, UpdateFailed)));
      case Success(record) =>
        workouts := ReplaceById(workouts, id, record);
        FetchStats(statsReply);
        result := OpResult(true, None);
    }

    /** `deleteWorkout(id)`: every entry with that id is dropped and the
        stats are refreshed; on failure nothing changes. */
    method DeleteWorkout(id: WorkoutId, reply: Reply<()>, statsReply: Reply<seq<CategoryTotal>>)
      returns (result: OpResult)
      modifies this
      ensures reply.Success? ==> workouts == RemoveById(old(workouts), id)
      ensures reply.Success? ==> stats == (if statsReply.Success? then statsReply.data else old(stats))
      ensures reply.Success? <==> result.success
      ensures reply.Success? ==> result.error == None
      ensures reply.Failure? ==> workouts == old(workouts) && stats == old(stats)
      ensures reply.Failure? ==> result.error == Some(MessageOr(reply.message, DeleteFailed))
      ensures loading == old(loading)
    {
      match reply
      case Failure(message) =>
        return OpResult(false, Some(MessageOr(message, DeleteFailed)));
      case Success(_) =>
        workouts := RemoveById(workouts, id);
        FetchStats(statsReply);
        result := OpResult(true, None);
    }
  }
}
