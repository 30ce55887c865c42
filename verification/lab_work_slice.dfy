/** The lab-work store slice (`src/app/redux/slices/labWorkSlice.ts`): the
    list of lab orders with its loading flag and error text, and how each
    settled request changes them. Request payloads are inputs; the HTTP
    calls behind them are not modelled. */
module LabWorkSlice {

  import opened Wrappers
  import Lists

  /** A lab order as the store holds it: its identifier and the rest of
      the record, which the reducer never looks into. */
  datatype Item<Body> = Item(id: string, body: Body)

  datatype State<Body> = State(data: seq<Item<Body>>, loading: bool, error: Option<string>)

  /** The actions the reducer answers. Messages are `None` when the action
      carries none or an empty one (both falsy). The create and update
      requests' pending and rejected actions have no case and change nothing. */
  datatype Action<Body> =
    | FetchPending
    | FetchFulfilled(items: seq<Item<Body>>)
    | FetchRejected(message: Option<string>)
    | CreatePending
    | CreateFulfilled(item: Item<Body>)
    | CreateRejected
    | UpdatePending
    | UpdateFulfilled(item: Item<Body>)
    | UpdateRejected
    | DeletePending
    | DeleteFulfilled(id: string)
    | DeleteRejected(payload: Option<string>)
    | ClearError

  const FetchFailedMessage := "Failed to fetch lab work"
  const DeleteFailedMessage := "Failed to delete lab work"

  function Initial<Body>(): (s: State<Body>)
    ensures s.data == [] && !s.loading && s.error.None?
  {
    State([], false, None)
  }

  /** Index of the first item with identifier `id`, or `|xs|` (`findIndex`). */
  function FindIndex<Body>(xs: seq<Item<Body>>, id: string): (i: nat)
    ensures i <= |xs|
    ensures i < |xs| ==> xs[i].id == id
    ensures forall j :: 0 <= j < i ==> xs[j].id != id
  {
    if xs == [] then 0 else if xs[0].id == id then 0 else 1 + FindIndex(xs[1..], id)
  }

  /** Replace the first item whose identifier matches, if any. */
  function ReplaceFirst<Body>(xs: seq<Item<Body>>, item: Item<Body>): (r: seq<Item<Body>>)
    ensures |r| == |xs|
    ensures (forall j :: 0 <= j < |xs| ==> xs[j].id != item.id) ==> r == xs
    ensures forall j :: 0 <= j < |xs| && xs[j].id == item.id ==>
      (exists k :: 0 <= k <= j && r[k] == item && xs[k].id == item.id
         && forall m :: 0 <= m < |xs| && m != k ==> r[m] == xs[m])
  {
    var i := FindIndex(xs, item.id);
    if i < |xs| then xs[i := item] else xs
  }

  function HasOtherId<Body>(id: string): Item<Body> -> bool {
    (x: Item<Body>) => x.id != id
  }

  /** Keep the items whose identifier differs, in order: the list's
      `filter((item) => item._id !== id)`. */
  function RemoveId<Body(==,!new)>(xs: seq<Item<Body>>, id: string): (r: seq<Item<Body>>)
    ensures forall x :: x in r <==> x in xs && x.id != id
    ensures |r| <= |xs|
    ensures r == Lists.Filter(xs, HasOtherId(id))
  {
    if xs == [] then []
    else
      assert xs == [xs[0]] + xs[1..];
      Lists.FilterCons(xs[0], xs[1..], HasOtherId(id));
      if xs[0].id == id then RemoveId(xs[1..], id)
      else [xs[0]] + RemoveId(xs[1..], id)
  }

  /** The reducer. */
  function Reduce<Body(==,!new)>(s: State<Body>, a: Action<Body>): (r: State<Body>)
    // fetch lifecycle
    ensures a.FetchPending? ==> r == s.(loading := true, error := None)
    ensures a.FetchFulfilled? ==> r == s.(data := a.items, loading := false)
    ensures a.FetchRejected? ==>
      r == s.(loading := false, error := Some(a.message.GetOr(FetchFailedMessage)))
    // a created order goes to the front; nothing else changes
    ensures a.CreateFulfilled? ==> r == s.(data := [a.item] + s.data)
    // an update replaces the first order with the same identifier
    ensures a.UpdateFulfilled? ==> r.loading == s.loading && r.error == s.error && |r.data| == |s.data|
    ensures a.UpdateFulfilled? && (forall j :: 0 <= j < |s.data| ==> s.data[j].id != a.item.id) ==> r == s
    ensures a.UpdateFulfilled? ==> r == s.(data := ReplaceFirst(s.data, a.item))
    // delete lifecycle
    ensures a.DeletePending? ==> r == s.(loading := true, error := None)
    ensures a.DeleteFulfilled? ==>
      && !r.loading && r.error == s.error
      && (forall x :: x in r.data <==> x in s.data && x.id != a.id)
      && r.data == RemoveId(s.data, a.id)
    ensures a.DeleteRejected? ==>
      r == s.(loading := false, error := Some(a.payload.GetOr(DeleteFailedMessage)))
    // only the error is cleared
    ensures a.ClearError? ==> r == s.(error := None)
    // requests without a case change nothing
    ensures a.CreatePending? || a.CreateRejected? || a.UpdatePending? || a.UpdateRejected? ==> r == s
  {
    match a
    case FetchPending => s.(loading := true, error := None)
    case FetchFulfilled(items) => s.(data := items, loading := false)
    case FetchRejected(message) => s.(loading := false, error := Some(message.GetOr(FetchFailedMessage)))
    case CreateFulfilled(item) => s.(data := [item] + s.data)
    case UpdateFulfilled(item) => s.(data := ReplaceFirst(s.data, item))
    case DeletePending => s.(loading := true, error := None)
    case DeleteFulfilled(id) => s.(data := RemoveId(s.data, id), loading := false)
    case DeleteRejected(payload) => s.(loading := false, error := Some(payload.GetOr(DeleteFailedMessage)))
    case ClearError => s.(error := None)
    case _ => s
  }

  /** Deleting a freshly created order that no other order shares an
      identifier with gives back the list before the creation. */
  lemma {:induction false} CreateThenDelete<Body(!new)>(s: State<Body>, item: Item<Body>)
    requires forall j :: 0 <= j < |s.data| ==> s.data[j].id != item.id
    ensures Reduce(Reduce(s, CreateFulfilled(item)), DeleteFulfilled(item.id)).data == s.data
  {
    RemoveAbsent(s.data, item.id);
    assert ([item] + s.data)[1..] == s.data;
  }

  lemma {:induction false} RemoveAbsent<Body(!new)>(xs: seq<Item<Body>>, id: string)
    requires forall j :: 0 <= j < |xs| ==> xs[j].id != id
    ensures RemoveId(xs, id) == xs
  {
    if xs != [] {
      RemoveAbsent(xs[1..], id);
    }
  }

  /** Deleting twice is deleting once. */
  lemma {:induction false} DeleteIdempotent<Body(!new)>(xs: seq<Item<Body>>, id: string)
    ensures RemoveId(RemoveId(xs, id), id) == RemoveId(xs, id)
  {
    var r := RemoveId(xs, id);
    forall j | 0 <= j < |r| ensures r[j].id != id {
      assert r[j] in r;
    }
    RemoveAbsent(r, id);
  }

  /** A settled fetch or delete always clears the loading flag, and the
      flag is set exactly by the pending actions. */
  lemma LoadingFollowsRequests<Body(!new)>(s: State<Body>, a: Action<Body>)
    ensures a.FetchPending? || a.DeletePending? ==> Reduce(s, a).loading
    ensures a.FetchFulfilled? || a.FetchRejected? || a.DeleteFulfilled? || a.DeleteRejected? ==> !Reduce(s, a).loading
  {
  }
}
