/** The search form and the selection of one result for the detail view. */
module AppSearch {
  import opened Wrappers
  import opened AppModel

  /** Typing into the search box. */
  function EditQuery(s: State, q: string): (r: State)
    ensures r.query == q
    ensures r == s.(query := r.query)
  {
    s.(query := q)
  }

  /** The part of `handleSearch` that runs before the request resolves: the loading
      flag is raised and the old results are cleared. */
  function SearchStart(s: State): (r: State)
    ensures r.loading && r.results == []
    ensures r == s.(loading := r.loading, results := r.results)
  {
    s.(loading := true, results := [])
  }

  /** The part of `handleSearch` after the request: `data || []` on a parsed body
      (whatever the status), `[]` when fetching or parsing threw. The body is `None`
      when the server's JSON is falsy. */
  function SearchFinish(s: State, outcome: Outcome<Option<seq<AppResult>>>): (r: State)
    ensures !r.loading
    ensures outcome.Throws? ==> r.results == []
    ensures outcome.Response? && outcome.body.None? ==> r.results == []
    ensures outcome.Response? && outcome.body.Some? ==> r.results == outcome.body.value
    ensures r == s.(loading := r.loading, results := r.results)
  {
    var results :=
      match outcome
      case Throws => []
      case Response(_, data) => data.GetOr([]);
    s.(results := results, loading := false)
  }

  /** `handleSearch` as one step. */
  function HandleSearch(s: State, outcome: Outcome<Option<seq<AppResult>>>): (r: State)
    ensures !r.loading
    ensures outcome.Response? && outcome.body.Some? ==> r.results == outcome.body.value
    ensures r.results == [] <==> outcome.Throws? || outcome.body.None? || outcome.body.value == []
    ensures r == s.(loading := r.loading, results := r.results)
  {
    SearchFinish(SearchStart(s), outcome)
  }

  /** The response status is never looked at: a failed response with a body
      is treated exactly like a successful one. */
  lemma SearchIgnoresStatus(s: State, data: Option<seq<AppResult>>)
    ensures HandleSearch(s, Response(false, data)) == HandleSearch(s, Response(true, data))
  {
  }

  /** The new results depend only on the outcome, never on the previous results or loading flag. */
  lemma SearchForgetsPrevious(s: State, t: State, outcome: Outcome<Option<seq<AppResult>>>)
    ensures HandleSearch(s, outcome).results == HandleSearch(t, outcome).results
  {
  }

  /** The identifier a selected result carries: `trackId ?? id`. */
  function SelectionId(app: AppResult): (id: Option<int>)
    ensures app.trackId.Some? ==> id == app.trackId
    ensures app.trackId.None? ==> id == app.id
  {
    Coalesce(app.trackId, app.id)
  }

  /** Clicking a result card: the detail view opens on a copy of the result whose
      `trackId` is filled in from `id` when missing. */
  function Select(s: State, app: AppResult): (r: State)
    ensures r.selected.Some?
    ensures r.selected.value == app.(trackId := SelectionId(app))
    ensures r == s.(selected := r.selected)
  {
    s.(selected := Some(app.(trackId := SelectionId(app))))
  }

  /** Clicking the backdrop or the Close button. */
  function Close(s: State): (r: State)
    ensures r.selected.None?
    ensures r == s.(selected := None)
  {
    s.(selected := None)
  }

  /** Selecting replaces and never stacks: after selecting `a` then `b`, only `b` is selected,
      and the earlier selection leaves no trace. */
  lemma SelectReplaces(s: State, a: AppResult, b: AppResult)
    ensures Select(Select(s, a), b) == Select(s, b)
    ensures Select(Select(s, a), b).selected.value.name == b.name
  {
  }

  /** Closing after selecting returns to the state before the selection, apart from the selection itself. */
  lemma CloseUndoesSelect(s: State, a: AppResult)
    ensures Close(Select(s, a)) == Close(s)
  {
  }

  /** Selecting a result whose `trackId` is present keeps that id; otherwise the copy
      carries `id`, and may carry no id at all. */
  lemma SelectionIdFallback(s: State, app: AppResult)
    ensures app.trackId.Some? ==> Select(s, app).selected.value.trackId == app.trackId
    ensures app.trackId.None? ==> Select(s, app).selected.value.trackId == app.id
    ensures Select(s, app).selected.value.trackId.None? <==> app.trackId.None? && app.id.None?
  {
  }
}
