/** The state of the `App` component: every `useState` slot in one immutable record,
    plus the persisted `token` slot of the browser's local storage. */
module AppModel {
  import opened Wrappers

  /** A JavaScript number after `parseFloat`: a real, or NaN for text that is not a number. */
  datatype Number = Finite(value: real) | NaN

  /** One search result as the client holds it. `trackId` may be missing; `id` is the
      untyped field the selection falls back to. */
  datatype AppResult = AppResult(
    trackId: Option<int>,
    id: Option<int>,
    name: string,
    title: string,
    description: string,
    images: seq<string>,
    rating: Option<real>)

  /** The review form: six numeric inputs and a free-text comment. */
  datatype ReviewForm = ReviewForm(
    overallRating: Number,
    valueRating: Number,
    adRating: Number,
    effortRating: Number,
    enjoymentRating: Number,
    offerAmount: Number,
    comment: string)

  /** One review as the server lists it. */
  datatype ReviewRecord = ReviewRecord(
    overallRating: real,
    valueRating: real,
    adRating: real,
    effortRating: real,
    enjoymentRating: real,
    offerAmount: real,
    comment: string,
    createdAt: string)

  datatype AuthMode = Login | Register

  datatype AuthForm = AuthForm(username: string, password: string)

  datatype State = State(
    query: string,
    results: seq<AppResult>,
    loading: bool,
    selected: Option<AppResult>,
    reviewForm: ReviewForm,
    reviewLoading: bool,
    reviewSuccess: bool,
    reviews: seq<ReviewRecord>,
    authToken: Option<string>,
    authMode: Option<AuthMode>,
    authForm: AuthForm,
    authError: string,
    /** The local-storage `token` slot. */
    storedToken: Option<string>)

  /** What a `fetch` (and the `res.json()` after it) produced: an exception, or a response
      with its `ok` flag and parsed body. */
  datatype Outcome<T> = Throws | Response(ok: bool, body: T)

  /** JavaScript truthiness of an optional number: present and not zero. */
  predicate Truthy(n: Option<int>) {
    n.Some? && n.value != 0
  }

  /** JavaScript truthiness of an optional string: present and not empty. */
  predicate TruthyText(t: Option<string>) {
    t.Some? && t.value != ""
  }

  const EmptyForm := ReviewForm(Finite(0.0), Finite(0.0), Finite(0.0), Finite(0.0), Finite(0.0), Finite(0.0), "")

  /** The in-memory session token agrees with the persisted slot. */
  predicate SessionInSync(s: State) {
    s.authToken == s.storedToken
  }

  /** The state on first render, given what local storage holds under `token`. */
  function Init(stored: Option<string>): (s: State)
    ensures s.authToken == stored && s.storedToken == stored
    ensures SessionInSync(s)
    ensures s.query == "" && s.results == [] && !s.loading && s.selected.None?
    ensures s.reviewForm == EmptyForm && !s.reviewLoading && !s.reviewSuccess && s.reviews == []
    ensures s.authMode.None? && s.authForm == AuthForm("", "") && s.authError == ""
  {
    State(
      query := "",
      results := [],
      loading := false,
      selected := None,
      reviewForm := EmptyForm,
      reviewLoading := false,
      reviewSuccess := false,
      reviews := [],
      authToken := stored,
      authMode := None,
      authForm := AuthForm("", ""),
      authError := "",
      storedToken := stored)
  }
}
