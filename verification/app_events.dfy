/** The client as one event-driven state machine: every user action or effect is an event,
    each handled atomically given the network outcome it met. */
module AppEvents {
  import opened Wrappers
  import opened AppModel
  import opened AppSearch
  import opened AppReviews
  import opened AppAuth

  datatype Event =
    | EditQueryEvent(q: string)
    | SearchEvent(searchOutcome: Outcome<Option<seq<AppResult>>>)
    | SelectEvent(app: AppResult)
    | CloseEvent
    | RefreshEvent(reviewsOutcome: Outcome<seq<ReviewRecord>>)
    | ReviewChangeEvent(field: Field, value: string)
    | ReviewSubmitEvent(submitOutcome: Outcome<()>)
    | OpenAuthEvent(mode: AuthMode)
    | AuthChangeEvent(authField: AuthField, authValue: string)
    | AuthSubmitEvent(authOutcome: Outcome<AuthReply>)
    | LogoutEvent

  /** One event applied to the state; `parseFloat` is the browser's number parser. */
  function Step(s: State, e: Event, parseFloat: string -> Number): State {
    match e
    case EditQueryEvent(q) => EditQuery(s, q)
    case SearchEvent(o) => HandleSearch(s, o)
    case SelectEvent(app) => Select(s, app)
    case CloseEvent => Close(s)
    case RefreshEvent(o) => RefreshReviews(s, o)
    case ReviewChangeEvent(f, v) => ReviewChange(s, f, v, parseFloat)
    case ReviewSubmitEvent(o) => HandleReviewSubmit(s, o)
    case OpenAuthEvent(m) => OpenAuth(s, m)
    case AuthChangeEvent(f, v) => AuthChange(s, f, v)
    case AuthSubmitEvent(o) => HandleAuthSubmit(s, o)
    case LogoutEvent => Logout(s)
  }

  /** The events run in order. */
  function Run(s: State, events: seq<Event>, parseFloat: string -> Number): State
    decreases |events|
  {
    if events == [] then s else Run(Step(s, events[0], parseFloat), events[1..], parseFloat)
  }

  /** The review form is on screen: the detail view is open and a truthy token is held. */
  predicate ReviewFormShown(s: State) {
    s.selected.Some? && TruthyText(s.authToken)
  }

  /** Which controls the rendered markup shows and leaves enabled for the event: the detail
      view's controls exist only while something is selected, the review form only with a
      token, the Login/Register buttons only without one, the credentials form only in a mode,
      and the Search and Save buttons are disabled while their request is in flight. The
      browser's own input checks (`required`, `min`, `max`, `step`), which can also hold back a
      submit, are not part of this predicate. */
  function Enabled(s: State, e: Event): (on: bool)
    ensures on && !(e.EditQueryEvent? || e.SearchEvent? || e.SelectEvent? || e.RefreshEvent?) ==> s.selected.Some?
    ensures on && (e.ReviewChangeEvent? || e.ReviewSubmitEvent? || e.LogoutEvent?) ==> TruthyText(s.authToken)
    ensures on && e.OpenAuthEvent? ==> !TruthyText(s.authToken)
    ensures on && e.ReviewSubmitEvent? ==> ReviewRequestFor(s).Some? && !s.reviewLoading
  {
    match e
    case EditQueryEvent(_) => true
    case SearchEvent(_) => !s.loading
    case SelectEvent(app) => app in s.results
    case CloseEvent => s.selected.Some?
    case RefreshEvent(_) => true
    case ReviewChangeEvent(_, _) => ReviewFormShown(s)
    case ReviewSubmitEvent(_) => ReviewFormShown(s) && !s.reviewLoading
    case OpenAuthEvent(_) => s.selected.Some? && !TruthyText(s.authToken)
    case AuthChangeEvent(_, _) => s.selected.Some? && s.authMode.Some?
    case AuthSubmitEvent(_) => s.selected.Some? && s.authMode.Some?
    case LogoutEvent => s.selected.Some? && TruthyText(s.authToken)
  }

  /** Every event keeps the in-memory token equal to the persisted one. */
  lemma StepKeepsSessionInSync(s: State, e: Event, parseFloat: string -> Number)
    requires SessionInSync(s)
    ensures SessionInSync(Step(s, e, parseFloat))
  {
  }

  /** From the first render on, memory and storage agree on the token after any run of events. */
  lemma {:induction false} RunKeepsSessionInSync(s: State, events: seq<Event>, parseFloat: string -> Number)
    requires SessionInSync(s)
    ensures SessionInSync(Run(s, events, parseFloat))
    decreases |events|
  {
    if events != [] {
      StepKeepsSessionInSync(s, events[0], parseFloat);
      RunKeepsSessionInSync(Step(s, events[0], parseFloat), events[1..], parseFloat);
    }
  }

  /** Only editing a form field changes the review draft; in particular submitting never resets it. */
  lemma {:induction false} DraftChangesOnlyByEditing(s: State, events: seq<Event>, parseFloat: string -> Number)
    requires forall k :: 0 <= k < |events| ==> !events[k].ReviewChangeEvent?
    ensures Run(s, events, parseFloat).reviewForm == s.reviewForm
    decreases |events|
  {
    if events != [] {
      DraftChangesOnlyByEditing(Step(s, events[0], parseFloat), events[1..], parseFloat);
    }
  }

  /** Through the page, a review is only submitted with a selection and a token, so the
      early-return path that leaves the loading flag stuck is out of reach and the flag
      always comes back down. */
  lemma OfferedSubmitEndsLoading(s: State, o: Outcome<()>, parseFloat: string -> Number)
    requires Enabled(s, ReviewSubmitEvent(o))
    ensures !Step(s, ReviewSubmitEvent(o), parseFloat).reviewLoading
    ensures ReviewRequestFor(s).Some? && ReviewRequestFor(s).value.authorization == "Bearer " + s.authToken.value
  {
  }

  /** A thrown review fetch is not caught, so the list can outlive its item: after `a`'s
      reviews are loaded, selecting `b` and meeting an exception still shows `a`'s reviews. */
  lemma StaleReviewsAfterThrow(s: State, a: AppResult, b: AppResult, data: seq<ReviewRecord>, parseFloat: string -> Number)
    requires Truthy(a.trackId) && Truthy(b.trackId) && a.trackId != b.trackId
    ensures var r := Run(s, [SelectEvent(a), RefreshEvent(Response(true, data)), SelectEvent(b), RefreshEvent(Throws)], parseFloat);
            r.reviews == data && ReviewsFetchId(r) == b.trackId
  {
    var s1 := Step(s, SelectEvent(a), parseFloat);
    var s2 := Step(s1, RefreshEvent(Response(true, data)), parseFloat);
    var s3 := Step(s2, SelectEvent(b), parseFloat);
    var s4 := Step(s3, RefreshEvent(Throws), parseFloat);
    assert s4.reviews == data;
    var events := [SelectEvent(a), RefreshEvent(Response(true, data)), SelectEvent(b), RefreshEvent(Throws)];
    assert Run(s, events, parseFloat) == Run(s1, events[1..], parseFloat);
    assert Run(s1, events[1..], parseFloat) == Run(s2, events[2..], parseFloat) by {
      assert events[1..][0] == events[1] && events[1..][1..] == events[2..];
    }
    assert Run(s2, events[2..], parseFloat) == Run(s3, events[3..], parseFloat) by {
      assert events[2..][0] == events[2] && events[2..][1..] == events[3..];
    }
    assert Run(s3, events[3..], parseFloat) == Run(s4, [], parseFloat) by {
      assert events[3..][0] == events[3] && events[3..][1..] == [];
    }
  }
}
