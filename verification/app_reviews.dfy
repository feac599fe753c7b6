/** Reviews in the detail view: refreshing the list, editing the form, submitting a review. */
module AppReviews {
  import opened Wrappers
  import opened AppModel

  const ReviewsUrl := "http://localhost:8000/reviews"

  /** The item id `fetchReviews` requests reviews for, or `None` when it sends no request:
      nothing is selected or the selection's `trackId` is falsy. */
  function ReviewsFetchId(s: State): (id: Option<int>)
    ensures id.Some? <==> s.selected.Some? && Truthy(s.selected.value.trackId)
    ensures id.Some? ==> id == s.selected.value.trackId && id.value != 0
  {
    if s.selected.Some? && Truthy(s.selected.value.trackId) then s.selected.value.trackId else None
  }

  /** `fetchReviews`. Without a request the list is emptied. With one, an ok response
      replaces the list with the server's data and any other response empties it; a thrown
      fetch is not caught, so the list keeps what it had. */
  function RefreshReviews(s: State, outcome: Outcome<seq<ReviewRecord>>): (r: State)
    ensures ReviewsFetchId(s).None? ==> r.reviews == []
    ensures ReviewsFetchId(s).Some? && outcome.Throws? ==> r.reviews == s.reviews
    ensures ReviewsFetchId(s).Some? && outcome.Response? && outcome.ok ==> r.reviews == outcome.body
    ensures ReviewsFetchId(s).Some? && outcome.Response? && !outcome.ok ==> r.reviews == []
    ensures r == s.(reviews := r.reviews)
  {
    if ReviewsFetchId(s).Some? then
      match outcome
      case Throws => s
      case Response(ok, data) => s.(reviews := if ok then data else [])
    else
      s.(reviews := [])
  }

  /** When no request is sent, the outcome has no influence. */
  lemma RefreshWithoutRequestIgnoresOutcome(s: State, o1: Outcome<seq<ReviewRecord>>, o2: Outcome<seq<ReviewRecord>>)
    requires ReviewsFetchId(s).None?
    ensures RefreshReviews(s, o1) == RefreshReviews(s, o2)
  {
  }

  /** The list never holds data from an unsuccessful response: it is the server's data for
      the requested item, the empty list, or (only after a throw) the list it already had. */
  lemma RefreshResultSources(s: State, outcome: Outcome<seq<ReviewRecord>>)
    ensures var r := RefreshReviews(s, outcome).reviews;
            r == [] || (outcome.Response? && outcome.ok && r == outcome.body) || (outcome.Throws? && r == s.reviews)
  {
  }

  /** The form inputs, by their `name` attribute. */
  datatype Field = OverallRating | ValueRating | AdRating | EffortRating | EnjoymentRating | OfferAmount | Comment

  /** What one form field holds. */
  datatype FieldValue = Text(text: string) | Num(number: Number)

  /** Reads one field of the form. */
  function FieldOf(form: ReviewForm, f: Field): FieldValue {
    match f
    case OverallRating => Num(form.overallRating)
    case ValueRating => Num(form.valueRating)
    case AdRating => Num(form.adRating)
    case EffortRating => Num(form.effortRating)
    case EnjoymentRating => Num(form.enjoymentRating)
    case OfferAmount => Num(form.offerAmount)
    case Comment => Text(form.comment)
  }

  /** `handleReviewChange`: the named field takes the raw text for the comment and
      `parseFloat` of the text for every other field; the rest of the form and state stay. */
  function ReviewChange(s: State, f: Field, value: string, parseFloat: string -> Number): (r: State)
    ensures FieldOf(r.reviewForm, f) == (if f == Comment then Text(value) else Num(parseFloat(value)))
    ensures forall g :: g != f ==> FieldOf(r.reviewForm, g) == FieldOf(s.reviewForm, g)
    ensures r == s.(reviewForm := r.reviewForm)
  {
    var form := s.reviewForm;
    var n := parseFloat(value);
    var form' :=
      match f
      case OverallRating => form.(overallRating := n)
      case ValueRating => form.(valueRating := n)
      case AdRating => form.(adRating := n)
      case EffortRating => form.(effortRating := n)
      case EnjoymentRating => form.(enjoymentRating := n)
      case OfferAmount => form.(offerAmount := n)
      case Comment => form.(comment := value);
    s.(reviewForm := form')
  }

  /** The JSON body of the review POST: the selected item's identity and descriptive
      fields, its rating or null, and (spread last) every field of the form. */
  datatype ReviewPayload = ReviewPayload(
    gameTrackId: Option<int>,
    name: string,
    title: string,
    description: string,
    images: seq<string>,
    rating: Option<real>,
    form: ReviewForm)

  /** The review POST: its `Authorization` header and body. */
  datatype ReviewRequest = ReviewRequest(authorization: string, payload: ReviewPayload)

  /** The header value `Bearer ${authToken}`; a null token is rendered as the text "null". */
  function BearerHeader(token: Option<string>): (h: string)
    ensures token.Some? ==> h == "Bearer " + token.value
    ensures token.None? ==> h == "Bearer null"
  {
    "Bearer " + (match token case Some(t) => t case None => "null")
  }

  /** The request `handleReviewSubmit` sends, or `None` when nothing is selected and it returns early. */
  function ReviewRequestFor(s: State): (q: Option<ReviewRequest>)
    ensures q.Some? <==> s.selected.Some?
    ensures q.Some? ==>
              var app := s.selected.value;
              var p := q.value.payload;
              && p.gameTrackId == app.trackId && p.name == app.name && p.title == app.title
              && p.description == app.description && p.images == app.images && p.rating == app.rating
              && p.form == s.reviewForm
              && q.value.authorization == BearerHeader(s.authToken)
  {
    match s.selected
    case None => None
    case Some(app) =>
      Some(ReviewRequest(
        BearerHeader(s.authToken),
        ReviewPayload(app.trackId, app.name, app.title, app.description, app.images, app.rating, s.reviewForm)))
  }

  /** The part of `handleReviewSubmit` before the request: the loading flag goes up and
      the success flag is reset. */
  function SubmitStart(s: State): (r: State)
    ensures r.reviewLoading && !r.reviewSuccess
    ensures r == s.(reviewLoading := r.reviewLoading, reviewSuccess := r.reviewSuccess)
  {
    s.(reviewLoading := true, reviewSuccess := false)
  }

  /** The part after the request, applied to the state the page has when the response arrives.
      `sent` records whether the handler got past its early return, which it decides from the
      selection before the request. If it did not, nothing more happens and the loading flag
      stays up. Otherwise an ok response sets the success flag, anything else (exceptions are
      swallowed) leaves it as it is, and loading ends. */
  function SubmitFinish(s: State, sent: bool, outcome: Outcome<()>): (r: State)
    ensures !sent ==> r == s
    ensures sent ==> !r.reviewLoading
    ensures sent && outcome.Response? && outcome.ok ==> r.reviewSuccess
    ensures sent && !(outcome.Response? && outcome.ok) ==> r.reviewSuccess == s.reviewSuccess
    ensures r == s.(reviewLoading := r.reviewLoading, reviewSuccess := r.reviewSuccess)
  {
    if !sent then s
    else if outcome.Response? && outcome.ok then s.(reviewSuccess := true, reviewLoading := false)
    else s.(reviewLoading := false)
  }

  /** The early return is decided when the submit starts: closing the detail view while the
      request is in flight does not stop a successful response from lowering the loading flag
      and setting the success flag. */
  lemma CloseDuringSubmit(s: State)
    requires s.selected.Some?
    ensures var started := SubmitStart(s);
            var r := SubmitFinish(started.(selected := None), ReviewRequestFor(started).Some?, Response(true, ()));
            !r.reviewLoading && r.reviewSuccess && r.selected.None?
  {
  }

  /** `handleReviewSubmit` as one step. */
  function HandleReviewSubmit(s: State, outcome: Outcome<()>): (r: State)
    ensures s.selected.None? ==> r.reviewLoading && !r.reviewSuccess
    ensures s.selected.Some? ==> !r.reviewLoading
    ensures r.reviewSuccess <==> s.selected.Some? && outcome.Response? && outcome.ok
    ensures r.reviewForm == s.reviewForm
    ensures r == s.(reviewLoading := r.reviewLoading, reviewSuccess := r.reviewSuccess)
  {
    var started := SubmitStart(s);
    SubmitFinish(started, ReviewRequestFor(started).Some?, outcome)
  }

  /** The list refresh is keyed on the selection and the success flag: it runs whenever either changes
      between two renders. */
  function RefreshDue(before: State, after: State): (due: bool)
    ensures before == after ==> !due
    ensures !due ==> ReviewsFetchId(before) == ReviewsFetchId(after)
  {
    before.selected != after.selected || before.reviewSuccess != after.reviewSuccess
  }

  /** A successful submission flips the success flag between the render after the request starts
      and the one after it completes, so the list is refreshed for the same item. */
  lemma SuccessfulSubmitRefreshes(s: State)
    requires s.selected.Some?
    ensures RefreshDue(SubmitStart(s), HandleReviewSubmit(s, Response(true, ())))
    ensures ReviewsFetchId(HandleReviewSubmit(s, Response(true, ()))) == ReviewsFetchId(s)
  {
  }

  /** A failed or thrown submission does not set the success flag, so its response causes no
      refresh. Its start does, when the previous submission succeeded: resetting the flag from
      true to false changes a dependency of the list effect. Overall the list is refreshed
      exactly when the previous submission had succeeded. */
  lemma FailedSubmitRefreshesOnlyThroughReset(s: State, outcome: Outcome<()>)
    requires !(outcome.Response? && outcome.ok)
    ensures !RefreshDue(SubmitStart(s), HandleReviewSubmit(s, outcome))
    ensures RefreshDue(s, SubmitStart(s)) <==> s.reviewSuccess
    ensures RefreshDue(s, HandleReviewSubmit(s, outcome)) <==> s.reviewSuccess
  {
  }

  /** The draft survives submission: submitting twice sends the same payload both times. */
  lemma SubmitKeepsDraft(s: State, o1: Outcome<()>)
    ensures ReviewRequestFor(HandleReviewSubmit(s, o1)) == ReviewRequestFor(s)
  {
  }
}
