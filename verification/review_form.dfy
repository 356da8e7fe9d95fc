/** The review form's submission handler, `handleSubmit`: validate the rating
    and the text, ask the `process-review` function for a reply, a summary and
    recommended actions, store the review with those three results in the
    `reviews` table, then report the outcome with a toast and hand the reply to
    the `onSuccess` callback.

    The remote calls are not made here: each call's outcome is read from a
    `Replies` script, and everything the handler does to the outside world is
    recorded, in order, as an `Effect` of the returned trace. */
module ReviewForm {
  import opened Js
  import Text

  const RatingMissingText := "Please select a star rating"
  const ReviewMissingText := "Please write a review"
  const SubmittedText := "Review submitted successfully!"
  const DefaultPayload := "Thank you for your feedback!"
  const FallbackErrorText := "Failed to submit review. Please try again."
  const ProcessReview := "process-review"
  const ReviewsTable := "reviews"

  /** The three enrichment requests, by their `type` field. */
  datatype Kind = Response | Summary | Actions {
    function Tag(): string {
      match this
      case Response => "response"
      case Summary => "summary"
      case Actions => "actions"
    }
  }

  /** The order in which the handler issues the requests. */
  const Kinds: seq<Kind> := [Response, Summary, Actions]

  /** The body of one `process-review` request. */
  datatype RequestBody = RequestBody(review: string, rating: int, kind: Kind)

  /** The record inserted into `reviews`; a missing AI field is stored as null. */
  datatype ReviewRow = ReviewRow(
    rating: int,
    review: string,
    aiResponse: Option<string>,
    aiSummary: Option<string>,
    aiRecommendedActions: Option<string>)

  /** What one remote call settles with: `{ data, error }` with no error, where
      `data?.result` may be missing, or with an error whose message may be missing. */
  datatype Reply = Ok(result: Option<string>) | Err(message: Option<string>)

  /** The outcome each remote call gets if it is made. */
  datatype Replies = Replies(response: Reply, summary: Reply, actions: Reply, insert: Reply) {
    function To(kind: Kind): Reply {
      match kind
      case Response => response
      case Summary => summary
      case Actions => actions
    }
  }

  /** Everything the handler does that is visible outside it. */
  datatype Effect =
    | SetSubmitting(on: bool)
    | Invoke(name: string, body: RequestBody)
    | Insert(table: string, row: ReviewRow)
    | ToastSuccess(text: string)
    | ToastError(text: string)
    | OnSuccess(payload: string)

  /** The component state the handler reads and writes. */
  datatype Form = Form(rating: int, review: string, submitting: bool)

  /** The state a freshly mounted form starts in. */
  const Initial := Form(0, "", false)

  /** The component state after the handler, and what it did on the way. */
  datatype Submission = Submission(form: Form, trace: seq<Effect>)

  datatype ValidationError = MissingRating | EmptyText {
    function Message(): string {
      match this
      case MissingRating => RatingMissingText
      case EmptyText => ReviewMissingText
    }
  }

  /** True when `review` holds a character that is not whitespace. */
  ghost predicate HasText(review: string) {
    exists i :: 0 <= i < |review| && !Text.IsWs(review[i])
  }

  /** The two input checks, the rating first. */
  function Validate(rating: int, review: string): (r: Option<ValidationError>)
    ensures r == Some(MissingRating) <==> rating == 0
    ensures r == Some(EmptyText) <==> rating != 0 && !HasText(review)
    ensures r == None <==> rating != 0 && HasText(review)
  {
    if rating == 0 then Some(MissingRating)
    else if Text.Trim(review) == [] then Some(EmptyText)
    else None
  }

  /** True when every reply for `kinds` is a success. */
  predicate AllOk(kinds: seq<Kind>, replies: Replies) {
    forall i :: 0 <= i < |kinds| ==> replies.To(kinds[i]).Ok?
  }

  /** The position in `kinds` of the first request that fails, or `|kinds|`
      when none does. */
  function FirstError(kinds: seq<Kind>, replies: Replies): (k: nat)
    ensures k <= |kinds|
    ensures AllOk(kinds[..k], replies)
    ensures k < |kinds| ==> replies.To(kinds[k]).Err?
    ensures k == |kinds| <==> AllOk(kinds, replies)
  {
    if kinds == [] then 0
    else if replies.To(kinds[0]).Err? then 0
    else
      var k := FirstError(kinds[1..], replies);
      assert kinds[1..][..k] == kinds[1..k + 1];
      1 + k
  }

  /** The requests for `kinds`, in order, each carrying the same review and rating. */
  function Requests(kinds: seq<Kind>, review: string, rating: int): (r: seq<Effect>)
    ensures |r| == |kinds|
    ensures forall i :: 0 <= i < |kinds| ==> r[i] == Invoke(ProcessReview, RequestBody(review, rating, kinds[i]))
  {
    seq(|kinds|, i requires 0 <= i < |kinds| => Invoke(ProcessReview, RequestBody(review, rating, kinds[i])))
  }

  /** The requests issued and, unless one failed, the `result` of each. */
  datatype Enrichment = Enrichment(requests: seq<Effect>, outcome: Outcome<seq<Option<string>>>)

  /** Issues one request per kind, one after another; the first error is
      thrown and no further request is issued. */
  function Enrich(kinds: seq<Kind>, review: string, rating: int, replies: Replies): (r: Enrichment)
    ensures r.outcome.Done? <==> AllOk(kinds, replies)
    ensures r.outcome.Done? ==>
      && r.requests == Requests(kinds, review, rating)
      && |r.outcome.value| == |kinds|
      && forall i :: 0 <= i < |kinds| ==> r.outcome.value[i] == replies.To(kinds[i]).result
    ensures r.outcome.Thrown? ==>
      var k := FirstError(kinds, replies);
      && k < |kinds|
      && r.requests == Requests(kinds[..k + 1], review, rating)
      && r.outcome.message == replies.To(kinds[k]).message
  {
    if kinds == [] then Enrichment([], Done([]))
    else
      var request := Invoke(ProcessReview, RequestBody(review, rating, kinds[0]));
      match replies.To(kinds[0])
      case Err(m) =>
        RequestsFirst(kinds, review, rating);
        Enrichment([request], Thrown(m))
      case Ok(res) =>
        var rest := Enrich(kinds[1..], review, rating, replies);
        AllOkCons(kinds, replies);
        match rest.outcome
        case Thrown(m) =>
          FirstErrorCons(kinds, replies, review, rating);
          Enrichment([request] + rest.requests, Thrown(m))
        case Done(results) =>
          RequestsCons(kinds, review, rating);
          ResultsCons(kinds, replies, res, results);
          Enrichment([request] + rest.requests, Done([res] + results))
  }

  lemma AllOkCons(kinds: seq<Kind>, replies: Replies)
    requires kinds != []
    ensures AllOk(kinds, replies) <==> replies.To(kinds[0]).Ok? && AllOk(kinds[1..], replies)
  {
    if replies.To(kinds[0]).Ok? && AllOk(kinds[1..], replies) {
      forall i | 0 <= i < |kinds|
        ensures replies.To(kinds[i]).Ok?
      {
        if i > 0 { assert kinds[i] == kinds[1..][i - 1]; }
      }
    }
  }

  lemma RequestsFirst(kinds: seq<Kind>, review: string, rating: int)
    requires kinds != []
    ensures Requests(kinds[..1], review, rating) == [Invoke(ProcessReview, RequestBody(review, rating, kinds[0]))]
  {
  }

  lemma RequestsCons(kinds: seq<Kind>, review: string, rating: int)
    requires kinds != []
    ensures Requests(kinds, review, rating)
         == [Invoke(ProcessReview, RequestBody(review, rating, kinds[0]))] + Requests(kinds[1..], review, rating)
  {
  }

  lemma RequestsPrefixCons(kinds: seq<Kind>, k: nat, review: string, rating: int)
    requires k + 2 <= |kinds|
    ensures Requests(kinds[..k + 2], review, rating)
         == [Invoke(ProcessReview, RequestBody(review, rating, kinds[0]))] + Requests(kinds[1..][..k + 1], review, rating)
  {
    assert kinds[..k + 2][1..] == kinds[1..][..k + 1];
    RequestsCons(kinds[..k + 2], review, rating);
  }

  /** Past a first success, the first failure is one further on, and so is
      the last request issued. */
  lemma FirstErrorCons(kinds: seq<Kind>, replies: Replies, review: string, rating: int)
    requires kinds != [] && replies.To(kinds[0]).Ok? && !AllOk(kinds[1..], replies)
    ensures var k := FirstError(kinds[1..], replies);
      && FirstError(kinds, replies) == k + 1
      && kinds[k + 1] == kinds[1..][k]
      && Requests(kinds[..k + 2], review, rating)
         == [Invoke(ProcessReview, RequestBody(review, rating, kinds[0]))] + Requests(kinds[1..][..k + 1], review, rating)
  {
    RequestsPrefixCons(kinds, FirstError(kinds[1..], replies), review, rating);
  }

  lemma ResultsCons(kinds: seq<Kind>, replies: Replies, res: Option<string>, results: seq<Option<string>>)
    requires kinds != [] && AllOk(kinds, replies) && AllOk(kinds[1..], replies)
    requires res == replies.To(kinds[0]).result
    requires |results| == |kinds| - 1
    requires forall i :: 0 <= i < |results| ==> results[i] == replies.To(kinds[1..][i]).result
    ensures forall i :: 0 <= i < |kinds| ==> ([res] + results)[i] == replies.To(kinds[i]).result
  {
    forall i | 0 <= i < |kinds|
      ensures ([res] + results)[i] == replies.To(kinds[i]).result
    {
      if i > 0 { assert kinds[i] == kinds[1..][i - 1]; }
    }
  }

  /** The `catch` block: the error's message, or the fallback text. */
  function Catch(message: Option<string>): (r: Effect)
    ensures r.ToastError?
    ensures Truthy(message) ==> message == Some(r.text)
    ensures !Truthy(message) ==> r.text == FallbackErrorText
  {
    ToastError(OrElse(message, FallbackErrorText))
  }

  /** What the `try` block does after the requests, and its `catch`: the
      insert once every request succeeded, then the report of how it went. */
  function Conclude(rating: int, review: string, enriched: Outcome<seq<Option<string>>>, replies: Replies): (r: seq<Effect>)
    requires enriched.Done? ==> |enriched.value| == |Kinds|
    ensures enriched.Thrown? ==> r == [Catch(enriched.message)]
    ensures enriched.Done? ==>
      && 2 <= |r| <= 3
      && r[0].Insert? && r[0].table == ReviewsTable
      && r[0].row.rating == rating && r[0].row.review == Text.Trim(review)
      && r[0].row.aiResponse == OrNull(enriched.value[0])
      && r[0].row.aiSummary == OrNull(enriched.value[1])
      && r[0].row.aiRecommendedActions == OrNull(enriched.value[2])
    ensures enriched.Done? && replies.insert.Err? ==> r[1..] == [Catch(replies.insert.message)]
    ensures enriched.Done? && replies.insert.Ok? ==>
      r[1..] == [ToastSuccess(SubmittedText), OnSuccess(OrElse(r[0].row.aiResponse, DefaultPayload))]
  {
    match enriched
    case Thrown(m) => [Catch(m)]
    case Done(results) =>
      var row := ReviewRow(rating, Text.Trim(review), OrNull(results[0]), OrNull(results[1]), OrNull(results[2]));
      [Insert(ReviewsTable, row)] +
        match replies.insert
        case Err(m) => [Catch(m)]
        case Ok(_) => [ToastSuccess(SubmittedText), OnSuccess(OrElse(results[0], DefaultPayload))]
  }

  /** The `try` block with its `catch`. */
  function Attempt(rating: int, review: string, replies: Replies): (r: seq<Effect>)
    ensures |r| >= 2 && r[0] == Invoke(ProcessReview, RequestBody(review, rating, Response))
    ensures r[|r| - 1].ToastError? || r[|r| - 1].OnSuccess?
  {
    var enriched := Enrich(Kinds, review, rating, replies);
    enriched.requests + Conclude(rating, review, enriched.outcome, replies)
  }

  /** `handleSubmit`. A rejected input produces its error toast and nothing
      else; otherwise the attempt runs between raising and lowering the
      submitting flag. The rating and the review text are never changed. */
  function HandleSubmit(form: Form, replies: Replies): (out: Submission)
    ensures out.form.rating == form.rating && out.form.review == form.review
    ensures form.rating == 0 ==> out == Submission(form, [ToastError(RatingMissingText)])
    ensures form.rating != 0 && !HasText(form.review) ==> out == Submission(form, [ToastError(ReviewMissingText)])
    ensures form.rating != 0 && HasText(form.review) ==>
      && !out.form.submitting
      && |out.trace| >= 2
      && out.trace[0] == SetSubmitting(true)
      && out.trace[|out.trace| - 1] == SetSubmitting(false)
  {
    match Validate(form.rating, form.review)
    case Some(err) => Submission(form, [ToastError(err.Message())])
    case None =>
      Submission(form.(submitting := false),
        [SetSubmitting(true)] + Attempt(form.rating, form.review, replies) + [SetSubmitting(false)])
  }
}
