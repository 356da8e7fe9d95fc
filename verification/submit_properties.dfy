/** What `handleSubmit` promises, stated over projections of its effect trace:
    which requests it issues, whether it inserts, which toast it shows, whether
    it calls `onSuccess`, and how it moves the submitting flag. The promises
    are phrased with the reference definitions below, which name the three
    replies directly instead of walking the list of request kinds. */
module SubmitProperties {
  import opened Js
  import Text
  import opened ReviewForm
  import opened TraceFilter

  /** The input passes both checks. */
  ghost predicate Accepted(form: Form) {
    form.rating != 0 && HasText(form.review)
  }

  /** All three enrichment requests succeed. */
  predicate Enriched(replies: Replies) {
    replies.response.Ok? && replies.summary.Ok? && replies.actions.Ok?
  }

  /** All three requests and the insert succeed. */
  predicate Stored(replies: Replies) {
    Enriched(replies) && replies.insert.Ok?
  }

  /** How many requests an accepted submission issues: up to and including
      the first failing one, or all three. */
  function Issued(replies: Replies): (n: nat)
    ensures 1 <= n <= |Kinds|
    ensures forall i :: 0 <= i < n - 1 ==> replies.To(Kinds[i]).Ok?
    ensures n < |Kinds| ==> replies.To(Kinds[n - 1]).Err?
  {
    if replies.response.Err? then 1
    else if replies.summary.Err? then 2
    else 3
  }

  /** The `result` a reply carries, if it carries one. */
  function ResultOf(reply: Reply): Option<string> {
    if reply.Ok? then reply.result else None
  }

  /** The message of the first failing call, in the order they are made. */
  function ThrownMessage(replies: Replies): Option<string> {
    if replies.response.Err? then replies.response.message
    else if replies.summary.Err? then replies.summary.message
    else if replies.actions.Err? then replies.actions.message
    else if replies.insert.Err? then replies.insert.message
    else None
  }

  /** The record an accepted submission stores. */
  function StoredRow(rating: int, review: string, replies: Replies): ReviewRow {
    ReviewRow(rating, Text.Trim(review),
      OrNull(ResultOf(replies.response)), OrNull(ResultOf(replies.summary)), OrNull(ResultOf(replies.actions)))
  }

  /** What `onSuccess` receives. */
  function Payload(replies: Replies): string {
    OrElse(ResultOf(replies.response), DefaultPayload)
  }

  /** What an accepted submission does after its requests, in each of its
      three ways of ending: a request failed, the insert failed, or
      everything succeeded. */
  function Ending(rating: int, review: string, replies: Replies): (t: seq<Effect>)
    ensures 1 <= |t| <= 3
  {
    if !Enriched(replies) then
      [ToastError(OrElse(ThrownMessage(replies), FallbackErrorText))]
    else if replies.insert.Err? then
      [Insert(ReviewsTable, StoredRow(rating, review, replies)), ToastError(OrElse(ThrownMessage(replies), FallbackErrorText))]
    else
      [Insert(ReviewsTable, StoredRow(rating, review, replies)), ToastSuccess(SubmittedText), OnSuccess(Payload(replies))]
  }

  /** The one toast a submission shows. */
  ghost function ExpectedToast(form: Form, replies: Replies): Effect {
    if form.rating == 0 then ToastError(RatingMissingText)
    else if !HasText(form.review) then ToastError(ReviewMissingText)
    else if Stored(replies) then ToastSuccess(SubmittedText)
    else ToastError(OrElse(ThrownMessage(replies), FallbackErrorText))
  }

  /** The generic request loop, run over the three kinds, agrees with the
      reference definitions. */
  lemma EnrichKinds(review: string, rating: int, replies: Replies)
    ensures var e := Enrich(Kinds, review, rating, replies);
      && e.requests == Requests(Kinds[..Issued(replies)], review, rating)
      && (Enriched(replies) ==> e.outcome == Done([ResultOf(replies.response), ResultOf(replies.summary), ResultOf(replies.actions)]))
      && (!Enriched(replies) ==> e.outcome == Thrown(ThrownMessage(replies)))
  {
    var e := Enrich(Kinds, review, rating, replies);
    assert Kinds[0] == Response && Kinds[1] == Summary && Kinds[2] == Actions;
    if Enriched(replies) {
      assert AllOk(Kinds, replies) by {
        forall i | 0 <= i < |Kinds|
          ensures replies.To(Kinds[i]).Ok?
        {
          assert i == 0 || i == 1 || i == 2;
        }
      }
      assert Kinds[..3] == Kinds;
      var v := e.outcome.value;
      assert v[0] == ResultOf(replies.response) && v[1] == ResultOf(replies.summary) && v[2] == ResultOf(replies.actions);
      assert v == [v[0], v[1], v[2]];
    } else {
      assert !AllOk(Kinds, replies) by {
        if replies.response.Err? {
          assert !replies.To(Kinds[0]).Ok?;
        } else if replies.summary.Err? {
          assert !replies.To(Kinds[1]).Ok?;
        } else {
          assert !replies.To(Kinds[2]).Ok?;
        }
      }
      var k := FirstError(Kinds, replies);
      assert k < 3;
      if k > 0 { assert Kinds[..k][0] == Response; assert replies.response.Ok?; }
      if k > 1 { assert Kinds[..k][1] == Summary; assert replies.summary.Ok?; }
      assert k + 1 == Issued(replies);
    }
  }

  /** The outcome of the request loop, as the reference definitions give it. */
  function EnrichOutcome(replies: Replies): Outcome<seq<Option<string>>> {
    if Enriched(replies) then Done([ResultOf(replies.response), ResultOf(replies.summary), ResultOf(replies.actions)])
    else Thrown(ThrownMessage(replies))
  }

  /** What follows the requests, in each of the three ways of ending. */
  lemma ConcludeEnding(rating: int, review: string, replies: Replies)
    ensures Conclude(rating, review, EnrichOutcome(replies), replies) == Ending(rating, review, replies)
  {
    if Enriched(replies) {
      var row := StoredRow(rating, review, replies);
      var results := EnrichOutcome(replies).value;
      assert ReviewRow(rating, Text.Trim(review), OrNull(results[0]), OrNull(results[1]), OrNull(results[2])) == row;
      if replies.insert.Err? {
        assert Conclude(rating, review, EnrichOutcome(replies), replies) == [Insert(ReviewsTable, row)] + [Catch(replies.insert.message)];
      } else {
        assert Conclude(rating, review, EnrichOutcome(replies), replies)
            == [Insert(ReviewsTable, row)] + [ToastSuccess(SubmittedText), OnSuccess(Payload(replies))];
      }
    }
  }

  /** The attempt is its requests, up to the first failure, then its ending. */
  lemma AttemptShape(rating: int, review: string, replies: Replies)
    ensures Attempt(rating, review, replies)
         == Requests(Kinds[..Issued(replies)], review, rating) + Ending(rating, review, replies)
  {
    var e := Enrich(Kinds, review, rating, replies);
    EnrichKinds(review, rating, replies);
    assert e.outcome == EnrichOutcome(replies);
    ConcludeEnding(rating, review, replies);
    assert Attempt(rating, review, replies) == e.requests + Conclude(rating, review, EnrichOutcome(replies), replies);
  }

  /** A rejected input leaves the form alone and shows only its error toast. */
  lemma Rejected(form: Form, replies: Replies)
    requires !Accepted(form)
    ensures HandleSubmit(form, replies) == Submission(form, [ExpectedToast(form, replies)])
  {
  }

  /** An accepted submission, in full: the flag raised, the requests up to the
      first failure, the ending, the flag lowered. */
  lemma AcceptedTrace(form: Form, replies: Replies)
    requires Accepted(form)
    ensures HandleSubmit(form, replies)
         == Submission(form.(submitting := false),
              [SetSubmitting(true)]
              + (Requests(Kinds[..Issued(replies)], form.review, form.rating) + Ending(form.rating, form.review, replies))
              + [SetSubmitting(false)])
  {
    assert Validate(form.rating, form.review) == None;
    AttemptShape(form.rating, form.review, replies);
  }

  // The ending, projected onto each sort of effect.

  /** The ending, piece by piece, whatever the projection. */
  lemma EndingFilter(rating: int, review: string, replies: Replies, keep: Effect -> bool)
    ensures var row := Insert(ReviewsTable, StoredRow(rating, review, replies));
      var failed := ToastError(OrElse(ThrownMessage(replies), FallbackErrorText));
      Filter(Ending(rating, review, replies), keep)
      == if !Enriched(replies) then Filter([failed], keep)
         else if replies.insert.Err? then Filter([row], keep) + Filter([failed], keep)
         else Filter([row], keep) + Filter([ToastSuccess(SubmittedText)], keep) + Filter([OnSuccess(Payload(replies))], keep)
  {
    var row := Insert(ReviewsTable, StoredRow(rating, review, replies));
    var failed := ToastError(OrElse(ThrownMessage(replies), FallbackErrorText));
    if !Enriched(replies) {
    } else if replies.insert.Err? {
      FilterTwo(row, failed, keep);
    } else {
      FilterThree(row, ToastSuccess(SubmittedText), OnSuccess(Payload(replies)), keep);
    }
  }

  lemma EndingRequests(rating: int, review: string, replies: Replies)
    ensures Filter(Ending(rating, review, replies), IsRequest) == []
  {
    EndingFilter(rating, review, replies, IsRequest);
    FilterOne(Insert(ReviewsTable, StoredRow(rating, review, replies)), IsRequest);
    FilterOne(ToastError(OrElse(ThrownMessage(replies), FallbackErrorText)), IsRequest);
    FilterOne(ToastSuccess(SubmittedText), IsRequest);
    FilterOne(OnSuccess(Payload(replies)), IsRequest);
  }

  lemma EndingFlags(rating: int, review: string, replies: Replies)
    ensures Filter(Ending(rating, review, replies), IsFlag) == []
  {
    EndingFilter(rating, review, replies, IsFlag);
    FilterOne(Insert(ReviewsTable, StoredRow(rating, review, replies)), IsFlag);
    FilterOne(ToastError(OrElse(ThrownMessage(replies), FallbackErrorText)), IsFlag);
    FilterOne(ToastSuccess(SubmittedText), IsFlag);
    FilterOne(OnSuccess(Payload(replies)), IsFlag);
  }

  lemma EndingInserts(rating: int, review: string, replies: Replies)
    ensures Filter(Ending(rating, review, replies), IsInsert)
         == if Enriched(replies) then [Insert(ReviewsTable, StoredRow(rating, review, replies))] else []
  {
    EndingFilter(rating, review, replies, IsInsert);
    FilterOne(Insert(ReviewsTable, StoredRow(rating, review, replies)), IsInsert);
    FilterOne(ToastError(OrElse(ThrownMessage(replies), FallbackErrorText)), IsInsert);
    FilterOne(ToastSuccess(SubmittedText), IsInsert);
    FilterOne(OnSuccess(Payload(replies)), IsInsert);
  }

  lemma EndingToasts(rating: int, review: string, replies: Replies)
    ensures Filter(Ending(rating, review, replies), IsToast)
         == if Stored(replies) then [ToastSuccess(SubmittedText)]
            else [ToastError(OrElse(ThrownMessage(replies), FallbackErrorText))]
  {
    EndingFilter(rating, review, replies, IsToast);
    FilterOne(Insert(ReviewsTable, StoredRow(rating, review, replies)), IsToast);
    FilterOne(ToastError(OrElse(ThrownMessage(replies), FallbackErrorText)), IsToast);
    FilterOne(ToastSuccess(SubmittedText), IsToast);
    FilterOne(OnSuccess(Payload(replies)), IsToast);
  }

  lemma EndingCallbacks(rating: int, review: string, replies: Replies)
    ensures Filter(Ending(rating, review, replies), IsCallback)
         == if Stored(replies) then [OnSuccess(Payload(replies))] else []
  {
    EndingFilter(rating, review, replies, IsCallback);
    FilterOne(Insert(ReviewsTable, StoredRow(rating, review, replies)), IsCallback);
    FilterOne(ToastError(OrElse(ThrownMessage(replies), FallbackErrorText)), IsCallback);
    FilterOne(ToastSuccess(SubmittedText), IsCallback);
    FilterOne(OnSuccess(Payload(replies)), IsCallback);
  }

  // The promises of `handleSubmit`, one sort of effect at a time.

  /** The three requests are issued one after another, in the order response,
      summary, actions, each with the same review and rating; none follows a
      failure, and a rejected input issues none. */
  lemma RequestsInOrder(form: Form, replies: Replies)
    ensures Filter(HandleSubmit(form, replies).trace, IsRequest)
         == if Accepted(form) then Requests(Kinds[..Issued(replies)], form.review, form.rating) else []
  {
    var out := HandleSubmit(form, replies);
    if Accepted(form) {
      AcceptedTrace(form, replies);
      FilterInside(Requests(Kinds[..Issued(replies)], form.review, form.rating), Ending(form.rating, form.review, replies), IsRequest);
      var requests := Requests(Kinds[..Issued(replies)], form.review, form.rating);
      FilterRequestsAll(Kinds[..Issued(replies)], form.review, form.rating);
      EndingRequests(form.rating, form.review, replies);
      assert requests + [] == requests;
    } else {
      Rejected(form, replies);
      FilterOne(ExpectedToast(form, replies), IsRequest);
    }
  }

  /** On the wire, the requests' `type` fields read "response", "summary" and
      "actions", in that order, as far as the requests go. */
  lemma RequestTypesOnTheWire(form: Form, replies: Replies)
    requires Accepted(form)
    ensures var sent := Filter(HandleSubmit(form, replies).trace, IsRequest);
      && |sent| == Issued(replies)
      && forall i :: 0 <= i < |sent| ==>
           && sent[i].Invoke? && sent[i].name == "process-review"
           && sent[i].body.kind.Tag() == ["response", "summary", "actions"][i]
  {
    RequestsInOrder(form, replies);
    WireTypes(Issued(replies), form.review, form.rating);
  }

  /** The first `n` requests carry the first `n` wire names. */
  lemma WireTypes(n: nat, review: string, rating: int)
    requires n <= |Kinds|
    ensures var sent := Requests(Kinds[..n], review, rating);
      forall i :: 0 <= i < |sent| ==>
        && sent[i].Invoke? && sent[i].name == "process-review"
        && sent[i].body.kind.Tag() == ["response", "summary", "actions"][i]
  {
    var sent := Requests(Kinds[..n], review, rating);
    forall i | 0 <= i < |sent|
      ensures sent[i].body.kind.Tag() == ["response", "summary", "actions"][i]
    {
      assert sent[i].body.kind == Kinds[i];
    }
  }

  /** The review is stored exactly when the input is accepted and all three
      requests succeed, and then exactly once, with the trimmed text and the
      three results. */
  lemma InsertIffEnriched(form: Form, replies: Replies)
    ensures Filter(HandleSubmit(form, replies).trace, IsInsert)
         == if Accepted(form) && Enriched(replies)
            then [Insert(ReviewsTable, StoredRow(form.rating, form.review, replies))]
            else []
  {
    if Accepted(form) {
      AcceptedTrace(form, replies);
      FilterInside(Requests(Kinds[..Issued(replies)], form.review, form.rating), Ending(form.rating, form.review, replies), IsInsert);
      FilterRequestsNone(Kinds[..Issued(replies)], form.review, form.rating, IsInsert);
      EndingInserts(form.rating, form.review, replies);
      var ending := Filter(Ending(form.rating, form.review, replies), IsInsert);
      assert [] + ending == ending;
    } else {
      Rejected(form, replies);
      FilterOne(ExpectedToast(form, replies), IsInsert);
    }
  }

  /** Every submission shows exactly one toast: the validation error, the
      success message, or the error of the first failing call (or the
      fallback text when that error has no message). */
  lemma ExactlyOneToast(form: Form, replies: Replies)
    ensures Filter(HandleSubmit(form, replies).trace, IsToast) == [ExpectedToast(form, replies)]
  {
    if Accepted(form) {
      AcceptedTrace(form, replies);
      FilterInside(Requests(Kinds[..Issued(replies)], form.review, form.rating), Ending(form.rating, form.review, replies), IsToast);
      FilterRequestsNone(Kinds[..Issued(replies)], form.review, form.rating, IsToast);
      EndingToasts(form.rating, form.review, replies);
      var ending := Filter(Ending(form.rating, form.review, replies), IsToast);
      assert [] + ending == ending;
    } else {
      Rejected(form, replies);
      FilterOne(ExpectedToast(form, replies), IsToast);
    }
  }

  /** `onSuccess` is called exactly when the review is stored, once, with the
      response result or the default text. */
  lemma CallbackIffStored(form: Form, replies: Replies)
    ensures Filter(HandleSubmit(form, replies).trace, IsCallback)
         == if Accepted(form) && Stored(replies) then [OnSuccess(Payload(replies))] else []
  {
    if Accepted(form) {
      AcceptedTrace(form, replies);
      FilterInside(Requests(Kinds[..Issued(replies)], form.review, form.rating), Ending(form.rating, form.review, replies), IsCallback);
      FilterRequestsNone(Kinds[..Issued(replies)], form.review, form.rating, IsCallback);
      EndingCallbacks(form.rating, form.review, replies);
      var ending := Filter(Ending(form.rating, form.review, replies), IsCallback);
      assert [] + ending == ending;
    } else {
      Rejected(form, replies);
      FilterOne(ExpectedToast(form, replies), IsCallback);
    }
  }

  /** The submitting flag is raised before anything else and lowered after
      everything else, once each, whatever fails; a rejected input never
      touches it. */
  lemma FlagRaisedAndLowered(form: Form, replies: Replies)
    ensures Filter(HandleSubmit(form, replies).trace, IsFlag)
         == if Accepted(form) then [SetSubmitting(true), SetSubmitting(false)] else []
  {
    if Accepted(form) {
      var requests := Requests(Kinds[..Issued(replies)], form.review, form.rating);
      AcceptedTrace(form, replies);
      FilterRequestsNone(Kinds[..Issued(replies)], form.review, form.rating, IsFlag);
      EndingFlags(form.rating, form.review, replies);
      FilterFlags(requests, Ending(form.rating, form.review, replies));
    } else {
      Rejected(form, replies);
      FilterOne(ExpectedToast(form, replies), IsFlag);
    }
  }

  /** On success the stored review comes first, then the success toast, then
      `onSuccess`, then the flag drops: nothing else follows the insert. */
  lemma SuccessOrder(form: Form, replies: Replies)
    requires Accepted(form) && Stored(replies)
    ensures var t := HandleSubmit(form, replies).trace;
      && |t| == |Kinds| + 5
      && t[|t| - 4] == Insert(ReviewsTable, StoredRow(form.rating, form.review, replies))
      && t[|t| - 3] == ToastSuccess(SubmittedText)
      && t[|t| - 2] == OnSuccess(Payload(replies))
      && t[|t| - 1] == SetSubmitting(false)
  {
    AcceptedTrace(form, replies);
  }

  /** On failure the error toast is the last effect before the flag drops. */
  lemma FailureOrder(form: Form, replies: Replies)
    requires Accepted(form) && !Stored(replies)
    ensures var t := HandleSubmit(form, replies).trace;
      && |t| >= 4
      && t[|t| - 2] == ToastError(OrElse(ThrownMessage(replies), FallbackErrorText))
      && t[|t| - 1] == SetSubmitting(false)
  {
    AcceptedTrace(form, replies);
  }

  /** `onSuccess` receives the reply that was stored, or the default text
      when no reply was stored. */
  lemma PayloadMatchesStoredReply(form: Form, replies: Replies)
    requires Accepted(form) && Stored(replies)
    ensures var t := HandleSubmit(form, replies).trace;
      var row := StoredRow(form.rating, form.review, replies);
      && Filter(t, IsInsert) == [Insert(ReviewsTable, row)]
      && Filter(t, IsCallback) == [OnSuccess(OrElse(row.aiResponse, DefaultPayload))]
  {
    InsertIffEnriched(form, replies);
    CallbackIffStored(form, replies);
    OrElseAgreesWithOrNull(ResultOf(replies.response), DefaultPayload);
  }

  /** The handler never resets the rating or the text, and it leaves the
      flag down after an accepted submission; a rejected input leaves the
      component state alone. */
  lemma FormAfterSubmit(form: Form, replies: Replies)
    ensures HandleSubmit(form, replies).form
         == if Accepted(form) then form.(submitting := false) else form
  {
    if Accepted(form) {
      AcceptedTrace(form, replies);
    } else {
      Rejected(form, replies);
    }
  }

  /** Because nothing is reset, the same input can be submitted again at
      once, and it passes the checks again, whatever the first attempt's
      outcome. */
  lemma ResubmitStartsAfresh(form: Form, first: Replies, second: Replies)
    requires Accepted(form)
    ensures var again := HandleSubmit(form, first).form;
      && !again.submitting
      && Accepted(again)
      && HandleSubmit(again, second).trace == HandleSubmit(form, second).trace
  {
    FormAfterSubmit(form, first);
    AcceptedTrace(form, second);
    AcceptedTrace(form.(submitting := false), second);
  }

  /** The handler itself does not look at the submitting flag: pressed
      again while a submission is in flight, it starts a second one with the
      same requests. Only the disabled button keeps this from happening. */
  lemma HandlerIgnoresFlag(form: Form, replies: Replies)
    requires Accepted(form)
    ensures HandleSubmit(form.(submitting := true), replies).trace
         == HandleSubmit(form.(submitting := false), replies).trace
    ensures Filter(HandleSubmit(form.(submitting := true), replies).trace, IsRequest) != []
  {
    AcceptedTrace(form.(submitting := true), replies);
    AcceptedTrace(form.(submitting := false), replies);
    RequestsInOrder(form.(submitting := true), replies);
  }

  // Worked examples.

  /** A freshly mounted form is rejected for its missing rating; once a star
      is picked, it is rejected for its empty text. */
  lemma FreshFormRejected(rating: int, replies: Replies)
    requires rating != 0
    ensures HandleSubmit(Initial, replies) == Submission(Initial, [ToastError("Please select a star rating")])
    ensures HandleSubmit(Initial.(rating := rating), replies)
         == Submission(Initial.(rating := rating), [ToastError("Please write a review")])
  {
  }

  /** No star selected: rejected before any request, whatever the text. */
  lemma ExampleNoRating(review: string, replies: Replies)
    ensures HandleSubmit(Form(0, review, false), replies)
         == Submission(Form(0, review, false), [ToastError("Please select a star rating")])
  {
  }

  /** A rating of 4 with a text of spaces only: rejected, nothing else happens. */
  lemma ExampleBlankText(replies: Replies)
    ensures HandleSubmit(Form(4, "   ", false), replies)
         == Submission(Form(4, "   ", false), [ToastError("Please write a review")])
  {
    var review := "   ";
    assert !HasText(review) by {
      forall i | 0 <= i < |review|
        ensures Text.IsWs(review[i])
      {
      }
    }
  }

  /** Three replies and a successful insert: the whole trace. */
  lemma ExampleAllSucceed(reply: string, summary: string, actions: string)
    requires reply != "" && summary != "" && actions != ""
    ensures var replies := Replies(Ok(Some(reply)), Ok(Some(summary)), Ok(Some(actions)), Ok(None));
      HandleSubmit(Form(5, "Great service!", false), replies).trace
      == [ SetSubmitting(true),
           Invoke("process-review", RequestBody("Great service!", 5, Response)),
           Invoke("process-review", RequestBody("Great service!", 5, Summary)),
           Invoke("process-review", RequestBody("Great service!", 5, Actions)),
           Insert("reviews", ReviewRow(5, "Great service!", Some(reply), Some(summary), Some(actions))),
           ToastSuccess("Review submitted successfully!"),
           OnSuccess(reply),
           SetSubmitting(false) ]
  {
    var review := "Great service!";
    var form := Form(5, review, false);
    var replies := Replies(Ok(Some(reply)), Ok(Some(summary)), Ok(Some(actions)), Ok(None));
    assert !Text.IsWs(review[0]) && !Text.IsWs(review[|review| - 1]);
    assert HasText(review);
    Text.TrimOfTrimmed(review);
    var row := ReviewRow(5, review, Some(reply), Some(summary), Some(actions));
    assert StoredRow(5, review, replies) == row;
    var ending := [Insert(ReviewsTable, row), ToastSuccess(SubmittedText), OnSuccess(reply)];
    assert Ending(5, review, replies) == ending;
    var requests := [Invoke(ProcessReview, RequestBody(review, 5, Response)),
                     Invoke(ProcessReview, RequestBody(review, 5, Summary)),
                     Invoke(ProcessReview, RequestBody(review, 5, Actions))];
    assert Kinds[..3] == Kinds;
    assert Requests(Kinds, review, 5) == requests;
    AcceptedTrace(form, replies);
    Flatten(SetSubmitting(true), requests[0], requests[1], requests[2], ending[0], ending[1], ending[2], SetSubmitting(false));
  }

  lemma Flatten(a: Effect, b: Effect, c: Effect, d: Effect, e: Effect, f: Effect, g: Effect, h: Effect)
    ensures [a] + ([b, c, d] + [e, f, g]) + [h] == [a, b, c, d, e, f, g, h]
  {
  }

  /** The first request fails without a message: one request, the fallback
      error text, and nothing stored. */
  lemma ExampleReplyFails(rest: Replies)
    ensures var replies := rest.(response := Err(None));
      HandleSubmit(Form(4, "fine", false), replies)
      == Submission(Form(4, "fine", false), [
           SetSubmitting(true),
           Invoke("process-review", RequestBody("fine", 4, Response)),
           ToastError("Failed to submit review. Please try again."),
           SetSubmitting(false) ])
  {
    var review := "fine";
    var form := Form(4, review, false);
    var replies := rest.(response := Err(None));
    assert !Text.IsWs(review[0]);
    assert HasText(review);
    AcceptedTrace(form, replies);
    assert Requests(Kinds[..1], review, 4) == [Invoke(ProcessReview, RequestBody(review, 4, Response))];
  }
}
