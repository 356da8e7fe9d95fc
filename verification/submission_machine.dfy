/** The submission as a small-step state machine: validating, then one step
    per enrichment request, then persisting, ending in success or failure.
    Running the machine from the start yields exactly the component state and
    effect trace of `HandleSubmit`, and the submitting flag is, at every
    step, the projection "a request or the insert is still to come". */
module SubmissionMachine {
  import opened Js
  import Text
  import opened ReviewForm

  datatype Phase =
    | Validating
    | Enriching(results: seq<Option<string>>)
    | Persisting(results: seq<Option<string>>)
    | Succeeded(payload: string)
    | Failed(message: string)
  {
    predicate Terminal() { Succeeded? || Failed? }
  }

  datatype Config = Config(phase: Phase, form: Form, trace: seq<Effect>)

  /** `Enriching` holds the results of the requests made so far, fewer than
      all of them; `Persisting` holds all of them. */
  predicate WellFormed(c: Config) {
    && (c.phase.Enriching? ==> |c.phase.results| < |Kinds|)
    && (c.phase.Persisting? ==> |c.phase.results| == |Kinds|)
  }

  /** The flag is raised exactly while a remote call is still to come. */
  predicate FlagInSync(c: Config) {
    c.form.submitting <==> c.phase.Enriching? || c.phase.Persisting?
  }

  /** An upper bound on the steps left before the machine finishes. */
  function Rank(p: Phase): nat {
    match p
    case Validating => |Kinds| + 2
    case Enriching(results) => if |results| <= |Kinds| then |Kinds| + 1 - |results| else 0
    case Persisting(_) => 1
    case Succeeded(_) => 0
    case Failed(_) => 0
  }

  function Start(form: Form): Config {
    Config(Validating, form, [])
  }

  /** A thrown error: after `done`, the error toast, then the flag drops. */
  function Abort(c: Config, done: seq<Effect>, message: Option<string>): Config {
    var text := OrElse(message, FallbackErrorText);
    Config(Failed(text), c.form.(submitting := false), c.trace + done + [ToastError(text), SetSubmitting(false)])
  }

  function Step(c: Config, replies: Replies): (next: Config)
    requires WellFormed(c) && !c.phase.Terminal()
    ensures WellFormed(next)
    ensures Rank(next.phase) < Rank(c.phase)
    ensures next.form.rating == c.form.rating && next.form.review == c.form.review
    ensures FlagInSync(c) ==> FlagInSync(next)
  {
    var rating, review := c.form.rating, c.form.review;
    match c.phase
    case Validating =>
      if rating == 0 then
        Config(Failed(RatingMissingText), c.form, c.trace + [ToastError(RatingMissingText)])
      else if Text.Trim(review) == [] then
        Config(Failed(ReviewMissingText), c.form, c.trace + [ToastError(ReviewMissingText)])
      else
        Config(Enriching([]), c.form.(submitting := true), c.trace + [SetSubmitting(true)])
    case Enriching(results) =>
      var kind := Kinds[|results|];
      var request := Invoke(ProcessReview, RequestBody(review, rating, kind));
      (match replies.To(kind)
       case Err(m) => Abort(c, [request], m)
       case Ok(res) =>
         var got := results + [res];
         Config(if |got| == |Kinds| then Persisting(got) else Enriching(got), c.form, c.trace + [request]))
    case Persisting(results) =>
      var insert := Insert(ReviewsTable,
        ReviewRow(rating, Text.Trim(review), OrNull(results[0]), OrNull(results[1]), OrNull(results[2])));
      match replies.insert
      case Err(m) => Abort(c, [insert], m)
      case Ok(_) =>
        var payload := OrElse(results[0], DefaultPayload);
        Config(Succeeded(payload), c.form.(submitting := false),
          c.trace + [insert, ToastSuccess(SubmittedText), OnSuccess(payload), SetSubmitting(false)])
  }

  /** Up to `fuel` steps; enough fuel always reaches a final phase. */
  function Run(c: Config, replies: Replies, fuel: nat): (last: Config)
    requires WellFormed(c)
    ensures WellFormed(last)
    ensures fuel >= Rank(c.phase) ==> last.phase.Terminal()
    ensures FlagInSync(c) ==> FlagInSync(last)
    ensures last.form.rating == c.form.rating && last.form.review == c.form.review
    decreases fuel
  {
    if c.phase.Terminal() || fuel == 0 then c
    else Run(Step(c, replies), replies, fuel - 1)
  }

  /** A step only appends effects: nothing already done is undone or reordered. */
  lemma StepAppends(c: Config, replies: Replies)
    requires WellFormed(c) && !c.phase.Terminal()
    ensures c.trace < Step(c, replies).trace
  {
  }

  /** A run only appends effects. */
  lemma {:induction false} RunAppends(c: Config, replies: Replies, fuel: nat)
    requires WellFormed(c)
    ensures c.trace <= Run(c, replies, fuel).trace
    decreases fuel
  {
    if !c.phase.Terminal() && fuel > 0 {
      var next := Step(c, replies);
      StepAppends(c, replies);
      RunAppends(next, replies, fuel - 1);
    }
  }

  /** A whole submission: as many steps as the longest path needs. */
  function Submit(form: Form, replies: Replies): (last: Config)
    ensures last.phase.Terminal()
    ensures !form.submitting ==> !last.form.submitting
  {
    Run(Start(form), replies, |Kinds| + 2)
  }
  /** The results gathered before a run of requests, joined with that run's outcome. */
  function Extend(before: seq<Option<string>>, outcome: Outcome<seq<Option<string>>>): Outcome<seq<Option<string>>> {
    match outcome
    case Done(rest) => Done(before + rest)
    case Thrown(m) => Thrown(m)
  }

  /** Requests remain to be made, with fuel enough to finish. */
  predicate Requesting(c: Config, fuel: nat) {
    c.phase.Enriching? && WellFormed(c) && fuel >= Rank(c.phase)
  }

  /** From `Persisting`, one step finishes: it does what the handler's `try`
      block does after its last request. */
  lemma PersistingRun(c: Config, replies: Replies, fuel: nat)
    requires c.phase.Persisting? && WellFormed(c) && fuel >= 1
    ensures var last := Run(c, replies, fuel);
      && last.form == c.form.(submitting := false)
      && last.trace == c.trace + Conclude(c.form.rating, c.form.review, Done(c.phase.results), replies) + [SetSubmitting(false)]
  {
    var next := Step(c, replies);
    assert Run(c, replies, fuel) == Run(next, replies, fuel - 1);
    assert Run(next, replies, fuel - 1) == next;
  }

  lemma Regroup(a: seq<Effect>, b: seq<Effect>, c: seq<Effect>)
    ensures a + b + c == a + (b + c)
  {
  }

  /** `Enrich` after a successful first request: that request, then the rest. */
  lemma EnrichFirstOk(kinds: seq<Kind>, review: string, rating: int, replies: Replies)
    requires kinds != [] && replies.To(kinds[0]).Ok?
    ensures var e := Enrich(kinds, review, rating, replies);
      var rest := Enrich(kinds[1..], review, rating, replies);
      && e.requests == [Invoke(ProcessReview, RequestBody(review, rating, kinds[0]))] + rest.requests
      && e.outcome == Extend([replies.To(kinds[0]).result], rest.outcome)
  {
  }

  /** One enrichment step, from a state with results `before`. */
  lemma EnrichingStep(c: Config, replies: Replies)
    requires c.phase.Enriching? && WellFormed(c)
    ensures var before := c.phase.results;
      var kind := Kinds[|before|];
      var request := Invoke(ProcessReview, RequestBody(c.form.review, c.form.rating, kind));
      var next := Step(c, replies);
      && (replies.To(kind).Err? ==> next == Abort(c, [request], replies.To(kind).message))
      && (replies.To(kind).Ok? ==>
            var got := before + [replies.To(kind).result];
            next == Config(if |got| == |Kinds| then Persisting(got) else Enriching(got), c.form, c.trace + [request]))
  {
  }

  /** The last request succeeds: one step to `Persisting`, one step to the end. */
  lemma LastRequestRun(c: Config, replies: Replies, fuel: nat)
    requires Requesting(c, fuel)
    requires |c.phase.results| == |Kinds| - 1
    requires replies.To(Kinds[|c.phase.results|]).Ok?
    ensures var before := c.phase.results;
      var e := Enrich(Kinds[|before|..], c.form.review, c.form.rating, replies);
      var last := Run(c, replies, fuel);
      && last.form == c.form.(submitting := false)
      && last.trace
         == c.trace + e.requests
            + Conclude(c.form.rating, c.form.review, Extend(before, e.outcome), replies)
            + [SetSubmitting(false)]
  {
    var before := c.phase.results;
    var rating, review := c.form.rating, c.form.review;
    var kinds := Kinds[|before|..];
    var e := Enrich(kinds, review, rating, replies);
    var next := Step(c, replies);
    assert Run(c, replies, fuel) == Run(next, replies, fuel - 1);
    EnrichingStep(c, replies);
    var request := Invoke(ProcessReview, RequestBody(review, rating, kinds[0]));
    var res := replies.To(kinds[0]).result;
    var got := before + [res];
    assert next == Config(Persisting(got), c.form, c.trace + [request]);
    EnrichFirstOk(kinds, review, rating, replies);
    assert kinds[1..] == [];
    assert Enrich(kinds[1..], review, rating, replies) == Enrichment([], Done([]));
    assert [request] + [] == [request];
    assert e.requests == [request];
    assert [res] + [] == [res];
    assert e.outcome == Extend([res], Done([]));
    assert Extend(before, e.outcome) == Done(got);
    PersistingRun(next, replies, fuel - 1);
  }

  /** From `Enriching`, the machine issues the remaining requests exactly as
      `Enrich` does, then ends as the handler's `try` block and `finally` do. */
  lemma {:induction false} EnrichingRun(c: Config, replies: Replies, fuel: nat)
    requires Requesting(c, fuel)
    ensures var before := c.phase.results;
      var e := Enrich(Kinds[|before|..], c.form.review, c.form.rating, replies);
      var last := Run(c, replies, fuel);
      && last.form == c.form.(submitting := false)
      && last.trace
         == c.trace + e.requests
            + Conclude(c.form.rating, c.form.review, Extend(before, e.outcome), replies)
            + [SetSubmitting(false)]
    decreases |Kinds| - |c.phase.results|, 1
  {
    var before := c.phase.results;
    var rating, review := c.form.rating, c.form.review;
    var kinds := Kinds[|before|..];
    var e := Enrich(kinds, review, rating, replies);
    var next := Step(c, replies);
    assert Run(c, replies, fuel) == Run(next, replies, fuel - 1);
    assert kinds[0] == Kinds[|before|];
    EnrichingStep(c, replies);
    var request := Invoke(ProcessReview, RequestBody(review, rating, kinds[0]));
    if replies.To(kinds[0]).Err? {
      assert Run(next, replies, fuel - 1) == next;
    } else if |before| == |Kinds| - 1 {
      LastRequestRun(c, replies, fuel);
    } else {
      MiddleRequestRun(c, replies, fuel);
    }
  }

  /** A request other than the last succeeds: the machine moves to the next
      `Enriching` phase with the request appended, and `Enrich` splits the
      same way. */
  lemma MiddleStep(c: Config, replies: Replies, fuel: nat)
    requires Requesting(c, fuel)
    requires |c.phase.results| < |Kinds| - 1
    requires replies.To(Kinds[|c.phase.results|]).Ok?
    ensures var before := c.phase.results;
      var kind := Kinds[|before|];
      var request := Invoke(ProcessReview, RequestBody(c.form.review, c.form.rating, kind));
      var got := before + [replies.To(kind).result];
      var next := Config(Enriching(got), c.form, c.trace + [request]);
      var e := Enrich(Kinds[|before|..], c.form.review, c.form.rating, replies);
      var rest := Enrich(Kinds[|got|..], c.form.review, c.form.rating, replies);
      && fuel >= 1 && Requesting(next, fuel - 1)
      && Run(c, replies, fuel) == Run(next, replies, fuel - 1)
      && e.requests == [request] + rest.requests
      && Extend(before, e.outcome) == Extend(got, rest.outcome)
  {
    var before := c.phase.results;
    var rating, review := c.form.rating, c.form.review;
    var kinds := Kinds[|before|..];
    var next := Step(c, replies);
    assert Run(c, replies, fuel) == Run(next, replies, fuel - 1);
    assert kinds[0] == Kinds[|before|];
    EnrichingStep(c, replies);
    var res := replies.To(kinds[0]).result;
    var got := before + [res];
    EnrichFirstOk(kinds, review, rating, replies);
    assert kinds[1..] == Kinds[|got|..];
    var rest := Enrich(Kinds[|got|..], review, rating, replies);
    if rest.outcome.Done? {
      assert before + ([res] + rest.outcome.value) == got + rest.outcome.value;
    }
  }

  /** A request other than the last succeeds: one step to the next
      `Enriching` phase, then the rest as `EnrichingRun` says. */
  lemma {:induction false} MiddleRequestRun(c: Config, replies: Replies, fuel: nat)
    requires Requesting(c, fuel)
    requires |c.phase.results| < |Kinds| - 1
    requires replies.To(Kinds[|c.phase.results|]).Ok?
    ensures var before := c.phase.results;
      var e := Enrich(Kinds[|before|..], c.form.review, c.form.rating, replies);
      var last := Run(c, replies, fuel);
      && last.form == c.form.(submitting := false)
      && last.trace
         == c.trace + e.requests
            + Conclude(c.form.rating, c.form.review, Extend(before, e.outcome), replies)
            + [SetSubmitting(false)]
    decreases |Kinds| - |c.phase.results|, 0
  {
    var before := c.phase.results;
    var kind := Kinds[|before|];
    var request := Invoke(ProcessReview, RequestBody(c.form.review, c.form.rating, kind));
    var got := before + [replies.To(kind).result];
    var next := Config(Enriching(got), c.form, c.trace + [request]);
    var rest := Enrich(Kinds[|got|..], c.form.review, c.form.rating, replies);
    MiddleStep(c, replies, fuel);
    EnrichingRun(next, replies, fuel - 1);
    Regroup(c.trace, [request], rest.requests);
  }

  /** Running the machine from the start is the handler: same final
      component state, same effects in the same order. */
  lemma {:induction false} MachineMatchesHandler(form: Form, replies: Replies)
    ensures Submit(form, replies).form == HandleSubmit(form, replies).form
    ensures Submit(form, replies).trace == HandleSubmit(form, replies).trace
  {
    if Validate(form.rating, form.review).Some? {
      RejectedRun(form, replies);
    } else {
      AcceptedRun(form, replies);
    }
  }

  /** A rejected input: the first step finishes the machine. */
  lemma RejectedRun(form: Form, replies: Replies)
    requires Validate(form.rating, form.review).Some?
    ensures Submit(form, replies).form == HandleSubmit(form, replies).form
    ensures Submit(form, replies).trace == HandleSubmit(form, replies).trace
  {
    var first := Step(Start(form), replies);
    assert Submit(form, replies) == Run(first, replies, |Kinds| + 1);
    assert first.phase.Terminal();
    assert Run(first, replies, |Kinds| + 1) == first;
  }

  /** An accepted input: the first step raises the flag, then the requests
      and the rest follow as `EnrichingRun` says. */
  lemma AcceptedRun(form: Form, replies: Replies)
    requires Validate(form.rating, form.review).None?
    ensures Submit(form, replies).form == HandleSubmit(form, replies).form
    ensures Submit(form, replies).trace == HandleSubmit(form, replies).trace
  {
    var first := Step(Start(form), replies);
    var last := Run(first, replies, |Kinds| + 1);
    assert Submit(form, replies) == last;
    assert first == Config(Enriching([]), form.(submitting := true), [SetSubmitting(true)]);
    EnrichingRun(first, replies, |Kinds| + 1);
    assert Kinds[0..] == Kinds;
    var e := Enrich(Kinds, form.review, form.rating, replies);
    assert Extend([], e.outcome) == e.outcome by {
      if e.outcome.Done? {
        assert [] + e.outcome.value == e.outcome.value;
      }
    }
    var concluded := Conclude(form.rating, form.review, e.outcome, replies);
    assert last.trace == [SetSubmitting(true)] + e.requests + concluded + [SetSubmitting(false)];
    var attempt := Attempt(form.rating, form.review, replies);
    assert attempt == e.requests + concluded;
    Regroup([SetSubmitting(true)], e.requests, concluded);
    assert HandleSubmit(form, replies)
        == Submission(form.(submitting := false), [SetSubmitting(true)] + attempt + [SetSubmitting(false)]);
  }

  /** The submitting flag tracks the machine: started with the button
      enabled, the flag is raised exactly while a remote call is still to
      come, and it is down once the machine has finished. */
  lemma {:induction false} FlagIsInFlight(form: Form, replies: Replies, fuel: nat)
    requires !form.submitting
    ensures var c := Run(Start(form), replies, fuel);
      && (c.form.submitting <==> c.phase.Enriching? || c.phase.Persisting?)
      && (c.phase.Terminal() ==> !c.form.submitting)
  {
  }
}
