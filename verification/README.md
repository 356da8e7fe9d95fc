# Review form submission, modelled in Dafny

This project models `handleSubmit`, the submit handler of the review form
component (`src/components/ReviewForm.tsx`), and the three pieces of component
state it reads and writes: the star rating, the review text and the
`isSubmitting` flag.

The handler works in this order:

1. It rejects a missing rating, then a text that is empty after trimming. Each
   rejection shows its own error toast.
2. It raises the submitting flag.
3. It calls the `process-review` function three times in a fixed order: for a
   reply (`response`), a `summary` and recommended `actions`. The first failure
   stops the sequence.
4. It inserts the trimmed review and the three results into the `reviews`
   table. A missing or empty result is stored as null.
5. It shows a success toast and passes the reply, or a default thank-you text,
   to `onSuccess`. Any failure instead shows one error toast with the error's
   message, or a fallback text.
6. It lowers the flag.

The remote calls are not performed. Each call's outcome comes from a
`Replies` script, where each call is `Ok(result?)` or `Err(message?)`. What
the handler does to the outside world is recorded, in order, as a trace of
`Effect`s. The handler becomes a pure function from the form and the script
to the final form and the trace.

The files:

- `js.dfy` (`Js`) holds the JavaScript rules the handler relies on:
  - optional values;
  - string truthiness;
  - `v || null` and `v || fallback`.
- `text.dfy` (`Text`) models `String.prototype.trim`.
  - Whitespace is the ECMAScript WhiteSpace and LineTerminator characters.
  - The module has a declarative reference definition (`IsTrimOf`) and a
    proof that at most one string meets it.
- `review_form.dfy` (`ReviewForm`) holds the data model and the handler.
  - Validation, the request loop `Enrich`, the `try`/`catch` block and
    `HandleSubmit`.
- `trace_filter.dfy` (`TraceFilter`) projects a trace onto one kind of
  effect: requests, inserts, toasts, callbacks or flag changes.
- `submit_properties.dfy` (`SubmitProperties`) states the handler's promises.
  - The reference definitions name the three replies directly: `Enriched`,
    `Stored`, `Issued`, `ThrownMessage`, `StoredRow` and `Payload`.
  - Each projection of the trace is stated against them.
  - It also holds worked examples.
- `submission_machine.dfy` (`SubmissionMachine`) is an independent
  small-step state machine for the same submission. Its phases are
  validating, enriching, persisting, succeeded and failed.
  - It proves that running the machine to completion produces the handler's
    final state and exactly its trace.
  - It proves that the flag is up exactly while a remote call is still to
    come.

## Model

| member | source | states |
|---|---|---|
| Text.Trim | src/components/ReviewForm.tsx:27 | `review.trim()`: the result is a cut of the input with only whitespace outside it and no whitespace at either end; it is empty exactly when the input is all whitespace |
| Text.TrimOfUnique | src/components/ReviewForm.tsx:27 | at most one string is such a cut of a given input, so `Trim` is the only function meeting the reference definition |
| Text.TrimIdempotent | src/components/ReviewForm.tsx:62 | the text stored by the insert, trimmed again, is unchanged |
| Text.TrimOfTrimmed | src/components/ReviewForm.tsx:62 | a text with no whitespace at either end is stored exactly as typed |
| Js.OrNull | src/components/ReviewForm.tsx:63-65 | `v \|\| null` keeps a value only when it is truthy: the result is the input or null, never the empty string, and truthy exactly when the input is |
| Js.OrElse | src/components/ReviewForm.tsx:71 | `v \|\| fallback` is the input's string exactly when the input is truthy, and the fallback otherwise |
| Text.IsWs | src/components/ReviewForm.tsx:27 | the characters `trim` removes include space, tab and the line breaks, exclude the zero-width space and the next-line character, and are all single UTF-16 code units |
| ReviewForm.Requests | src/components/ReviewForm.tsx:36-55 | one `process-review` request per kind, in order, each with the same review and rating |
| ReviewForm.Catch | src/components/ReviewForm.tsx:73-75 | the `catch` block shows one error toast: the error's message when it is non-empty, the fallback text otherwise |
| ReviewForm.Conclude | src/components/ReviewForm.tsx:59-75 | after a failed request only the catch toast; otherwise the insert of the rating, the trimmed text and each result or null, followed by the catch toast if the insert fails, or by the success toast and `onSuccess` with the reply or the default text |
| ReviewForm.Attempt | src/components/ReviewForm.tsx:34-75 | the `try`/`catch` block always starts with the reply request and ends with an error toast or the `onSuccess` call |
| SubmitProperties.RequestTypesOnTheWire | src/components/ReviewForm.tsx:36-55 | an accepted submission sends as many requests as it issues, all to `process-review`, with `type` "response", "summary", "actions" in that order |
| SubmitProperties.FreshFormRejected | src/components/ReviewForm.tsx:15-30 | submitting the form as first mounted shows only the star-rating toast; with only a star picked, only the "Please write a review" toast |
| ReviewForm.Validate | src/components/ReviewForm.tsx:22-30 | a rating of 0 is rejected first; otherwise a text with no non-whitespace character is rejected; exactly the other inputs pass |
| ReviewForm.FirstError | src/components/ReviewForm.tsx:36-57 | the position of the first failing request: every earlier request succeeded, the one there failed, and it equals the count exactly when all succeeded |
| ReviewForm.Enrich | src/components/ReviewForm.tsx:36-57 | the three awaited calls: all succeed exactly when the outcome is the results in order after all three requests; otherwise the requests stop at the first failure and its error message is thrown |
| ReviewForm.HandleSubmit | src/components/ReviewForm.tsx:19-79 | never changes rating or text; a missing rating or blank text yields only its error toast and leaves the state alone; an accepted input's trace starts by raising the flag and ends by lowering it |
| SubmitProperties.EnrichKinds | src/components/ReviewForm.tsx:36-57 | the generic request loop issues requests up to and including the first failure, and yields the three results or the first failure's message |
| SubmitProperties.AttemptShape | src/components/ReviewForm.tsx:34-75 | the `try`/`catch` block is its requests, then one of three endings: an error toast after a failed request; the insert then an error toast; or the insert, the success toast and `onSuccess` |
| SubmitProperties.Rejected | src/components/ReviewForm.tsx:22-30 | a rejected input produces exactly one effect, its error toast, and no request, insert or flag change |
| SubmitProperties.AcceptedTrace | src/components/ReviewForm.tsx:32-78 | an accepted input's full trace: flag up, the requests issued, the ending, flag down |
| SubmitProperties.RequestsInOrder | src/components/ReviewForm.tsx:36-57 | the requests are response, summary, actions in that order, each with the same text and rating; none follows a failure; a rejected input issues none |
| SubmitProperties.InsertIffEnriched | src/components/ReviewForm.tsx:59-68 | there is an insert exactly when the input is accepted and all three requests succeed; then there is one insert, of the trimmed text and the three results with empty or missing ones as null |
| SubmitProperties.ExactlyOneToast | src/components/ReviewForm.tsx:22-75 | every submission shows exactly one toast: the validation message, the success text, or the first failure's message (the fallback text when it has none) |
| SubmitProperties.CallbackIffStored | src/components/ReviewForm.tsx:68-71 | `onSuccess` is called exactly when the insert succeeds, once, with the reply or the default text |
| SubmitProperties.FlagRaisedAndLowered | src/components/ReviewForm.tsx:32-78 | an accepted input raises the flag once, first, and lowers it once, last, whatever fails; a rejected input never touches it |
| SubmitProperties.SuccessOrder | src/components/ReviewForm.tsx:59-78 | on success the last four effects are the insert, the success toast, `onSuccess`, and the flag dropping |
| SubmitProperties.FailureOrder | src/components/ReviewForm.tsx:73-78 | on a failure after acceptance, the error toast is the last effect before the flag drops |
| SubmitProperties.PayloadMatchesStoredReply | src/components/ReviewForm.tsx:59-71 | the text passed to `onSuccess` is the reply stored in the insert, or the default text when the stored reply is null |
| SubmitProperties.FormAfterSubmit | src/components/ReviewForm.tsx:15-79 | the handler never clears the rating or text; after an accepted input the flag is down; a rejected input leaves the state exactly as it was |
| SubmitProperties.ResubmitStartsAfresh | src/components/ReviewForm.tsx:15-32 | after any outcome, the same input can be submitted again at once, passes validation again, and behaves exactly as a first submission |
| SubmitProperties.HandlerIgnoresFlag | src/components/ReviewForm.tsx:19-32 | the handler does not read the submitting flag: called while it is up, it starts a second submission with the same requests |
| SubmitProperties.ExampleNoRating | src/components/ReviewForm.tsx:22-25 | rating 0 with any text gives only the "Please select a star rating" toast |
| SubmitProperties.ExampleBlankText | src/components/ReviewForm.tsx:27-30 | rating 4 with a text of three spaces gives only the "Please write a review" toast |
| SubmitProperties.ExampleAllSucceed | src/components/ReviewForm.tsx:32-78 | rating 5, "Great service!", three non-empty results and a successful insert give the full eight-effect trace, storing the text as typed and passing the reply to `onSuccess` |
| SubmitProperties.ExampleReplyFails | src/components/ReviewForm.tsx:36-41 | rating 4, "fine", the reply request failing without a message: one request, the fallback error toast, no insert, rating and text kept |
| SubmissionMachine.Step | src/components/ReviewForm.tsx:19-79 | one transition keeps the phase well formed, makes progress, never changes rating or text, and keeps the flag in step with the phase |
| SubmissionMachine.StepAppends | src/components/ReviewForm.tsx:19-79 | a step only appends effects to the trace |
| SubmissionMachine.RunAppends | src/components/ReviewForm.tsx:19-79 | any number of steps only appends effects: nothing done is undone or reordered |
| SubmissionMachine.Run | src/components/ReviewForm.tsx:19-79 | with enough steps the machine reaches succeeded or failed, keeping rating and text and keeping the flag in step with the phase |
| SubmissionMachine.EnrichingRun | src/components/ReviewForm.tsx:36-78 | from any point in the request sequence, the machine issues the remaining requests as the request loop does, then ends as the `try`/`catch`/`finally` blocks do |
| SubmissionMachine.MachineMatchesHandler | src/components/ReviewForm.tsx:19-79 | running the machine from the start gives the handler's final state and exactly its trace |
| SubmissionMachine.FlagIsInFlight | src/components/ReviewForm.tsx:17-78 | from a form with the flag down, the flag is up exactly while a request or the insert is still to come, and down once the machine has finished |
| Js.OrElseAgreesWithOrNull | src/components/ReviewForm.tsx:62-71 | `v \|\| fallback` is the value `v \|\| null` keeps, or the fallback when that is null |

## Behaviour worth noting

- **No in-flight check.** The handler does not read `isSubmitting`. Only the
  button's `disabled={isSubmitting}` (line 123) keeps a second submit from
  starting while one is running. `SubmitProperties.HandlerIgnoresFlag`
  states what the handler does when it is called anyway.
- **Request field names.** Each request body carries the untrimmed `review`,
  the `rating` and a `type` of "response", "summary" or "actions" (lines 38,
  46, 54). `RequestBody` holds the request's `Kind`, and `Kind.Tag` gives its
  `type` string.
- **AI fields stored one by one.** Each of the three AI fields is stored as
  null on its own when its result is missing or empty (lines 63-65), even
  though all three calls succeeded. `StoredRow` applies `OrNull` to each
  field.
- **Reply delivered by callback.** The reply reaches the caller through
  `onSuccess`, after the success toast (lines 70-71). The model records it as
  an `OnSuccess` effect.

## Left out

- Rendering (lines 80-141) is not modelled: the card, the labels, the star
  widget, the character counter and the button's spinner.
- The 500-character `maxLength` on the text area (line 113) is enforced by
  the browser, not the handler. The model accepts text of any length.
- The disabled submit button (line 123) is not modelled. It sits outside the
  handler. The model keeps only the flag it reads.
- `e.preventDefault()` (line 20) only affects the browser event. It has no
  effect in the model.
- `console.error` (line 74) is logging only. It is not an effect in the
  trace.
- Asynchrony is left out. Each `await` is a point where the outcome is read
  from the script. Re-renders and other events between awaits are not
  modelled.
- React state updates are recorded at the moment they are requested, not
  when React applies them.
- A `toast` or `onSuccess` call that throws is not modelled. A throwing
  `onSuccess` would enter the `catch` block and show a second, error toast
  after the success toast. The model assumes these collaborators return
  normally.
- A rejected `invoke` or `insert` promise is not a separate case. It reaches
  the same `catch` block as a returned `error`, so it is covered by
  `Err(message)`.
- `data?.result` values other than strings (numbers, objects) are not
  modelled. A result is an optional string, and only its truthiness matters
  to the code.
- Strings are sequences of Unicode scalar values, not UTF-16 code units.
  Every character `trim` removes is a single UTF-16 unit, so trimming is
  unaffected. Lone surrogates cannot be represented.
- The rating's range of 1 to 5 comes from the star widget, which is not
  modelled. The handler only tests `rating === 0`, and the model takes any
  integer.
- Js.OrElseAgreesWithOrNull: it is stated for strings only, which are the
  only values the handler passes to `||`.
