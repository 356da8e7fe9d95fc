/** Projections of an effect trace: the effects of one sort, in order. */
module TraceFilter {
  import opened ReviewForm

  predicate IsRequest(e: Effect) { e.Invoke? }
  predicate IsInsert(e: Effect) { e.Insert? }
  predicate IsToast(e: Effect) { e.ToastSuccess? || e.ToastError? }
  predicate IsCallback(e: Effect) { e.OnSuccess? }
  predicate IsFlag(e: Effect) { e.SetSubmitting? }

  /** The effects of `t` that `keep` selects, in their order. */
  function Filter(t: seq<Effect>, keep: Effect -> bool): (r: seq<Effect>)
    ensures |r| <= |t|
  {
    if t == [] then []
    else (if keep(t[0]) then [t[0]] else []) + Filter(t[1..], keep)
  }

  lemma {:induction false} FilterAppend(a: seq<Effect>, b: seq<Effect>, keep: Effect -> bool)
    ensures Filter(a + b, keep) == Filter(a, keep) + Filter(b, keep)
  {
    if a == [] {
      assert a + b == b;
    } else {
      var rest := a[1..];
      assert (a + b)[0] == a[0];
      assert (a + b)[1..] == rest + b;
      FilterAppend(rest, b, keep);
      var head := if keep(a[0]) then [a[0]] else [];
      assert Filter(a + b, keep) == head + Filter(rest + b, keep);
      assert Filter(a, keep) == head + Filter(rest, keep);
    }
  }

  lemma {:induction false} FilterNone(t: seq<Effect>, keep: Effect -> bool)
    requires forall i :: 0 <= i < |t| ==> !keep(t[i])
    ensures Filter(t, keep) == []
  {
    if t != [] {
      FilterNone(t[1..], keep);
    }
  }

  lemma {:induction false} FilterAll(t: seq<Effect>, keep: Effect -> bool)
    requires forall i :: 0 <= i < |t| ==> keep(t[i])
    ensures Filter(t, keep) == t
  {
    if t != [] {
      FilterAll(t[1..], keep);
    }
  }

  lemma FilterOne(x: Effect, keep: Effect -> bool)
    ensures Filter([x], keep) == if keep(x) then [x] else []
  {
    assert [x][1..] == [];
  }

  lemma FilterTwo(x: Effect, y: Effect, keep: Effect -> bool)
    ensures Filter([x, y], keep) == Filter([x], keep) + Filter([y], keep)
  {
    assert [x, y] == [x] + [y];
    FilterAppend([x], [y], keep);
  }

  lemma FilterThree(x: Effect, y: Effect, z: Effect, keep: Effect -> bool)
    ensures Filter([x, y, z], keep) == Filter([x], keep) + Filter([y], keep) + Filter([z], keep)
  {
    assert [x, y, z] == [x] + [y, z];
    FilterAppend([x], [y, z], keep);
    FilterTwo(y, z, keep);
  }

  /** A filter of the trace of an accepted submission: the flag raised, the
      requests, the ending, the flag lowered. */
  lemma FilterParts(requests: seq<Effect>, ending: seq<Effect>, keep: Effect -> bool)
    ensures Filter([SetSubmitting(true)] + (requests + ending) + [SetSubmitting(false)], keep)
         == Filter([SetSubmitting(true)], keep) + (Filter(requests, keep) + Filter(ending, keep))
            + Filter([SetSubmitting(false)], keep)
  {
    var a := [SetSubmitting(true)];
    FilterAppend(a + (requests + ending), [SetSubmitting(false)], keep);
    FilterAppend(a, requests + ending, keep);
    FilterAppend(requests, ending, keep);
  }

  /** A projection that drops the flag changes keeps only what lies between them. */
  lemma FilterInside(requests: seq<Effect>, ending: seq<Effect>, keep: Effect -> bool)
    requires !keep(SetSubmitting(true)) && !keep(SetSubmitting(false))
    ensures Filter([SetSubmitting(true)] + (requests + ending) + [SetSubmitting(false)], keep)
         == Filter(requests, keep) + Filter(ending, keep)
  {
    FilterParts(requests, ending, keep);
    FilterOne(SetSubmitting(true), keep);
    FilterOne(SetSubmitting(false), keep);
    var inside := Filter(requests, keep) + Filter(ending, keep);
    assert [] + inside + [] == inside;
  }

  /** The flag changes around a stretch that changes no flag. */
  lemma FilterFlags(requests: seq<Effect>, ending: seq<Effect>)
    requires Filter(requests, IsFlag) == [] && Filter(ending, IsFlag) == []
    ensures Filter([SetSubmitting(true)] + (requests + ending) + [SetSubmitting(false)], IsFlag)
         == [SetSubmitting(true), SetSubmitting(false)]
  {
    FilterParts(requests, ending, IsFlag);
    FilterOne(SetSubmitting(true), IsFlag);
    FilterOne(SetSubmitting(false), IsFlag);
    assert [SetSubmitting(true)] + ([] + []) + [SetSubmitting(false)] == [SetSubmitting(true), SetSubmitting(false)];
  }

  /** Requests pass a filter that selects requests, unchanged. */
  lemma FilterRequestsAll(kinds: seq<Kind>, review: string, rating: int)
    ensures Filter(Requests(kinds, review, rating), IsRequest) == Requests(kinds, review, rating)
  {
    var r := Requests(kinds, review, rating);
    assert forall i :: 0 <= i < |r| ==> r[i].Invoke?;
    FilterAll(r, IsRequest);
  }

  /** No request passes a filter that selects none. */
  lemma FilterRequestsNone(kinds: seq<Kind>, review: string, rating: int, keep: Effect -> bool)
    requires forall k :: !keep(Invoke(ProcessReview, RequestBody(review, rating, k)))
    ensures Filter(Requests(kinds, review, rating), keep) == []
  {
    var r := Requests(kinds, review, rating);
    forall i | 0 <= i < |r|
      ensures !keep(r[i])
    {
      assert r[i] == Invoke(ProcessReview, RequestBody(review, rating, kinds[i]));
    }
    FilterNone(r, keep);
  }
}
