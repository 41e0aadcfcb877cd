/** The fetching iterators of lazy and chunked queries (src/model/query/lazy.rs,
    src/model/query/chunked.rs), over a fixed sequence `rows` of matching rows.  `fault` says
    whether opening the connection or reading a page fails for a reason of its own; a request
    whose numbers SQLite refuses fails besides. */
module Paging {
  import opened Prelude
  import opened Queries

  datatype FetchError = FetchFailed

  /** The rows a limit has not run out on: `remaining_limit` is positive or absent. */
  predicate LimitLeft(p: Plan, consumed: Usize) {
    var remaining := RemainingLimit(p, consumed);
    remaining.None? || remaining.value > 0
  }

  class ChunkedTryIter {
    const plan: Plan
    const chunkSize: Usize
    var consumed: Usize
    var done: bool
    /** The page requests sent so far (`record_query_with_params`). */
    var log: seq<Tail>

    constructor (plan: Plan, chunkSize: Usize)
      ensures this.plan == plan && this.chunkSize == chunkSize
      ensures consumed == 0 && !done && log == []
    {
      this.plan, this.chunkSize, consumed, done, log := plan, chunkSize, 0, false, [];
    }

    /** Rows still to come, of which `consumed` were delivered. */
    function Rest<T>(rows: seq<T>): seq<T>
      reads this`consumed
      requires consumed <= |Page(rows, plan)|
    {
      Page(rows, plan)[consumed..]
    }

    /** The next call sends a request. */
    predicate Asking()
      reads this`consumed, this`done
    {
      !done && LimitLeft(plan, consumed)
    }

    method Next<T>(rows: seq<T>, fault: bool) returns (r: Option<Result<seq<T>, FetchError>>)
      requires |rows| <= USIZE_MAX && consumed <= |Page(rows, plan)| && chunkSize > 0
      modifies this
      ensures consumed <= |Page(rows, plan)|
      ensures r.None? ==> done && consumed == old(consumed)
      ensures !old(Asking()) ==> r == None && log == old(log)
      ensures old(Asking()) ==> |log| == |old(log)| + 1 && old(log) <= log
      ensures old(Asking()) ==> (r.Some? && r.value.Err? <==> fault || !RequestFits(plan, chunkSize, old(consumed)))
      ensures r.Some? && r.value.Err? ==> old(Asking()) && done && consumed == old(consumed)
      ensures !old(done) && r.None? ==> old(Rest(rows)) == []
      ensures r.Some? && r.value.Ok? ==>
        var chunk := r.value.value;
        && chunk != []
        && chunk == Take(old(Rest(rows)), chunkSize)
        && Rest(rows) == old(Rest(rows))[|chunk|..]
        && (done ==> Rest(rows) == [])
        && (done <==> |chunk| < chunkSize || !LimitLeft(plan, consumed))
    {
      if done {
        return None;
      }
      var remaining := RemainingLimit(plan, consumed);
      if remaining == Some(0) {
        done := true;
        return None;
      }
      var chunkLimit := if remaining.Some? then Least(remaining.value, chunkSize) else chunkSize;
      var query := PagedTail(plan, chunkLimit, consumed);
      PagedAnswers(rows, plan, chunkLimit, consumed);
      log := log + [query];
      var answer := Run(rows, query);
      if fault || answer.None? {
        done := true;
        return Some(Err(FetchFailed));
      }
      var page := answer.value;
      assert page == Take(Rest(rows), chunkSize);
      if page == [] {
        done := true;
        return None;
      }
      consumed := consumed + |page|;
      done := |page| < chunkLimit || RemainingLimit(plan, consumed) == Some(0);
      return Some(Ok(page));
    }
  }

  class LazyTryIter {
    const plan: Plan
    var consumed: Usize
    var done: bool
    var log: seq<Tail>

    constructor (plan: Plan)
      ensures this.plan == plan
      ensures consumed == 0 && !done && log == []
    {
      this.plan, consumed, done, log := plan, 0, false, [];
    }

    function Rest<T>(rows: seq<T>): seq<T>
      reads this`consumed
      requires consumed <= |Page(rows, plan)|
    {
      Page(rows, plan)[consumed..]
    }

    /** The next call sends a request. */
    predicate Asking()
      reads this`consumed, this`done
    {
      !done && LimitLeft(plan, consumed)
    }

    method Next<T>(rows: seq<T>, fault: bool) returns (r: Option<Result<T, FetchError>>)
      requires |rows| <= USIZE_MAX && consumed <= |Page(rows, plan)|
      modifies this
      ensures consumed <= |Page(rows, plan)|
      ensures r.None? ==> done && consumed == old(consumed)
      ensures !old(Asking()) ==> r == None && log == old(log)
      ensures old(Asking()) ==> |log| == |old(log)| + 1 && old(log) <= log
      ensures old(Asking()) ==> (r.Some? && r.value.Err? <==> fault || !RequestFits(plan, 1, old(consumed)))
      ensures r.Some? && r.value.Err? ==> old(Asking()) && done && consumed == old(consumed)
      ensures !old(done) && r.None? ==> old(Rest(rows)) == []
      ensures r.Some? && r.value.Ok? ==> !done && old(Rest(rows)) == [r.value.value] + Rest(rows)
    {
      if done {
        return None;
      }
      if RemainingLimit(plan, consumed) == Some(0) {
        done := true;
        return None;
      }
      hide Page, Run;
      var query := PagedTail(plan, 1, consumed);
      PagedAnswers(rows, plan, 1, consumed);
      log := log + [query];
      var answer := Run(rows, query);
      if fault || answer.None? {
        done := true;
        return Some(Err(FetchFailed));
      }
      var page := answer.value;
      if page == [] {
        done := true;
        return None;
      }
      ghost var rest := Rest(rows);
      assert page == Take(rest, 1) && rest == [page[0]] + rest[1..];
      consumed := consumed + 1;
      assert Rest(rows) == rest[1..];
      return Some(Ok(page[0]));
    }
  }

  /* ---------- Whole iterations ---------- */

  function Flatten<T>(chunks: seq<seq<T>>): seq<T> {
    if chunks == [] then [] else Flatten(chunks[..|chunks| - 1]) + chunks[|chunks| - 1]
  }

  predicate AllFull<T>(chunks: seq<seq<T>>, size: nat) {
    forall i :: 0 <= i < |chunks| ==> |chunks[i]| == size
  }

  /** Non-empty chunks, all of them full except perhaps the last. */
  predicate WellChunked<T>(chunks: seq<seq<T>>, size: nat) {
    chunks != [] ==>
      && AllFull(chunks[..|chunks| - 1], size)
      && 0 < |chunks[|chunks| - 1]| <= size
  }

  lemma {:induction false} FullLength<T>(chunks: seq<seq<T>>, size: nat)
    requires AllFull(chunks, size)
    ensures |Flatten(chunks)| == |chunks| * size
  {
    if chunks != [] {
      var front := chunks[..|chunks| - 1];
      FullLength(front, size);
      assert |chunks| * size == |front| * size + size;
    }
  }

  /** Whether a complete iteration ends with a page request that finds nothing. */
  predicate EndsWithEmptyFetch<T>(page: seq<T>, p: Plan, size: nat)
    requires size > 0
  {
    |page| % size == 0 && p.limit != Some(|page|)
  }

  lemma LastChunk<T>(page: seq<T>, p: Plan, front: nat, last: nat, size: nat)
    requires 0 < last <= size && |page| == front * size + last
    requires last < size || p.limit == Some(|page|)
    ensures !EndsWithEmptyFetch(page, p, size)
  {
    if last < size {
      assert |page| % size == last by { Remainder(front, last, size); }
    }
  }

  lemma {:induction false} MultiplesApart(a: nat, b: nat, size: nat)
    requires a < b
    ensures a * size + size <= b * size
  {
    var c := b - 1;
    if a < c {
      MultiplesApart(a, c, size);
    }
    assert b * size == c * size + size;
  }

  lemma Remainder(q: nat, r: nat, size: nat)
    requires r < size
    ensures (q * size + r) % size == r
  {
    var n := q * size + r;
    assert n == (n / size) * size + n % size;
    if n / size < q {
      MultiplesApart(n / size, q, size);
    } else if n / size > q {
      MultiplesApart(q, n / size, size);
    }
  }

  lemma LimitUsedUp<T>(rows: seq<T>, p: Plan, consumed: Usize)
    requires consumed <= |Page(rows, p)| && !LimitLeft(p, consumed)
    ensures p.limit == Some(|Page(rows, p)|)
  {
  }

  lemma NoChunks<T>(size: nat)
    ensures AllFull<T>([], size) && WellChunked<T>([], size) && Flatten<T>([]) == []
  {
  }

  lemma AddChunk<T>(chunks: seq<seq<T>>, chunk: seq<T>, size: nat)
    requires AllFull(chunks, size) && 0 < |chunk| <= size
    ensures WellChunked(chunks + [chunk], size) && Flatten(chunks + [chunk]) == Flatten(chunks) + chunk
    ensures |chunk| == size ==> AllFull(chunks + [chunk], size)
  {
    assert (chunks + [chunk])[..|chunks|] == chunks;
  }

  lemma EndsFull<T>(chunks: seq<seq<T>>, page: seq<T>, p: Plan, size: nat)
    requires size > 0 && AllFull(chunks, size) && Flatten(chunks) == page && p.limit != Some(|page|)
    ensures EndsWithEmptyFetch(page, p, size)
  {
    FullLength(chunks, size);
    Remainder(|chunks|, 0, size);
  }

  lemma EndsWithin<T>(front: seq<seq<T>>, chunk: seq<T>, page: seq<T>, p: Plan, size: nat)
    requires AllFull(front, size) && Flatten(front) + chunk == page && 0 < |chunk| <= size
    requires |chunk| < size || p.limit == Some(|page|)
    ensures !EndsWithEmptyFetch(page, p, size)
  {
    FullLength(front, size);
    LastChunk(page, p, |front|, |chunk|, size);
  }

  lemma Advance<T>(page: seq<T>, was: nat, n: nat)
    requires was + n <= |page|
    ensures page[..was] + page[was..][..n] == page[..was + n]
    ensures page[was..][n..] == [] ==> page[..was + n] == page
  {
  }

  /** `for chunk in query.chunked(n).try_iter()`: reads chunks until the iterator ends or reports
      a failure.  `faults` lists the page requests that fail. */
  method CollectChunks<T>(rows: seq<T>, plan: Plan, chunkSize: Usize, faults: set<nat>)
    returns (chunks: seq<seq<T>>, failed: bool, fetches: nat)
    requires |rows| <= USIZE_MAX && chunkSize > 0
    ensures WellChunked(chunks, chunkSize)
    ensures !failed ==> Flatten(chunks) == Page(rows, plan)
    ensures !failed ==> fetches == |chunks| + (if EndsWithEmptyFetch(Page(rows, plan), plan, chunkSize) then 1 else 0)
    ensures failed ==> AllFull(chunks, chunkSize) && Flatten(chunks) <= Page(rows, plan)
    ensures failed ==> fetches == |chunks| + 1
    ensures failed ==> |chunks| in faults || !RequestFits(plan, chunkSize, |Flatten(chunks)|)
    ensures forall k :: 0 <= k < (if failed then |chunks| else fetches) ==> k !in faults
    ensures faults == {} && |rows| <= INTEGER_MAX ==> failed == !RequestFits(plan, chunkSize, 0)
  {
    hide Page, EndsWithEmptyFetch, AllFull, WellChunked, Flatten, RequestFits;
    var iter := new ChunkedTryIter(plan, chunkSize);
    ghost var page := Page(rows, plan);
    chunks, failed := [], false;
    NoChunks<T>(chunkSize);
    var going := true;
    while going
      invariant iter.plan == plan && iter.chunkSize == chunkSize && fresh(iter)
      invariant iter.consumed <= |page| && Flatten(chunks) == page[..iter.consumed]
      invariant WellChunked(chunks, chunkSize)
      invariant going && !iter.done ==> AllFull(chunks, chunkSize)
      invariant !failed && iter.done ==> Flatten(chunks) == page
      invariant going ==> !failed && |iter.log| == |chunks|
      invariant going && iter.done ==> !EndsWithEmptyFetch(page, plan, chunkSize)
      invariant !going && !failed ==>
          iter.done && |iter.log| == |chunks| + (if EndsWithEmptyFetch(page, plan, chunkSize) then 1 else 0)
      invariant failed ==> !going && AllFull(chunks, chunkSize) && |iter.log| == |chunks| + 1
      invariant failed ==> |chunks| in faults || !RequestFits(plan, chunkSize, iter.consumed)
      invariant forall k :: 0 <= k < (if failed then |chunks| else |iter.log|) ==> k !in faults
      invariant chunks != [] || (!going && !failed) ==> RequestFits(plan, chunkSize, 0)
      invariant chunks == [] ==> iter.consumed == 0 && (going ==> !iter.done)
      decreases going, |page| - iter.consumed, !iter.done
    {
      ghost var front, wasDone, was := chunks, iter.done, iter.consumed;
      var next := iter.Next(rows, |iter.log| in faults);
      match next {
        case None =>
          going := false;
          if !wasDone {
            NothingAsked(plan, chunkSize, was);
            AtTheEnd(rows, plan, chunks, was, chunkSize, |iter.log| - |chunks|);
          }
        case Some(Err(_)) =>
          going, failed := false, true;
        case Some(Ok(chunk)) =>
          AddChunk(chunks, chunk, chunkSize);
          chunks := chunks + [chunk];
          Advance(page, was, |chunk|);
          if iter.done {
            if !LimitLeft(plan, iter.consumed) {
              LimitUsedUp(rows, plan, iter.consumed);
            }
            EndsWithin(front, chunk, page, plan, chunkSize);
          }
      }
    }
    fetches := |iter.log|;
    assert page[..iter.consumed] <= page;
    if faults == {} && |rows| <= INTEGER_MAX && RequestFits(plan, chunkSize, 0) {
      FirstRequestDecides(rows, plan, chunkSize, iter.consumed);
    }
  }

  lemma NothingAsked(p: Plan, size: nat, consumed: Usize)
    ensures !LimitLeft(p, consumed) ==> RequestFits(p, size, consumed)
  {
  }

  /** The last call asked for a page unless the limit had run out. */
  lemma AtTheEnd<T>(rows: seq<T>, plan: Plan, chunks: seq<seq<T>>, consumed: Usize, size: nat, asked: int)
    requires size > 0 && consumed <= |Page(rows, plan)| && AllFull(chunks, size)
    requires Flatten(chunks) == Page(rows, plan)[..consumed] && Page(rows, plan)[consumed..] == []
    requires asked == if LimitLeft(plan, consumed) then 1 else 0
    ensures Flatten(chunks) == Page(rows, plan)
    ensures asked == if EndsWithEmptyFetch(Page(rows, plan), plan, size) then 1 else 0
  {
    hide Page, AllFull, Flatten;
    var page := Page(rows, plan);
    assert page[..consumed] == page;
    if LimitLeft(plan, consumed) {
      EndsFull(chunks, page, plan, size);
    } else {
      LimitUsedUp(rows, plan, consumed);
    }
  }

  /** `for item in query.lazy().try_iter()`. */
  method CollectItems<T>(rows: seq<T>, plan: Plan, faults: set<nat>) returns (items: seq<T>, failed: bool, fetches: nat)
    requires |rows| <= USIZE_MAX
    ensures !failed ==> items == Page(rows, plan)
    ensures !failed ==> fetches == |items| + (if plan.limit == Some(|items|) then 0 else 1)
    ensures failed ==> items <= Page(rows, plan) && fetches == |items| + 1
    ensures failed ==> |items| in faults || !RequestFits(plan, 1, |items|)
    ensures forall k :: 0 <= k < (if failed then |items| else fetches) ==> k !in faults
    ensures faults == {} && |rows| <= INTEGER_MAX ==> failed == !RequestFits(plan, 1, 0)
  {
    hide RequestFits;
    var iter := new LazyTryIter(plan);
    var page := Page(rows, plan);
    items, failed := [], false;
    var going := true;
    while going
      invariant iter.plan == plan && fresh(iter)
      invariant iter.consumed <= |page| && items == page[..iter.consumed]
      invariant going ==> !failed && !iter.done && |iter.log| == |items|
      invariant !going && !failed ==>
          items == page && |iter.log| == |items| + (if plan.limit == Some(|items|) then 0 else 1)
      invariant failed ==> |iter.log| == |items| + 1
      invariant failed ==> |items| in faults || !RequestFits(plan, 1, iter.consumed)
      invariant forall k :: 0 <= k < (if failed then |items| else |iter.log|) ==> k !in faults
      invariant items != [] || (!going && !failed) ==> RequestFits(plan, 1, 0)
      decreases going, |page| - iter.consumed
    {
      ghost var was := iter.consumed;
      var next := iter.Next(rows, |iter.log| in faults);
      match next {
        case None =>
          NothingAsked(plan, 1, was);
          going := false;
        case Some(Err(_)) =>
          going, failed := false, true;
        case Some(Ok(item)) =>
          assert page[was..] == [item] + page[iter.consumed..];
          assert page[was] == page[was..][0] == item;
          assert |page[iter.consumed..]| == |page[was..]| - 1;
          items := items + [item];
      }
    }
    fetches := |iter.log|;
    assert page[..iter.consumed] <= page;
    if faults == {} && |rows| <= INTEGER_MAX && RequestFits(plan, 1, 0) {
      FirstRequestDecides(rows, plan, 1, iter.consumed);
    }
  }
}
